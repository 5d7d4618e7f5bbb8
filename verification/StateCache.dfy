/**
 The state cache as the program keeps it: guild, channel and member objects overwritten in place, with three
 pointer maps on top. Every method is one step of CacheModel on the cache's Snapshot().
 */
module StateCache {
  import opened Wrappers
  import opened Entities
  import opened CacheModel
  import opened CacheContents
  import opened MessageModel

  datatype Status = Ok | NotFound

  ghost function ListsOf(g: Guild): Lists
    reads g
  {
    Lists(g.channels.Items(), g.threads.Items(), g.members.Items())
  }

  ghost function PayloadOf(g: Guild): GuildPayload
    reads g
  {
    GuildPayload(g.id, g.channels, g.threads, g.members)
  }

  ghost function ArchivedIn(ts: seq<Channel>): set<Channel>
    reads ts`archived
  {
    set t | t in ts && t.archived == Some(true)
  }

  /** One round of that loop: a surviving thread goes to the write position, any other leaves the channel map. */
  method CompactRound(threads: array<Channel>, i: nat, index: nat, m: map<string, Channel>, parents: Slice<string>,
                      ghost archived: set<Channel>)
    returns (kept: nat, channelMap: map<string, Channel>)
    requires index <= i < threads.Length && threads[i].archived.Some?
    requires threads[i] in archived <==> threads[i].archived.value
    modifies threads
    ensures if Survives(old(threads[i]), parents, archived)
      then threads[..] == old(threads[..])[index := old(threads[i])] && kept == index + 1 && channelMap == m
      else threads[..] == old(threads[..]) && kept == index && channelMap == m - {old(threads[i]).id}
  {
    var t := threads[i];
    kept, channelMap := index, m;
    if !t.archived.value && parents.Slice? {
      if t.parentID in parents.elems {
        channelMap := channelMap - {t.id};
      } else {
        threads[kept] := t;
        kept := kept + 1;
      }
    } else {
      channelMap := channelMap - {t.id};
    }
  }

  /**
   The filtering loop of ThreadListSync. It compacts the slice in place while ranging over it, so the element read at
   position i must still be the one that was there when the loop began.
   */
  method CompactThreads(threads: array<Channel>, index0: map<string, Channel>, parents: Slice<string>)
    returns (kept: nat, channelMap: map<string, Channel>)
    requires forall i :: 0 <= i < threads.Length ==> threads[i].archived.Some?
    modifies threads
    ensures kept <= threads.Length
    ensures threads[..kept] == Kept(old(threads[..]), parents, old(ArchivedIn(threads[..])))
    ensures channelMap == index0 - DroppedIDs(old(threads[..]), parents, old(ArchivedIn(threads[..])))
  {
    ghost var archived := ArchivedIn(threads[..]);
    assert forall i :: 0 <= i < threads.Length ==> threads[i] in threads[..];
    kept, channelMap := CompactLoop(threads, index0, parents, archived);
  }

  /** That loop, for a set of archived threads that is known beforehand. */
  method CompactLoop(threads: array<Channel>, index0: map<string, Channel>, parents: Slice<string>,
                     ghost archived: set<Channel>)
    returns (kept: nat, channelMap: map<string, Channel>)
    requires forall i :: 0 <= i < threads.Length ==>
      threads[i].archived.Some? && (threads[i] in archived <==> threads[i].archived.value)
    modifies threads
    ensures kept <= threads.Length
    ensures threads[..kept] == Kept(old(threads[..]), parents, archived)
    ensures channelMap == index0 - DroppedIDs(old(threads[..]), parents, archived)
  {
    hide Compacted, Kept, DroppedIDs, Survives;
    ghost var ts := threads[..];
    kept, channelMap := 0, index0;
    CompactedStart(ts, index0, parents, archived);
    for i := 0 to threads.Length
      invariant kept <= i
      invariant Compacted(threads[..], channelMap, kept, i, ts, index0, parents, archived)
    {
      CompactedNext(threads[..], channelMap, kept, i, ts, index0, parents, archived);
      kept, channelMap := CompactRound(threads, i, kept, channelMap, parents, archived);
    }
    CompactedEnd(threads[..], channelMap, kept, ts, index0, parents, archived);
  }

  ghost function ReadyGuildOf(g: Guild): ReadyGuild
    reads g
  {
    ReadyGuild(g, g.channels.Items(), g.members.Items())
  }

  ghost function ReadyOf(gs: seq<Guild>): seq<ReadyGuild>
    reads gs
  {
    if gs == [] then [] else ReadyOf(gs[..|gs| - 1]) + [ReadyGuildOf(gs[|gs| - 1])]
  }

  lemma {:induction false} ReadyOfElements(gs: seq<Guild>)
    ensures |ReadyOf(gs)| == |gs|
    ensures forall i :: 0 <= i < |gs| ==> ReadyOf(gs)[i] == ReadyGuildOf(gs[i])
  {
    if gs != [] {
      ReadyOfElements(gs[..|gs| - 1]);
    }
  }

  lemma ReadyOfGuilds(gs: seq<Guild>)
    ensures GuildsOf(ReadyOf(gs)) == gs
  {
    ReadyOfElements(gs);
  }

  function LastMembership(members: seq<(string, string)>, threadID: string): Option<string> {
    if members == [] then None
    else if members[|members| - 1].0 == threadID then Some(members[|members| - 1].1)
    else LastMembership(members[..|members| - 1], threadID)
  }

  /** None if nothing was sent for the thread, else what was sent last. */
  lemma {:induction false} LastMembershipIsLast(members: seq<(string, string)>, threadID: string)
    ensures match LastMembership(members, threadID)
      case None => forall m <- members :: m.0 != threadID
      case Some(x) => exists i :: 0 <= i < |members| && members[i] == (threadID, x) &&
                                  forall m <- members[i + 1..] :: m.0 != threadID
  {
    if members != [] {
      var n := |members| - 1;
      if members[n].0 == threadID {
        assert members[n] == (threadID, members[n].1) && members[n + 1..] == [];
      } else {
        LastMembershipIsLast(members[..n], threadID);
        assert members == members[..n] + [members[n]];
        if LastMembership(members, threadID).Some? {
          var x := LastMembership(members, threadID).value;
          var i :| 0 <= i < n && members[..n][i] == (threadID, x) &&
                   forall m <- members[..n][i + 1..] :: m.0 != threadID;
          assert members[i] == (threadID, x) && members[i + 1..] == members[..n][i + 1..] + [members[n]];
        }
      }
    }
  }

  ghost function EntryOf(m: Message): Entry
    reads m`body
  {
    Entry(m.id, m.body, m.born)
  }

  ghost function Entries(ms: seq<Message>): (q: seq<Entry>)
    reads ms`body
    ensures |q| == |ms| && forall i :: 0 <= i < |ms| ==> q[i] == EntryOf(ms[i])
  {
    if ms == [] then [] else Entries(ms[..|ms| - 1]) + [EntryOf(ms[|ms| - 1])]
  }

  ghost predicate DistinctMessages(ms: seq<Message>) {
    forall i, j :: 0 <= i < j < |ms| ==> ms[i].id != ms[j].id
  }

  /** A channel as it comes out of JSON: without messages, and a thread with its metadata. */
  ghost predicate Decoded(c: Channel)
    reads c`messages, c`archived
  {
    c.messages == NilSlice && (c.Home().ThreadHome? ==> c.archived.Some?)
  }

  /** A cached channel: its messages name it and have distinct IDs, and a thread has its metadata. */
  ghost predicate Settled(c: Channel)
    reads c`messages, c`archived
  {
    && (forall m <- c.messages.Items() :: m.channelID == c.id)
    && DistinctMessages(c.messages.Items())
    && (c.Home().ThreadHome? ==> c.archived.Some?)
  }

  /** The loops that look for a message by ID. */
  method FindMessage(ms: seq<Message>, id: string) returns (i: nat)
    ensures i == IndexOf(Entries(ms), id)
  {
    i := 0;
    while i < |ms| && ms[i].id != id
      invariant i <= |ms| && forall j :: 0 <= j < i ==> ms[j].id != id
    {
      i := i + 1;
    }
  }

  /** The field-by-field merge of MessageAdd. */
  method MergeInto(m: Message, message: Message)
    modifies m`body
    ensures m.body == MergeBody(old(m.body), old(message.body))
  {
    var now := message.body;
    MergeText(m, now);
    if now.attachments.Slice? {
      m.body := m.body.(attachments := now.attachments);
    }
    if now.timestamp != 0 {
      m.body := m.body.(timestamp := now.timestamp);
    }
    if now.author.Some? {
      m.body := m.body.(author := now.author);
    }
    if now.components.Slice? {
      m.body := m.body.(components := now.components);
    }
  }

  /** The first half of that merge. */
  method MergeText(m: Message, now: MessageBody)
    modifies m`body
    ensures m.body == old(m.body).(
              content := if now.content != "" then now.content else old(m.body.content),
              edited := if now.edited.Some? then now.edited else old(m.body.edited),
              mentions := now.mentions.Or(old(m.body.mentions)),
              embeds := now.embeds.Or(old(m.body.embeds)))
  {
    if now.content != "" {
      m.body := m.body.(content := now.content);
    }
    if now.edited.Some? {
      m.body := m.body.(edited := now.edited);
    }
    if now.mentions.Slice? {
      m.body := m.body.(mentions := now.mentions);
    }
    if now.embeds.Slice? {
      m.body := m.body.(embeds := now.embeds);
    }
  }

  lemma SuffixEntries(ms: seq<Message>, cut: nat)
    requires cut <= |ms| && DistinctMessages(ms)
    ensures DistinctMessages(ms[cut..]) && Entries(ms[cut..]) == Entries(ms)[cut..]
  {
  }

  lemma OneMoreEntry(ms: seq<Message>, message: Message)
    requires DistinctMessages(ms) && forall m <- ms :: m.id != message.id
    ensures DistinctMessages(ms + [message]) && Entries(ms + [message]) == Entries(ms) + [EntryOf(message)]
  {
  }

  /** The part of MessageAdd that appends a message and trims the slice. */
  method AppendTo(c: Channel, message: Message, limit: nat)
    requires Settled(c) && message.channelID == c.id && forall m <- c.messages.Items() :: m.id != message.id
    modifies c`messages
    ensures Settled(c)
    ensures var q := old(Entries(c.messages.Items())) + [old(EntryOf(message))];
      Entries(c.messages.Items()) == if |q| > limit then q[|q| - limit..] else q
  {
    hide Entries, DistinctMessages;
    var ms := c.messages.Items() + [message];
    OneMoreEntry(c.messages.Items(), message);
    c.messages := Slice(ms);
    if |ms| > limit {
      var cut := |ms| - limit;
      SuffixEntries(ms, cut);
      c.messages := Slice(ms[cut..]);
    }
  }

  /** MessageAdd on its channel. */
  method PostTo(c: Channel, message: Message, limit: nat)
    requires Settled(c) && message.channelID == c.id
    modifies c`messages, c.messages.Items()`body
    ensures Settled(c)
    ensures Entries(c.messages.Items()) ==
              Post(old(Entries(c.messages.Items())), old(EntryOf(message)), limit)
  {
    hide Entries, IndexOf, MergeBody;
    var ms := c.messages.Items();
    ghost var q, e := Entries(ms), EntryOf(message);
    var i := FindMessage(ms, message.id);
    if i < |ms| {
      MergeInto(ms[i], message);
      assert Entries(ms) == q[i := q[i].(body := MergeBody(q[i].body, e.body))];
    } else {
      assert forall j :: 0 <= j < |ms| ==> q[j].id == ms[j].id;
      AppendTo(c, message, limit);
    }
  }

  /** messageRemoveByID on its channel. */
  method DeleteFrom(c: Channel, id: string) returns (st: Status)
    modifies c`messages
    ensures old(Settled(c)) ==> Settled(c)
    ensures Entries(c.messages.Items()) == Delete(old(Entries(c.messages.Items())), id)
    ensures st == if Has(old(Entries(c.messages.Items())), id) then Ok else NotFound
  {
    hide Entries, IndexOf;
    var ms := c.messages.Items();
    var i := FindMessage(ms, id);
    if i == |ms| {
      return NotFound;
    }
    assert Entries(Without(ms, i)) == Without(Entries(ms), i);
    c.messages := Slice(Without(ms, i));
    return Ok;
  }

  /** A known guild's own fields after an update; roles and member count survive a payload without them. */
  twostate predicate GuildUpdated(g: Guild, payload: Guild)
    reads g
  {
    && g.roles == old(payload.roles).Or(old(g.roles))
    && g.memberCount == (if old(payload.memberCount) == 0 then old(g.memberCount) else old(payload.memberCount))
    && g.ownerID == old(payload.ownerID) && g.name == old(payload.name)
  }

  /** A known member after an update; its join time survives a payload without one. */
  twostate predicate MemberUpdated(m: Member, payload: Member)
    reads m
  {
    && m.username == old(payload.username) && m.nick == old(payload.nick) && m.roles == old(payload.roles)
    && m.joinedAt == if old(payload.joinedAt) == 0 then old(m.joinedAt) else old(payload.joinedAt)
  }

  /** The payload is about the same channel, which has not moved. */
  predicate Fits(c: Channel, payload: Channel) {
    c.id == payload.id && c.Home() == payload.Home()
  }

  /** A known channel after an update: messages, overwrites and thread state survive a payload without them. */
  twostate predicate Updated(c: Channel, payload: Channel)
    reads c
  {
    && c.name == old(payload.name) && c.member == old(payload.member)
    && c.messages == old(payload.messages).Or(old(c.messages))
    && c.overwrites == old(payload.overwrites).Or(old(c.overwrites))
    && c.archived == if old(payload.archived) == None then old(c.archived) else old(payload.archived)
  }

  /** These channels have the last membership sent for them, or the one they had. */
  twostate predicate Marked(members: seq<(string, string)>, cs: set<Channel>)
    reads cs`member
  {
    forall c <- cs ::
      c.member == if LastMembership(members, c.id).Some? then LastMembership(members, c.id) else old(c.member)
  }

  class State {
    /** The fixed place of every channel ID. */
    ghost const homes: string -> Home

    var guilds: seq<Guild>
    var privateChannels: seq<Channel>
    var guildMap: map<string, Guild>
    var channelMap: map<string, Channel>
    var memberMap: map<string, map<string, Member>>
    var maxMessageCount: int

    /** The lists of every guild object in guildMap. */
    ghost function AllLists(): map<string, Lists>
      reads this`guildMap, guildMap.Values
    {
      map id | id in guildMap :: ListsOf(guildMap[id])
    }

    ghost function MemberAt(guildID: string, userID: string): set<Member>
      reads this`memberMap
    {
      if guildID in memberMap && userID in memberMap[guildID] then {memberMap[guildID][userID]} else {}
    }

    ghost function GuildAt(id: string): set<Guild>
      reads this`guildMap
    {
      if id in guildMap then {guildMap[id]} else {}
    }

    ghost function Snapshot(): Cache
      reads this, guildMap.Values
    {
      Cache(guilds, privateChannels, guildMap, channelMap, memberMap, AllLists())
    }

    ghost predicate Valid()
      reads this, guildMap.Values
    {
      Indexed(Snapshot(), homes)
    }

    // NewState
    constructor (ghost homes: string -> Home, maxMessageCount: int)
      ensures Valid() && Snapshot() == EMPTY
      ensures this.homes == homes && this.maxMessageCount == maxMessageCount
    {
      this.homes, this.maxMessageCount := homes, maxMessageCount;
      guilds, privateChannels := [], [];
      guildMap, channelMap, memberMap := map[], map[], map[];
    }

    /** When one guild object g changes its lists, only its own entry of the snapshot changes. */
    twostate lemma OneGuildChanged(g: Guild)
      requires old(forall id <- guildMap :: guildMap[id].id == id)
      requires old(guildMap) == guildMap && g.id in guildMap && guildMap[g.id] == g
      requires forall id <- guildMap :: guildMap[id] == g || unchanged(guildMap[id])
      ensures AllLists() == old(AllLists())[g.id := ListsOf(g)]
    {
      assert forall id <- guildMap :: guildMap[id].id == id;
    }

    method AddChannelsToMap(cs: seq<Channel>)
      modifies this`channelMap
      ensures channelMap == EnterChannels(old(channelMap), cs)
    {
      for i := 0 to |cs|
        invariant channelMap == EnterChannels(old(channelMap), cs[..i])
      {
        channelMap := channelMap[cs[i].id := cs[i]];
        assert cs[..i + 1][..i] == cs[..i];
      }
      assert cs == cs[..|cs|];
    }

    method CreateMemberMap(guild: Guild)
      modifies this`memberMap
      ensures memberMap == old(memberMap)[guild.id := MemberIndex(guild.members.Items())]
    {
      var members: map<string, Member> := map[];
      var ms := guild.members.Items();
      for i := 0 to |ms|
        invariant members == MemberIndex(ms[..i])
        invariant memberMap == old(memberMap)
      {
        members := members[ms[i].userID := ms[i]];
        assert ms[..i + 1][..i] == ms[..i];
      }
      assert ms == ms[..|ms|];
      memberMap := memberMap[guild.id := members];
    }

    /** The part of GuildAdd before the guild object itself is stored. */
    method EnterPayload(guild: Guild)
      modifies this`channelMap, this`memberMap
      ensures channelMap == ChannelMapWith(old(channelMap), PayloadOf(guild))
      ensures memberMap == MemberMapWith(old(memberMap), PayloadOf(guild))
    {
      AddChannelsToMap(guild.channels.Items());
      AddChannelsToMap(guild.threads.Items());
      if !guild.members.NilSlice? {
        CreateMemberMap(guild);
      } else if guild.id !in memberMap {
        memberMap := memberMap[guild.id := map[]];
      }
    }

    /** The part of GuildAdd that overwrites a known guild, keeping what the payload does not carry. */
    method MergeGuild(g: Guild, guild: Guild)
      requires g.id == guild.id
      modifies g, guild
      ensures ListsOf(g) == Merged(old(ListsOf(g)), old(PayloadOf(guild)))
      ensures GuildUpdated(g, guild)
    {
      if guild.memberCount == 0 {
        guild.memberCount := g.memberCount;
      }
      guild.roles := guild.roles.Or(g.roles);
      guild.members := guild.members.Or(g.members);
      guild.channels := guild.channels.Or(g.channels);
      guild.threads := guild.threads.Or(g.threads);
      g.Assign(guild);
    }

    /** The part of GuildAdd that overwrites a known guild object. */
    method UpdateGuild(g: Guild, guild: Guild)
      requires forall id <- guildMap :: guildMap[id].id == id
      requires guild.id in guildMap && guildMap[guild.id] == g
      modifies guild, g
      ensures AllLists() == old(AllLists())[guild.id := Merged(old(AllLists())[guild.id], old(PayloadOf(guild)))]
      ensures GuildUpdated(g, guild)
    {
      hide Merged, GuildUpdated;
      MergeGuild(g, guild);
      assert forall id <- guildMap :: id != guild.id ==> ListsOf(guildMap[id]) == old(ListsOf(guildMap[id]));
    }

    /** The part of GuildAdd that lists a new guild. */
    method ListGuild(guild: Guild)
      requires guild.id !in guildMap
      modifies this`guilds, this`guildMap
      ensures guildMap == old(guildMap)[guild.id := guild] && guilds == old(guilds) + [guild]
      ensures AllLists() == old(AllLists())[guild.id := Merged(Lists([], [], []), old(PayloadOf(guild)))]
    {
      hide ListsOf;
      guilds := guilds + [guild];
      guildMap := guildMap[guild.id := guild];
      NewLists(guild);
    }

    lemma NewLists(guild: Guild)
      ensures ListsOf(guild) == Merged(Lists([], [], []), PayloadOf(guild))
    {
    }

    method StoreGuild(guild: Guild)
      requires forall id <- guildMap :: guildMap[id].id == id
      modifies this`guilds, this`guildMap, guild, GuildAt(guild.id)
      ensures guildMap == if guild.id in old(guildMap) then old(guildMap) else old(guildMap)[guild.id := guild]
      ensures guilds == if guild.id in old(guildMap) then old(guilds) else old(guilds) + [guild]
      ensures AllLists() == old(AllLists())[guild.id :=
                Merged(if guild.id in old(guildMap) then old(AllLists())[guild.id] else Lists([], [], []),
                       old(PayloadOf(guild)))]
      ensures guild.id in old(guildMap) ==> GuildUpdated(old(guildMap)[guild.id], guild)
    {
      hide Merged, GuildUpdated, ListsOf;
      if guild.id in guildMap {
        UpdateGuild(guildMap[guild.id], guild);
      } else {
        ListGuild(guild);
      }
    }

    method PutGuild(guild: Guild)
      requires forall id <- guildMap :: guildMap[id].id == id
      modifies this`guilds, this`guildMap, this`channelMap, this`memberMap, guild, GuildAt(guild.id)
      ensures Snapshot() == AddGuild(old(Snapshot()), guild, old(PayloadOf(guild)))
      ensures guild.id in old(guildMap) ==> GuildUpdated(old(guildMap)[guild.id], guild)
    {
      ghost var before, p := Snapshot(), PayloadOf(guild);
      hide ChannelMapWith, MemberMapWith, Merged;
      EnterPayload(guild);
      assert AllLists() == before.lists && PayloadOf(guild) == p;
      StoreGuild(guild);
    }

    /** The lists of this guild, which need not be known. */
    ghost function ListsHeld(id: string): Lists
      reads this`guildMap, GuildAt(id)
    {
      if id in guildMap then ListsOf(guildMap[id]) else Lists([], [], [])
    }

    lemma SnapshotHolds()
      ensures Snapshot().guilds == guilds && Snapshot().guildMap == guildMap
      ensures Snapshot().lists.Keys == guildMap.Keys
      ensures forall id :: ListsHeld(id) == if id in guildMap then Snapshot().lists[id] else Lists([], [], [])
    {
    }

    /** GuildAdd as a step of the model. */
    method StepGuildAdd(guild: Guild)
      requires Valid() && WellFormed(PayloadOf(guild), homes)
      modifies this`guilds, this`guildMap, this`channelMap, this`memberMap, guild, GuildAt(guild.id)
      ensures Valid()
      ensures Snapshot() == AddGuild(old(Snapshot()), guild, old(PayloadOf(guild)))
      ensures guild.id in old(guildMap) ==> GuildUpdated(old(guildMap)[guild.id], guild)
    {
      AddGuildKeepsIndexed(Snapshot(), guild, PayloadOf(guild), homes);
      assert forall id <- guildMap :: guildMap[id].id == id;
      hide Indexed, WellFormed, AddGuild;
      PutGuild(guild);
    }

    // GuildAdd; a list the payload carries replaces the guild's, one it does not carry stays
    method GuildAdd(guild: Guild)
      requires Valid() && WellFormed(PayloadOf(guild), homes)
      modifies this`guilds, this`guildMap, this`channelMap, this`memberMap, guild, GuildAt(guild.id)
      ensures Valid()
      ensures Snapshot() == AddGuild(old(Snapshot()), guild, old(PayloadOf(guild)))
      ensures guild.id in old(guildMap) ==>
                var g := old(guildMap)[guild.id];
                && g.roles == old(if guild.roles.Slice? then guild.roles else g.roles)
                && g.memberCount == old(if guild.memberCount != 0 then guild.memberCount else g.memberCount)
                && g.ownerID == old(guild.ownerID) && g.name == old(guild.name)
      ensures guild.id in old(guildMap) ==> guildMap == old(guildMap) && guilds == old(guilds)
      ensures guild.id !in old(guildMap) ==>
                guildMap == old(guildMap)[guild.id := guild] && guilds == old(guilds) + [guild]
      ensures ListsHeld(guild.id).channels ==
              old(if guild.channels.Slice? then guild.channels.elems else ListsHeld(guild.id).channels)
      ensures ListsHeld(guild.id).threads ==
              old(if guild.threads.Slice? then guild.threads.elems else ListsHeld(guild.id).threads)
      ensures ListsHeld(guild.id).members ==
              old(if guild.members.Slice? then guild.members.elems else ListsHeld(guild.id).members)
      ensures forall id :: id != guild.id ==> ListsHeld(id) == old(ListsHeld(id))
    {
      ListsAhead(guild);
      hide Valid, Snapshot, AddGuild, ListsHeld, WellFormed, PayloadOf;
      StepGuildAdd(guild);
      SnapshotHolds();
    }

    /** The lists the model's step leads to. */
    lemma ListsAhead(guild: Guild)
      requires Valid()
      ensures var r := AddGuild(Snapshot(), guild, PayloadOf(guild));
        && r.guilds == (if guild.id in guildMap then guilds else guilds + [guild])
        && r.guildMap == (if guild.id in guildMap then guildMap else guildMap[guild.id := guild])
        && r.lists.Keys == r.guildMap.Keys
        && forall id <- r.lists :: r.lists[id] ==
             if id == guild.id then
               Lists(if guild.channels.Slice? then guild.channels.elems else ListsHeld(id).channels,
                     if guild.threads.Slice? then guild.threads.elems else ListsHeld(id).threads,
                     if guild.members.Slice? then guild.members.elems else ListsHeld(id).members)
             else ListsHeld(id)
    {
      assert GuildsIndexed(Snapshot());
      SnapshotHolds();
      hide AddGuild, ListsOf, Indexed, AllLists, ListsHeld, Snapshot, GuildsIndexed, Valid;
      var r := AddGuild(Snapshot(), guild, PayloadOf(guild));
      AddGuildContents(Snapshot(), guild, PayloadOf(guild));
      forall id | id in r.lists && id != guild.id
        ensures r.lists[id] == ListsHeld(id)
      {
        assert id in Snapshot().lists;
      }
    }

    /** The part of GuildRemove after the guild was found. */
    method DropGuild(guildID: string)
      requires guildID in guildMap
      modifies this`guilds, this`guildMap
      ensures Snapshot() == RemoveGuild(old(Snapshot()), guildID)
    {
      guildMap := guildMap - {guildID};
      var found;
      guilds, found := DeleteFirst(guilds, GuildNamed(guildID));
      assert AllLists() == old(AllLists()) - {guildID};
    }

    method GuildRemove(guildID: string) returns (st: Status)
      requires Valid()
      modifies this`guilds, this`guildMap
      ensures Valid()
      ensures st == if guildID in old(guildMap) then Ok else NotFound
      ensures Snapshot() == RemoveGuild(old(Snapshot()), guildID)
    {
      RemoveGuildKeeps(Snapshot(), guildID, homes);
      if guildID !in guildMap {
        return NotFound;
      }
      hide Indexed, RemoveGuild;
      DropGuild(guildID);
      return Ok;
    }

    method GuildByID(guildID: string) returns (g: Option<Guild>)
      ensures g == if guildID in guildMap then Some(guildMap[guildID]) else None
    {
      return if guildID in guildMap then Some(guildMap[guildID]) else None;
    }

    method ChannelByID(channelID: string) returns (c: Option<Channel>)
      ensures c == if channelID in channelMap then Some(channelMap[channelID]) else None
    {
      return if channelID in channelMap then Some(channelMap[channelID]) else None;
    }

    /** Member() through the index gives what a scan of the guild's list would give. */
    method MemberByID(guildID: string, userID: string) returns (m: Option<Member>)
      requires Valid() && MembersIndexed(Snapshot())
      ensures guildID in guildMap ==>
                match m
                case None => forall x <- guildMap[guildID].members.Items() :: x.userID != userID
                case Some(x) => x in guildMap[guildID].members.Items() && x.userID == userID
      ensures guildID !in memberMap ==> m == None
    {
      ghost var s := Snapshot();
      if guildID in guildMap {
        assert s.lists[guildID] == ListsOf(guildMap[guildID]);
        MemberLookupIsScan(s, guildID, userID);
      }
      if guildID !in memberMap {
        return None;
      }
      return if userID in memberMap[guildID] then Some(memberMap[guildID][userID]) else None;
    }

    /** The part of memberAdd that lists a member not seen before. */
    method ListMember(guild: Guild, member: Member)
      requires forall id <- guildMap :: guildMap[id].id == id
      requires guild.id == member.guildID && guild.id in guildMap && guildMap[guild.id] == guild
      requires guild.id in memberMap && member.userID !in memberMap[guild.id]
      modifies this`memberMap, guild`members
      ensures Snapshot() == AddMember(old(Snapshot()), member)
    {
      memberMap := memberMap[member.guildID := memberMap[member.guildID][member.userID := member]];
      guild.members := guild.members.Append(member);
      OneGuildChanged(guild);
    }

    /** The part of memberAdd that overwrites a known member, keeping its join time when the payload has none. */
    method OverwriteMember(m: Member, member: Member)
      requires m.guildID == member.guildID && m.userID == member.userID
      modifies m, member
      ensures MemberUpdated(m, member)
    {
      if member.joinedAt == 0 {
        member.joinedAt := m.joinedAt;
      }
      m.Assign(member);
    }

    /** memberAdd on a cache whose entries sit under their own IDs. */
    method PutMember(member: Member)
      requires forall id <- guildMap :: guildMap[id].id == id
      requires member.guildID in guildMap && member.guildID in memberMap
      requires Keyed(memberMap[member.guildID], member.guildID)
      modifies this`memberMap, member, GuildAt(member.guildID)`members, MemberAt(member.guildID, member.userID)
      ensures Snapshot() == AddMember(old(Snapshot()), member)
      ensures member.userID in old(memberMap)[member.guildID] ==>
                MemberUpdated(old(memberMap)[member.guildID][member.userID], member)
    {
      hide AddMember;
      if member.userID !in memberMap[member.guildID] {
        ListMember(guildMap[member.guildID], member);
      } else {
        KnownMember(Snapshot(), member);
        OverwriteMember(memberMap[member.guildID][member.userID], member);
      }
    }

    // memberAdd; an indexed cache has a memberMap entry for every guild in guildMap
    method MemberAdd(member: Member) returns (st: Status)
      requires Valid()
      modifies this`memberMap, member, GuildAt(member.guildID)`members, MemberAt(member.guildID, member.userID)
      ensures Valid()
      ensures st == if member.guildID in old(guildMap) then Ok else NotFound
      ensures Snapshot() == AddMember(old(Snapshot()), member)
      ensures st == NotFound ==> forall m <- old(MemberAt(member.guildID, member.userID)) :: unchanged(m)
      ensures st == Ok && member.guildID in old(memberMap) && member.userID in old(memberMap)[member.guildID] ==>
                var m := old(memberMap)[member.guildID][member.userID];
                && m.joinedAt == old(if member.joinedAt != 0 then member.joinedAt else m.joinedAt)
                && m.username == old(member.username) && m.nick == old(member.nick) && m.roles == old(member.roles)
    {
      AddMemberKeepsIndexed(Snapshot(), member, homes);
      if member.guildID !in guildMap {
        return NotFound;
      }
      assert forall id <- guildMap :: guildMap[id].id == id;
      assert Keyed(memberMap[member.guildID], member.guildID);
      hide Indexed, AddMember, Keyed;
      PutMember(member);
      return Ok;
    }

    /** The part of MemberRemove after the member was found in the index. */
    method DropMember(guild: Guild, userID: string) returns (st: Status)
      requires forall id <- guildMap :: guildMap[id].id == id
      requires guild.id in guildMap && guildMap[guild.id] == guild
      requires guild.id in memberMap && userID in memberMap[guild.id]
      modifies this`memberMap, guild`members
      ensures Snapshot() == RemoveMember(old(Snapshot()), guild.id, userID)
      ensures st == Ok <==> exists m <- old(guild.members.Items()) :: MemberNamed(userID)(m)
    {
      memberMap := memberMap[guild.id := memberMap[guild.id] - {userID}];
      var left, found := DeleteFirst(guild.members.Items(), MemberNamed(userID));
      guild.members := Slice(left);
      OneGuildChanged(guild);
      return if found then Ok else NotFound;
    }

    method MemberRemove(guildID: string, userID: string) returns (st: Status)
      requires Valid()
      modifies this`memberMap, GuildAt(guildID)`members
      ensures Valid()
      ensures Snapshot() == RemoveMember(old(Snapshot()), guildID, userID)
      ensures old(MembersIndexed(Snapshot())) ==>
                (st == Ok <==> guildID in old(guildMap) && userID in old(memberMap)[guildID])
    {
      RemoveMemberKeepsIndexed(Snapshot(), guildID, userID, homes);
      if guildID !in guildMap {
        return NotFound;
      }
      assert forall id <- guildMap :: guildMap[id].id == id;
      if userID !in memberMap[guildID] {
        return NotFound;
      }
      if MembersIndexed(Snapshot()) {
        MemberLookupIsScan(Snapshot(), guildID, userID);
      }
      hide Indexed, RemoveMember, MembersIndexed;
      st := DropMember(guildMap[guildID], userID);
    }

    ghost function ChannelAt(id: string): set<Channel>
      reads this`channelMap
    {
      if id in channelMap then {channelMap[id]} else {}
    }

    ghost function MessagesAt(id: string): seq<Message>
      reads this`channelMap, ChannelAt(id)`messages
    {
      if id in channelMap then channelMap[id].messages.Items() else []
    }

    ghost function QueueAt(id: string): seq<Entry>
      reads this`channelMap, ChannelAt(id)`messages, MessagesAt(id)`body
    {
      Entries(MessagesAt(id))
    }

    ghost predicate AllSettled()
      reads this`channelMap, channelMap.Values`messages, channelMap.Values`archived
    {
      forall id <- channelMap :: Settled(channelMap[id])
    }

    /** The part of ChannelAdd that overwrites a known channel, keeping what the payload does not carry. */
    method OverwriteChannel(c: Channel, channel: Channel)
      requires Fits(c, channel)
      modifies c, channel
      ensures Updated(c, channel)
    {
      channel.messages := channel.messages.Or(c.messages);
      channel.overwrites := channel.overwrites.Or(c.overwrites);
      if channel.archived == None {
        channel.archived := c.archived;
      }
      c.Assign(channel);
    }

    /** The part of ChannelAdd that lists a guild channel or thread not seen before. */
    method ListChannel(guild: Guild, channel: Channel)
      requires forall id <- guildMap :: guildMap[id].id == id
      requires guild.id == channel.guildID && guild.id in guildMap && guildMap[guild.id] == guild
      requires channel.id !in channelMap && channel.Home() != PrivateHome
      modifies this`channelMap, guild`channels, guild`threads
      ensures Snapshot() == AddChannel(old(Snapshot()), channel)
    {
      if IsThreadKind(channel.kind) {
        guild.threads := guild.threads.Append(channel);
      } else {
        guild.channels := guild.channels.Append(channel);
      }
      OneGuildChanged(guild);
      channelMap := channelMap[channel.id := channel];
    }

    /** The part of ChannelAdd that lists a private channel not seen before. */
    method ListPrivate(channel: Channel)
      requires channel.id !in channelMap && channel.Home() == PrivateHome
      modifies this`privateChannels, this`channelMap
      ensures Snapshot() == AddChannel(old(Snapshot()), channel)
    {
      privateChannels := privateChannels + [channel];
      channelMap := channelMap[channel.id := channel];
    }

    /** A channel without a guild to file it under is not added, and a known one changes no list. */
    lemma ChannelNotListed(channel: Channel)
      requires channel.id in channelMap || (channel.Home() != PrivateHome && channel.guildID !in guildMap)
      ensures AddChannel(Snapshot(), channel) == Snapshot()
    {
    }

    /** ChannelAdd on a cache whose entries sit under their own IDs. */
    method PutChannel(channel: Channel) returns (st: Status)
      requires forall id <- guildMap :: guildMap[id].id == id
      requires channel.id in channelMap ==> Fits(channelMap[channel.id], channel)
      modifies this`privateChannels, this`channelMap, channel
      modifies GuildAt(channel.guildID)`channels, GuildAt(channel.guildID)`threads
      modifies ChannelAt(channel.id)
      ensures Snapshot() == AddChannel(old(Snapshot()), channel)
      ensures channel.id in old(channelMap) ==> Updated(old(channelMap)[channel.id], channel)
      ensures channel.id in old(channelMap) ==> channelMap == old(channelMap)
      ensures channel.id !in old(channelMap) ==> unchanged(channel)
      ensures st == NotFound <==>
                channel.id !in old(channelMap) && channel.Home() != PrivateHome && channel.guildID !in old(guildMap)
    {
      if channel.id in channelMap {
        ChannelNotListed(channel);
        hide AddChannel;
        OverwriteChannel(channelMap[channel.id], channel);
        return Ok;
      }
      if IsPrivateKind(channel.kind) {
        hide AddChannel;
        ListPrivate(channel);
        return Ok;
      }
      if channel.guildID !in guildMap {
        ChannelNotListed(channel);
        return NotFound;
      }
      hide AddChannel;
      ListChannel(guildMap[channel.guildID], channel);
      return Ok;
    }

    /** ChannelAdd as a step of the model. */
    method StepChannelAdd(channel: Channel) returns (st: Status)
      requires Valid() && channel.Home() == homes(channel.id)
      modifies this`privateChannels, this`channelMap, channel
      modifies GuildAt(channel.guildID)`channels, GuildAt(channel.guildID)`threads
      modifies ChannelAt(channel.id)
      ensures Valid()
      ensures Snapshot() == AddChannel(old(Snapshot()), channel)
      ensures channel.id in old(channelMap) ==> Updated(old(channelMap)[channel.id], channel)
      ensures channel.id in old(channelMap) ==> channelMap == old(channelMap)
      ensures channel.id !in old(channelMap) ==> unchanged(channel)
      ensures st == NotFound <==>
                channel.id !in old(channelMap) && channel.Home() != PrivateHome && channel.guildID !in old(guildMap)
    {
      AddChannelKeepsIndexed(Snapshot(), channel, homes);
      assert forall id <- guildMap :: guildMap[id].id == id;
      assert AtHome(channelMap, homes);
      hide Indexed, AddChannel;
      st := PutChannel(channel);
    }

    method ChannelAdd(channel: Channel) returns (st: Status)
      requires Valid() && channel.Home() == homes(channel.id)
      modifies this`privateChannels, this`channelMap, channel
      modifies GuildAt(channel.guildID)`channels, GuildAt(channel.guildID)`threads
      modifies ChannelAt(channel.id)
      ensures Valid()
      ensures Snapshot() == AddChannel(old(Snapshot()), channel)
      ensures channel.id in old(channelMap) ==>
                var c := old(channelMap)[channel.id];
                && c.messages == old(if channel.messages.Slice? then channel.messages else c.messages)
                && c.overwrites == old(if channel.overwrites.Slice? then channel.overwrites else c.overwrites)
                && c.archived == old(if channel.archived.Some? then channel.archived else c.archived)
                && c.name == old(channel.name) && c.member == old(channel.member)
      ensures channel.id !in old(channelMap) ==> unchanged(channel)
      ensures channel.id in old(channelMap) && old(channel.messages) == NilSlice ==>
                QueueAt(channel.id) == old(QueueAt(channel.id))
      ensures st == NotFound <==>
                channel.id !in old(channelMap) && channel.Home() != PrivateHome && channel.guildID !in old(guildMap)
    {
      hide Valid, Snapshot, AddChannel, Entries;
      st := StepChannelAdd(channel);
    }

    /** The deletion loop of ChannelRemove, on the list the channel's kind names. */
    method Unlist(guild: Guild, channel: Channel)
      modifies guild`channels, guild`threads
      ensures ListsOf(guild) == var l := old(ListsOf(guild));
        if IsThreadKind(channel.kind)
        then l.(threads := RemoveFirst(l.threads, ChannelNamed(channel.id)))
        else l.(channels := RemoveFirst(l.channels, ChannelNamed(channel.id)))
    {
      var left, found;
      if IsThreadKind(channel.kind) {
        left, found := DeleteFirst(guild.threads.Items(), ChannelNamed(channel.id));
        guild.threads := Slice(left);
      } else {
        left, found := DeleteFirst(guild.channels.Items(), ChannelNamed(channel.id));
        guild.channels := Slice(left);
      }
    }

    /** The part of ChannelRemove that unlists a guild channel or thread. */
    method DropChannel(guild: Guild, channel: Channel)
      requires forall id <- guildMap :: guildMap[id].id == id
      requires guild.id == channel.guildID && guild.id in guildMap && guildMap[guild.id] == guild
      requires channel.id in channelMap && channel.Home() != PrivateHome
      modifies this`channelMap, guild`channels, guild`threads
      ensures Snapshot() == RemoveChannel(old(Snapshot()), channel.id, channel.Home())
    {
      hide RemoveFirst, ListsOf;
      Unlist(guild, channel);
      OneGuildChanged(guild);
      channelMap := channelMap - {channel.id};
    }

    /** The part of ChannelRemove that unlists a private channel. */
    method DropPrivate(channel: Channel)
      requires channel.id in channelMap && channel.Home() == PrivateHome
      modifies this`privateChannels, this`channelMap
      ensures Snapshot() == RemoveChannel(old(Snapshot()), channel.id, channel.Home())
    {
      var found;
      privateChannels, found := DeleteFirst(privateChannels, ChannelNamed(channel.id));
      channelMap := channelMap - {channel.id};
    }

    lemma ChannelNotDropped(channel: Channel)
      requires channel.id !in channelMap || (channel.Home() != PrivateHome && channel.guildID !in guildMap)
      ensures RemoveChannel(Snapshot(), channel.id, channel.Home()) == Snapshot()
    {
    }

    method ChannelRemove(channel: Channel) returns (st: Status)
      requires Valid() && channel.Home() == homes(channel.id)
      modifies this`privateChannels, this`channelMap
      modifies GuildAt(channel.guildID)`channels, GuildAt(channel.guildID)`threads
      ensures Valid()
      ensures Snapshot() == RemoveChannel(old(Snapshot()), channel.id, channel.Home())
      ensures st == Ok <==>
                channel.id in old(channelMap) && (channel.Home() == PrivateHome || channel.guildID in old(guildMap))
    {
      RemoveChannelKeepsIndexed(Snapshot(), channel.id, homes);
      assert forall id <- guildMap :: guildMap[id].id == id;
      if channel.id !in channelMap {
        ChannelNotDropped(channel);
        return NotFound;
      }
      if IsPrivateKind(channel.kind) {
        hide Indexed, RemoveChannel;
        DropPrivate(channel);
        return Ok;
      }
      if channel.guildID !in guildMap {
        ChannelNotDropped(channel);
        return NotFound;
      }
      hide Indexed, RemoveChannel;
      DropChannel(guildMap[channel.guildID], channel);
      return Ok;
    }

    /** The filtering part of ThreadListSync. */
    method FilterThreads(guild: Guild, parents: Slice<string>)
      requires forall t <- guild.threads.Items() :: t.archived.Some?
      modifies this`channelMap, guild`threads
      ensures guild.threads.Items() == Kept(old(guild.threads.Items()), parents, old(ArchivedIn(guild.threads.Items())))
      ensures channelMap == old(channelMap) -
                DroppedIDs(old(guild.threads.Items()), parents, old(ArchivedIn(guild.threads.Items())))
    {
      var ts := guild.threads.Items();
      var threads := new Channel[|ts|](i requires 0 <= i < |ts| => ts[i]);
      assert threads[..] == ts;
      hide Kept, DroppedIDs, ArchivedIn;
      var kept;
      kept, channelMap := CompactThreads(threads, channelMap, parents);
      if guild.threads.Slice? {
        guild.threads := Slice(threads[..kept]);
      }
    }

    /** The part of ThreadListSync that adds the synced threads. */
    method AppendThreads(guild: Guild, synced: seq<Channel>)
      modifies this`channelMap, guild`threads
      ensures channelMap == EnterChannels(old(channelMap), synced)
      ensures guild.threads.Items() == old(guild.threads.Items()) + synced
    {
      for i := 0 to |synced|
        invariant channelMap == EnterChannels(old(channelMap), synced[..i])
        invariant guild.threads.Items() == old(guild.threads.Items()) + synced[..i]
      {
        assert synced[..i + 1][..i] == synced[..i];
        channelMap := channelMap[synced[i].id := synced[i]];
        guild.threads := guild.threads.Append(synced[i]);
      }
      assert synced[..|synced|] == synced;
    }

    /** The part of ThreadListSync that changes the lists and the map. */
    method SyncLists(guild: Guild, parents: Slice<string>, synced: seq<Channel>)
      requires forall id <- guildMap :: guildMap[id].id == id
      requires guild.id in guildMap && guildMap[guild.id] == guild
      requires forall t <- guild.threads.Items() :: t.archived.Some?
      modifies this`channelMap, guild`threads
      ensures Snapshot() ==
                SyncThreads(old(Snapshot()), guild.id, parents, synced, old(ArchivedIn(guild.threads.Items())))
    {
      hide Kept, DroppedIDs, ArchivedIn;
      FilterThreads(guild, parents);
      AppendThreads(guild, synced);
      OneGuildChanged(guild);
    }

    /** The part of ThreadListSync that records the current user's thread memberships; the last one sent wins. */
    method SetThreadMembers(members: seq<(string, string)>)
      requires forall id <- channelMap :: channelMap[id].id == id
      modifies channelMap.Values`member
      ensures Marked(members, channelMap.Values)
    {
      for i := 0 to |members|
        invariant forall id <- channelMap :: channelMap[id].member ==
                    if LastMembership(members[..i], id).Some? then LastMembership(members[..i], id)
                    else old(channelMap[id].member)
      {
        var (threadID, member) := members[i];
        assert members[..i + 1][..i] == members[..i];
        if threadID in channelMap {
          channelMap[threadID].member := Some(member);
        }
      }
      assert members[..|members|] == members;
    }

    /** ThreadListSync on a known guild, up to the membership loop. */
    method SyncKnownGuild(guild: Guild, parents: Slice<string>, synced: seq<Channel>)
      requires Valid() && SyncPayload(guild.id, parents, synced, homes)
      requires guild.id in guildMap && guildMap[guild.id] == guild
      requires forall t <- guild.threads.Items() :: t.archived.Some?
      modifies this`channelMap, guild`threads
      ensures Valid()
      ensures Snapshot() ==
                SyncThreads(old(Snapshot()), guild.id, parents, synced, old(ArchivedIn(guild.threads.Items())))
      ensures forall id <- channelMap :: channelMap[id].id == id
      ensures channelMap.Values <= old(channelMap).Values + ChannelSet(synced)
    {
      ghost var archived := ArchivedIn(guild.threads.Items());
      assert forall id <- guildMap :: guildMap[id].id == id;
      SyncKeepsIndexed(Snapshot(), guild.id, parents, synced, archived, homes);
      SyncOwners(Snapshot(), guild.id, parents, synced, archived, homes);
      hide Indexed, SyncThreads, SyncPayload, ArchivedIn;
      SyncLists(guild, parents, synced);
    }

    /** ThreadListSync on a known guild. */
    method SyncAndMark(guild: Guild, parents: Slice<string>, synced: seq<Channel>, members: seq<(string, string)>)
      requires Valid() && SyncPayload(guild.id, parents, synced, homes)
      requires guild.id in guildMap && guildMap[guild.id] == guild
      requires forall t <- guild.threads.Items() :: t.archived.Some?
      modifies this`channelMap, guild`threads, channelMap.Values`member, ChannelSet(synced)`member
      ensures Valid()
      ensures Snapshot() ==
                SyncThreads(old(Snapshot()), guild.id, parents, synced, old(ArchivedIn(guild.threads.Items())))
      ensures channelMap.Values <= old(channelMap).Values + ChannelSet(synced)
      ensures Marked(members, channelMap.Values)
    {
      hide Indexed, SyncThreads, SyncPayload, ArchivedIn, LastMembership;
      SyncKnownGuild(guild, parents, synced);
      label synced:
      assert forall c <- channelMap.Values :: c in old(channelMap).Values + ChannelSet(synced);
      SetThreadMembers(members);
      assert Marked@synced(members, channelMap.Values);
    }

    method ThreadListSync(guildID: string, parents: Slice<string>, synced: seq<Channel>, members: seq<(string, string)>)
      returns (st: Status)
      requires Valid() && SyncPayload(guildID, parents, synced, homes)
      requires guildID in guildMap ==> forall t <- guildMap[guildID].threads.Items() :: t.archived.Some?
      modifies this`channelMap, GuildAt(guildID)`threads
      modifies channelMap.Values`member, ChannelSet(synced)`member
      ensures Valid()
      ensures st == if guildID in old(guildMap) then Ok else NotFound
      ensures guildID in old(guildMap) ==>
                Snapshot() == SyncThreads(old(Snapshot()), guildID, parents, synced,
                                          old(ArchivedIn(guildMap[guildID].threads.Items())))
      ensures guildID !in old(guildMap) ==> Snapshot() == old(Snapshot())
      ensures channelMap.Values <= old(channelMap).Values + ChannelSet(synced)
      ensures guildID in old(guildMap) ==> Marked(members, channelMap.Values)
    {
      if guildID !in guildMap {
        return NotFound;
      }
      assert guildMap[guildID].id == guildID;
      hide *;
      SyncAndMark(guildMap[guildID], parents, synced, members);
      return Ok;
    }

    /** ThreadListSync leaves the unarchived threads whose parent is not listed, and behind them the synced ones. */
    lemma SyncLeaves(guildID: string, parents: Slice<string>, synced: seq<Channel>)
      requires guildID in guildMap && forall t <- guildMap[guildID].threads.Items() :: t.archived.Some?
      ensures var was := guildMap[guildID].threads.Items();
        var l := SyncThreads(Snapshot(), guildID, parents, synced, ArchivedIn(was)).lists;
        && guildID in l
        && var n := |l[guildID].threads| - |synced|;
          && n >= 0 && l[guildID].threads[n..] == synced
          && (forall t <- l[guildID].threads[..n] ::
            t in was && t.archived == Some(false) && parents.Slice? && t.parentID !in parents.elems)
          && (forall t <- was ::
            t.archived == Some(false) && parents.Slice? && t.parentID !in parents.elems ==>
              t in l[guildID].threads[..n])
    {
      var was := guildMap[guildID].threads.Items();
      assert Snapshot().lists[guildID] == ListsOf(guildMap[guildID]);
      var kept := Kept(was, parents, ArchivedIn(was));
      KeptElements(was, parents, ArchivedIn(was));
      var ts := SyncThreads(Snapshot(), guildID, parents, synced, ArchivedIn(was)).lists[guildID].threads;
      assert ts == kept + synced && ts[..|kept|] == kept;
      forall t | t in kept
        ensures t.archived == Some(false)
      {
        assert t !in ArchivedIn(was) && !t.archived.value;
      }
    }

    /** One round of onReady's guild loop. */
    method EnterReadyGuild(g: Guild)
      requires forall id <- guildMap :: guildMap[id].id == id
      requires g.threads.Items() == []
      modifies this`guildMap, this`memberMap, this`channelMap
      ensures Snapshot() == EnterGuild(old(Snapshot()), ReadyGuildOf(g))
      ensures forall id <- guildMap :: guildMap[id].id == id
    {
      guildMap := guildMap[g.id := g];
      CreateMemberMap(g);
      AddChannelsToMap(g.channels.Items());
      assert AllLists() == old(AllLists())[g.id := ListsOf(g)];
    }

    method EnterReadyGuilds(gs: seq<Guild>)
      requires forall id <- guildMap :: guildMap[id].id == id
      requires forall g <- gs :: g.threads.Items() == []
      modifies this`guildMap, this`memberMap, this`channelMap
      ensures Snapshot() == EnterGuilds(old(Snapshot()), ReadyOf(gs))
    {
      ghost var rs := ReadyOf(gs);
      ReadyOfElements(gs);
      hide EnterGuild, ReadyOf, Snapshot;
      for i := 0 to |gs|
        invariant forall id <- guildMap :: guildMap[id].id == id
        invariant Snapshot() == EnterGuilds(old(Snapshot()), rs[..i])
      {
        assert rs[i] == ReadyGuildOf(gs[i]) && gs[i] in gs;
        EnterReadyGuild(gs[i]);
        assert rs[..i + 1] == rs[..i] + [rs[i]];
        EnterGuildsNext(old(Snapshot()), rs[..i], rs[i]);
        hide EnterGuilds;
      }
      assert rs[..|gs|] == rs;
    }

    /** The end of onReady: both lists replaced, the private channels entered. */
    method ReplaceLists(gs: seq<Guild>, privates: seq<Channel>)
      modifies this`guilds, this`privateChannels, this`channelMap
      ensures Snapshot() == old(Snapshot()).(
                guilds := gs, privates := privates, channelMap := EnterChannels(old(Snapshot()).channelMap, privates))
    {
      hide ListsOf, EnterChannels;
      guilds, privateChannels := gs, privates;
      AddChannelsToMap(privates);
    }

    /** onReady with state tracking on. */
    method PutReady(gs: seq<Guild>, privates: seq<Channel>)
      requires forall id <- guildMap :: guildMap[id].id == id
      requires forall g <- gs :: g.threads.Items() == []
      modifies this`guilds, this`privateChannels, this`guildMap, this`memberMap, this`channelMap
      ensures Snapshot() == Ready(old(Snapshot()), ReadyOf(gs), privates)
    {
      hide EnterGuilds, ReadyOf, GuildsOf, ListsOf, Snapshot;
      ReadyOfGuilds(gs);
      EnterReadyGuilds(gs);
      ReplaceLists(gs, privates);
    }

    method TrackReady(gs: seq<Guild>, privates: seq<Channel>)
      requires Valid()
      requires ReadyPayload(ReadyOf(gs), privates, homes) && forall g <- gs :: g.threads.Items() == []
      modifies this`guilds, this`privateChannels, this`guildMap, this`memberMap, this`channelMap
      ensures Valid() && Snapshot() == Ready(old(Snapshot()), ReadyOf(gs), privates)
    {
      ReadyKeeps(Snapshot(), ReadyOf(gs), privates, homes);
      assert forall id <- guildMap :: guildMap[id].id == id;
      hide Indexed, ReadyPayload, Ready, ReadyOf;
      PutReady(gs, privates);
    }

    method ForgetLists()
      requires Valid()
      modifies this`guilds, this`privateChannels
      ensures Valid() && Snapshot() == Cleared(old(Snapshot()))
    {
      ClearedKeeps(Snapshot(), homes);
      hide Indexed, ListsOf;
      guilds, privateChannels := [], [];
    }

    // onReady; with state tracking off only the session's own data is kept and both lists become nil
    method OnReady(stateEnabled: bool, gs: seq<Guild>, privates: seq<Channel>)
      requires Valid()
      requires ReadyPayload(ReadyOf(gs), privates, homes) && forall g <- gs :: g.threads.Items() == []
      modifies this`guilds, this`privateChannels, this`guildMap, this`memberMap, this`channelMap
      ensures Valid()
      ensures Snapshot() ==
                if stateEnabled then Ready(old(Snapshot()), ReadyOf(gs), privates) else Cleared(old(Snapshot()))
    {
      hide Indexed, ReadyPayload, Ready, ReadyOf;
      if stateEnabled {
        TrackReady(gs, privates);
      } else {
        ForgetLists();
      }
    }

    lemma OwnID(id: string)
      requires Valid() && id in channelMap
      ensures channelMap[id].id == id
      ensures AllSettled() ==> Settled(channelMap[id])
    {
    }

    /** Two channels are different objects and share no message. */
    lemma OwnMessages(id: string, other: string)
      requires Valid() && AllSettled() && id in channelMap && other in channelMap && id != other
      ensures channelMap[id] != channelMap[other]
      ensures forall m <- MessagesAt(id) :: m !in MessagesAt(other)
    {
      assert channelMap[id].id == id && channelMap[other].id == other;
      assert Settled(channelMap[id]) && Settled(channelMap[other]);
    }

    twostate lemma QueueKept(id: string)
      requires channelMap == old(channelMap) && MessagesAt(id) == old(MessagesAt(id))
      requires forall m <- MessagesAt(id) :: m.body == old(m.body)
      ensures QueueAt(id) == old(QueueAt(id))
    {
    }

    /** When only the messages of c change and it stays settled, all channels stay settled. */
    twostate lemma OneSettled(c: Channel)
      requires old(AllSettled()) && channelMap == old(channelMap) && Settled(c)
      requires forall id <- channelMap ::
        var x := channelMap[id]; x == c || (x.messages == old(x.messages) && x.archived == old(x.archived))
      ensures AllSettled()
    {
    }

    /** MessageAdd on a channel that is known. */
    method PostKnown(c: Channel, message: Message)
      requires Valid() && AllSettled() && maxMessageCount >= 0 && Settled(c) && c.id == message.channelID
      requires message.channelID in channelMap && channelMap[message.channelID] == c
      modifies c`messages, MessagesAt(message.channelID)`body
      ensures Valid() && AllSettled() && Snapshot() == old(Snapshot())
      ensures QueueAt(message.channelID) ==
              Post(old(QueueAt(message.channelID)), old(EntryOf(message)), maxMessageCount)
    {
      hide Valid, Snapshot, Post, Settled, AllSettled, Entries;
      PostTo(c, message, maxMessageCount);
      OneSettled(c);
    }

    // MessageAdd; a negative MaxMessageCount would slice out of range
    method MessageAdd(message: Message) returns (st: Status)
      requires Valid() && AllSettled() && maxMessageCount >= 0
      modifies ChannelAt(message.channelID)`messages, MessagesAt(message.channelID)`body
      ensures Valid() && AllSettled() && Snapshot() == old(Snapshot())
      ensures st == if message.channelID in channelMap then Ok else NotFound
      ensures st == Ok ==>
                QueueAt(message.channelID) ==
                Post(old(QueueAt(message.channelID)), old(EntryOf(message)), maxMessageCount)
      ensures forall id :: id != message.channelID ==> QueueAt(id) == old(QueueAt(id))
    {
      hide Valid, AllSettled, Settled, Snapshot, QueueAt, Post, EntryOf;
      if message.channelID !in channelMap {
        return NotFound;
      }
      OwnID(message.channelID);
      forall id | id in channelMap && id != message.channelID
        ensures channelMap[id] != channelMap[message.channelID]
        ensures forall m <- MessagesAt(message.channelID) :: m !in MessagesAt(id)
      {
        OwnMessages(message.channelID, id);
      }
      PostKnown(channelMap[message.channelID], message);
      forall id | id != message.channelID
        ensures QueueAt(id) == old(QueueAt(id))
      {
        QueueKept(id);
      }
      return Ok;
    }

    /** messageRemoveByID on a channel that is known. */
    method DeleteKnown(c: Channel, messageID: string) returns (st: Status)
      requires Valid() && c.id in channelMap && channelMap[c.id] == c
      modifies c`messages
      ensures Valid() && Snapshot() == old(Snapshot()) && (old(AllSettled()) ==> AllSettled())
      ensures st == if Has(old(QueueAt(c.id)), messageID) then Ok else NotFound
      ensures QueueAt(c.id) == Delete(old(QueueAt(c.id)), messageID)
    {
      OwnID(c.id);
      hide Valid, Snapshot, AllSettled, Settled, Entries, Delete, Has;
      st := DeleteFrom(c, messageID);
      if old(AllSettled()) {
        OneSettled(c);
      }
    }

    method MessageRemoveByID(channelID: string, messageID: string) returns (st: Status)
      requires Valid()
      modifies ChannelAt(channelID)`messages
      ensures Valid() && Snapshot() == old(Snapshot()) && (old(AllSettled()) ==> AllSettled())
      ensures st == Ok <==> channelID in channelMap && Has(old(QueueAt(channelID)), messageID)
      ensures channelID in channelMap ==> QueueAt(channelID) == Delete(old(QueueAt(channelID)), messageID)
      ensures forall id :: id != channelID ==> QueueAt(id) == old(QueueAt(id))
    {
      hide Valid, AllSettled, Settled, Snapshot, QueueAt, Delete, Has;
      if channelID !in channelMap {
        return NotFound;
      }
      OwnID(channelID);
      forall id | id in channelMap && id != channelID
        ensures channelMap[id] != channelMap[channelID]
      {
        OwnID(id);
      }
      st := DeleteKnown(channelMap[channelID], messageID);
      forall id | id != channelID
        ensures QueueAt(id) == old(QueueAt(id))
      {
        QueueKept(id);
      }
    }

    /** The bulk delete of OnInterface: unknown IDs are passed over. */
    method MessagesRemove(channelID: string, ids: seq<string>)
      requires Valid()
      modifies ChannelAt(channelID)`messages
      ensures Valid() && Snapshot() == old(Snapshot()) && (old(AllSettled()) ==> AllSettled())
      ensures channelID in channelMap ==> QueueAt(channelID) == DeleteAll(old(QueueAt(channelID)), ids)
      ensures forall id :: id != channelID ==> QueueAt(id) == old(QueueAt(id))
    {
      hide Valid, AllSettled, Snapshot, QueueAt, Delete, Has;
      for i := 0 to |ids|
        invariant Valid() && Snapshot() == old(Snapshot()) && (old(AllSettled()) ==> AllSettled())
        invariant channelID in channelMap ==> QueueAt(channelID) == DeleteAll(old(QueueAt(channelID)), ids[..i])
        invariant forall id :: id != channelID ==> QueueAt(id) == old(QueueAt(id))
      {
        assert ids[..i + 1][..i] == ids[..i];
        var _ := MessageRemoveByID(channelID, ids[i]);
      }
      assert ids[..|ids|] == ids;
    }

    /** Every thread a known guild lists carries its metadata. */
    lemma ThreadsDated(guildID: string)
      requires Valid() && AllSettled() && guildID in guildMap
      ensures forall t <- guildMap[guildID].threads.Items() :: t.archived.Some?
    {
      assert AllLists()[guildID] == ListsOf(guildMap[guildID]);
      assert ListsIndexed(channelMap, guildID, AllLists()[guildID]);
      forall t | t in guildMap[guildID].threads.Items()
        ensures t.archived.Some?
      {
        assert Mapped(channelMap, t) && Settled(channelMap[t.id]);
      }
    }
  }
}
