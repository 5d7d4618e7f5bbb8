/**
 The state cache as a value: its lists and its three pointer indexes, one step per operation, and what
 every step keeps. The class in StateCache performs these steps in place on the objects themselves.
 */
module CacheModel {
  import opened Wrappers
  import opened Entities

  /** The lists a guild object holds. */
  datatype Lists = Lists(channels: seq<Channel>, threads: seq<Channel>, members: seq<Member>)

  datatype Cache = Cache(
    guilds: seq<Guild>,
    privates: seq<Channel>,
    guildMap: map<string, Guild>,
    channelMap: map<string, Channel>,
    memberMap: map<string, map<string, Member>>,
    lists: map<string, Lists>)  // the lists of guildMap[id]

  const EMPTY := Cache([], [], map[], map[], map[], map[])

  // ---------------------------------------------------------------- the invariant

  /** A listed channel is the very object its ID maps to. */
  ghost predicate Mapped(index: map<string, Channel>, c: Channel) {
    c.id in index && index[c.id] == c
  }

  ghost predicate PrivateListIndexed(index: map<string, Channel>, cs: seq<Channel>) {
    && (forall c <- cs :: Mapped(index, c) && c.Home() == PrivateHome)
    && Distinct(cs)
  }

  ghost predicate ListsIndexed(index: map<string, Channel>, guildID: string, l: Lists) {
    && (forall c <- l.channels :: Mapped(index, c) && c.Home() == GuildHome(guildID))
    && Distinct(l.channels)
    && (forall t <- l.threads :: Mapped(index, t) && t.Home() == ThreadHome(guildID, t.parentID))
    && Distinct(l.threads)
  }

  /** index is exactly the user-ID index of the list: one entry per member, the same objects, nothing extra. */
  ghost predicate IndexesMembers(index: map<string, Member>, guildID: string, ms: seq<Member>) {
    && (forall m <- ms :: m.guildID == guildID && m.userID in index && index[m.userID] == m)
    && (forall u <- index :: index[u] in ms && index[u].userID == u)
    && Distinct(ms)
  }

  ghost predicate GuildsIndexed(s: Cache) {
    && (forall id <- s.guildMap :: s.guildMap[id].id == id)
    && (forall g <- s.guilds :: g.id in s.guildMap && s.guildMap[g.id] == g)
    && Distinct(s.guilds)
    && s.lists.Keys == s.guildMap.Keys
    && s.guildMap.Keys <= s.memberMap.Keys
  }

  /** Every entry is filed under its own ID and sits where homes says its ID belongs. */
  ghost predicate AtHome(index: map<string, Channel>, homes: string -> Home) {
    forall id <- index :: index[id].id == id && index[id].Home() == homes(id)
  }

  ghost predicate AllListsIndexed(index: map<string, Channel>, lists: map<string, Lists>) {
    forall id <- lists :: ListsIndexed(index, id, lists[id])
  }

  /** Every member entry is filed under its own guild and user. */
  ghost predicate Keyed(index: map<string, Member>, guildID: string) {
    forall u <- index :: index[u].guildID == guildID && index[u].userID == u
  }

  ghost predicate MembersKeyed(index: map<string, map<string, Member>>) {
    forall id <- index :: Keyed(index[id], id)
  }

  /** Guild and channel lists agree with guildMap and channelMap; homes is the fixed place of each channel ID. */
  ghost predicate Indexed(s: Cache, homes: string -> Home) {
    && GuildsIndexed(s)
    && AtHome(s.channelMap, homes)
    && PrivateListIndexed(s.channelMap, s.privates)
    && AllListsIndexed(s.channelMap, s.lists)
    && MembersKeyed(s.memberMap)
  }

  /** memberMap[g] is exactly the user-ID index of the Members list of guild g. */
  ghost predicate MembersIndexed(s: Cache) {
    forall id <- s.lists :: id in s.memberMap && IndexesMembers(s.memberMap[id], id, s.lists[id].members)
  }

  // ---------------------------------------------------------------- payloads

  ghost predicate DistinctChannels(cs: seq<Channel>) {
    forall i, j :: 0 <= i < j < |cs| ==> cs[i].id != cs[j].id
  }

  ghost predicate DistinctUsers(ms: seq<Member>) {
    forall i, j :: 0 <= i < j < |ms| ==> ms[i].userID != ms[j].userID
  }

  /** Entering every channel of the list under its ID; a later one replaces an earlier one. */
  ghost function EnterChannels(m: map<string, Channel>, cs: seq<Channel>): map<string, Channel> {
    if cs == [] then m else EnterChannels(m, cs[..|cs| - 1])[cs[|cs| - 1].id := cs[|cs| - 1]]
  }

  ghost function MemberIndex(ms: seq<Member>): map<string, Member> {
    if ms == [] then map[] else MemberIndex(ms[..|ms| - 1])[ms[|ms| - 1].userID := ms[|ms| - 1]]
  }

  lemma {:induction false} EnteredEntries(m: map<string, Channel>, cs: seq<Channel>)
    ensures forall id <- EnterChannels(m, cs) ::
              || (id in m && EnterChannels(m, cs)[id] == m[id])
              || (EnterChannels(m, cs)[id] in cs && EnterChannels(m, cs)[id].id == id)
    ensures forall id <- m :: id in EnterChannels(m, cs)
    ensures forall c <- cs :: c.id in EnterChannels(m, cs)
    ensures DistinctChannels(cs) ==> forall c <- cs :: EnterChannels(m, cs)[c.id] == c
    ensures forall id <- m :: (forall c <- cs :: c.id != id) ==> EnterChannels(m, cs)[id] == m[id]
  {
    if cs != [] {
      EnteredEntries(m, cs[..|cs| - 1]);
      assert cs == cs[..|cs| - 1] + [cs[|cs| - 1]];
    }
  }

  lemma {:induction false} MemberIndexEntries(ms: seq<Member>)
    ensures forall u <- MemberIndex(ms) :: MemberIndex(ms)[u] in ms && MemberIndex(ms)[u].userID == u
    ensures forall m <- ms :: m.userID in MemberIndex(ms)
    ensures DistinctUsers(ms) ==> forall m <- ms :: MemberIndex(ms)[m.userID] == m
  {
    if ms != [] {
      MemberIndexEntries(ms[..|ms| - 1]);
      assert ms == ms[..|ms| - 1] + [ms[|ms| - 1]];
    }
  }

  datatype GuildPayload = GuildPayload(
    id: string, channels: Slice<Channel>, threads: Slice<Channel>, members: Slice<Member>)

  ghost predicate WellFormed(p: GuildPayload, homes: string -> Home) {
    && (forall c <- p.channels.Items() :: c.Home() == homes(c.id) == GuildHome(p.id))
    && DistinctChannels(p.channels.Items())
    && (forall t <- p.threads.Items() :: t.Home() == homes(t.id) == ThreadHome(p.id, t.parentID))
    && DistinctChannels(p.threads.Items())
    && (forall m <- p.members.Items() :: m.guildID == p.id)
    && DistinctUsers(p.members.Items())
  }

  // ---------------------------------------------------------------- the steps

  /** A guild that was removed, left members in memberMap, and comes back without a member list. */
  ghost predicate ReturnsBare(s: Cache, p: GuildPayload) {
    p.id !in s.guildMap && p.members.NilSlice? && p.id in s.memberMap && s.memberMap[p.id] != map[]
  }

  ghost function Merged(known: Lists, p: GuildPayload): Lists {
    Lists(if p.channels.NilSlice? then known.channels else p.channels.elems,
          if p.threads.NilSlice? then known.threads else p.threads.elems,
          if p.members.NilSlice? then known.members else p.members.elems)
  }

  ghost function ListsAt(s: Cache, id: string): Lists {
    if id in s.lists then s.lists[id] else Lists([], [], [])
  }

  /** The channel map after a guild payload, and what it still maps. */
  ghost function ChannelMapWith(m: map<string, Channel>, p: GuildPayload): map<string, Channel>
  {
    EnterChannels(EnterChannels(m, p.channels.Items()), p.threads.Items())
  }

  ghost function MemberMapWith(m: map<string, map<string, Member>>, p: GuildPayload): map<string, map<string, Member>>
  {
    if p.members.Slice? then m[p.id := MemberIndex(p.members.elems)]
    else if p.id in m then m
    else m[p.id := map[]]
  }

  ghost function AddGuild(s: Cache, g: Guild, p: GuildPayload): Cache
  {
    s.(guilds := if p.id in s.guildMap then s.guilds else s.guilds + [g],
       guildMap := if p.id in s.guildMap then s.guildMap else s.guildMap[p.id := g],
       channelMap := ChannelMapWith(s.channelMap, p),
       memberMap := MemberMapWith(s.memberMap, p),
       lists := s.lists[p.id := Merged(ListsAt(s, p.id), p)])
  }

  lemma EnterKeepsHomes(m: map<string, Channel>, cs: seq<Channel>, homes: string -> Home)
    requires AtHome(m, homes) && DistinctChannels(cs) && forall c <- cs :: c.Home() == homes(c.id)
    ensures AtHome(EnterChannels(m, cs), homes)
    ensures forall c <- cs :: Mapped(EnterChannels(m, cs), c)
    ensures forall c :: Mapped(m, c) && (forall d <- cs :: d.Home() != c.Home()) ==> Mapped(EnterChannels(m, cs), c)
  {
    EnteredEntries(m, cs);
  }

  /** A payload's own channels and threads replace only entries of the same guild and kind. */
  ghost predicate Replaces(p: GuildPayload, h: Home) {
    || (p.channels.Slice? && h == GuildHome(p.id))
    || (p.threads.Slice? && h.ThreadHome? && h.guildID == p.id)
  }

  lemma PayloadEntered(m: map<string, Channel>, p: GuildPayload, homes: string -> Home)
    requires AtHome(m, homes) && WellFormed(p, homes)
    ensures AtHome(ChannelMapWith(m, p), homes)
    ensures forall c <- p.channels.Items() :: Mapped(ChannelMapWith(m, p), c)
    ensures forall c <- p.threads.Items() :: Mapped(ChannelMapWith(m, p), c)
  {
    EnterKeepsHomes(m, p.channels.Items(), homes);
    EnterKeepsHomes(EnterChannels(m, p.channels.Items()), p.threads.Items(), homes);
  }

  lemma PayloadKeepsOther(m: map<string, Channel>, p: GuildPayload, homes: string -> Home, c: Channel)
    requires AtHome(m, homes) && WellFormed(p, homes) && Mapped(m, c) && !Replaces(p, c.Home())
    ensures Mapped(ChannelMapWith(m, p), c)
  {
    EnterKeepsHomes(m, p.channels.Items(), homes);
    EnterKeepsHomes(EnterChannels(m, p.channels.Items()), p.threads.Items(), homes);
  }

  lemma DistinctIDsAreDistinct(cs: seq<Channel>)
    requires DistinctChannels(cs)
    ensures Distinct(cs)
  {
  }

  lemma PayloadKeepsLists(m: map<string, Channel>, p: GuildPayload, homes: string -> Home, id: string, l: Lists)
    requires AtHome(m, homes) && WellFormed(p, homes) && ListsIndexed(m, id, l)
    ensures id != p.id ==> ListsIndexed(ChannelMapWith(m, p), id, l)
    ensures id == p.id ==> ListsIndexed(ChannelMapWith(m, p), id, Merged(l, p))
  {
    PayloadEntered(m, p, homes);
    DistinctIDsAreDistinct(p.channels.Items());
    DistinctIDsAreDistinct(p.threads.Items());
    forall c | c in l.channels + l.threads && !Replaces(p, c.Home()) ensures Mapped(ChannelMapWith(m, p), c) {
      PayloadKeepsOther(m, p, homes, c);
    }
  }

  lemma PayloadKeyed(m: map<string, map<string, Member>>, p: GuildPayload)
    requires MembersKeyed(m) && forall x <- p.members.Items() :: x.guildID == p.id
    ensures MembersKeyed(MemberMapWith(m, p))
  {
    MemberIndexEntries(p.members.Items());
  }

  lemma AddGuildKeepsGuilds(s: Cache, g: Guild, p: GuildPayload)
    requires GuildsIndexed(s) && g.id == p.id
    ensures GuildsIndexed(AddGuild(s, g, p))
  {
    hide ChannelMapWith, Merged;
  }

  lemma AddGuildKeepsLists(s: Cache, g: Guild, p: GuildPayload, homes: string -> Home)
    requires AtHome(s.channelMap, homes) && PrivateListIndexed(s.channelMap, s.privates)
    requires AllListsIndexed(s.channelMap, s.lists) && WellFormed(p, homes) && g.id == p.id
    ensures var m := ChannelMapWith(s.channelMap, p);
      PrivateListIndexed(m, s.privates) && AllListsIndexed(m, AddGuild(s, g, p).lists)
  {
    hide AtHome, WellFormed, ChannelMapWith, MemberMapWith, Merged, ListsIndexed, Mapped;
    var m, lists := ChannelMapWith(s.channelMap, p), AddGuild(s, g, p).lists;
    forall c <- s.privates ensures Mapped(m, c) {
      PayloadKeepsOther(s.channelMap, p, homes, c);
    }
    EmptyListsIndexed(s.channelMap, p.id);
    forall id <- lists ensures ListsIndexed(m, id, lists[id]) {
      PayloadKeepsLists(s.channelMap, p, homes, id, ListsAt(s, id));
    }
  }

  lemma EmptyListsIndexed(m: map<string, Channel>, id: string)
    ensures ListsIndexed(m, id, Lists([], [], []))
  {
  }

  lemma AddGuildKeepsIndexed(s: Cache, g: Guild, p: GuildPayload, homes: string -> Home)
    requires Indexed(s, homes) && WellFormed(p, homes) && g.id == p.id
    ensures Indexed(AddGuild(s, g, p), homes)
  {
    assert forall x <- p.members.Items() :: x.guildID == p.id;
    hide GuildsIndexed, AtHome, PrivateListIndexed, AllListsIndexed, MembersKeyed, WellFormed;
    hide ChannelMapWith, MemberMapWith;
    AddGuildKeepsGuilds(s, g, p);
    PayloadKeyed(s.memberMap, p);
    PayloadEntered(s.channelMap, p, homes);
    AddGuildKeepsLists(s, g, p, homes);
  }

  lemma AddGuildKeepsMembers(s: Cache, g: Guild, p: GuildPayload, homes: string -> Home)
    requires GuildsIndexed(s) && WellFormed(p, homes) && g.id == p.id && MembersIndexed(s)
    ensures MembersIndexed(AddGuild(s, g, p)) <==> !ReturnsBare(s, p)
  {
    hide ChannelMapWith, IndexesMembers;
    var r := AddGuild(s, g, p);
    if p.members.Slice? {
      PayloadMembersIndexed(p.id, p.members.elems);
    }
    NoMembersIndexed(p.id);
    if ReturnsBare(s, p) {
      assert r.lists[p.id].members == [];
      LeftMembersUnindexed(s.memberMap[p.id], p.id);
    }
  }

  lemma NoMembersIndexed(id: string)
    ensures IndexesMembers(map[], id, [])
  {
  }

  lemma LeftMembersUnindexed(index: map<string, Member>, id: string)
    requires index != map[]
    ensures !IndexesMembers(index, id, [])
  {
    var u :| u in index;
  }

  lemma PayloadMembersIndexed(id: string, ms: seq<Member>)
    requires DistinctUsers(ms) && forall m <- ms :: m.guildID == id
    ensures IndexesMembers(MemberIndex(ms), id, ms)
  {
    MemberIndexEntries(ms);
  }

  // ---------------------------------------------------------------- removing a guild

  function GuildNamed(id: string): Guild -> bool {
    (g: Guild) => g.id == id
  }

  function ChannelNamed(id: string): Channel -> bool {
    (c: Channel) => c.id == id
  }

  function MemberNamed(userID: string): Member -> bool {
    (m: Member) => m.userID == userID
  }

  ghost function RemoveGuild(s: Cache, id: string): Cache {
    if id !in s.guildMap then s
    else s.(guilds := RemoveFirst(s.guilds, GuildNamed(id)),
            guildMap := s.guildMap - {id},
            lists := s.lists - {id})
  }

  lemma RemoveGuildKeeps(s: Cache, id: string, homes: string -> Home)
    requires Indexed(s, homes)
    ensures Indexed(RemoveGuild(s, id), homes)
    ensures MembersIndexed(s) ==> MembersIndexed(RemoveGuild(s, id))
    ensures forall g :: g in RemoveGuild(s, id).guilds <==> g in s.guilds && g.id != id
  {
    RemoveFirstDistinct(s.guilds, GuildNamed(id));
    assert forall g <- s.guilds :: GuildNamed(id)(g) <==> g.id == id;
  }

  // ---------------------------------------------------------------- members

  ghost function AddMember(s: Cache, m: Member): Cache {
    if m.guildID !in s.lists || m.guildID !in s.memberMap || m.userID in s.memberMap[m.guildID] then s
    else
      var l := s.lists[m.guildID];
      s.(memberMap := s.memberMap[m.guildID := s.memberMap[m.guildID][m.userID := m]],
         lists := s.lists[m.guildID := l.(members := l.members + [m])])
  }

  ghost function RemoveMember(s: Cache, guildID: string, userID: string): Cache {
    if guildID !in s.lists || guildID !in s.memberMap || userID !in s.memberMap[guildID] then s
    else
      var l := s.lists[guildID];
      s.(memberMap := s.memberMap[guildID := s.memberMap[guildID] - {userID}],
         lists := s.lists[guildID := l.(members := RemoveFirst(l.members, MemberNamed(userID)))])
  }

  lemma GuildsKept(s: Cache, r: Cache)
    requires GuildsIndexed(s) && r.guilds == s.guilds && r.guildMap == s.guildMap
    requires r.lists.Keys == s.lists.Keys && s.memberMap.Keys <= r.memberMap.Keys
    ensures GuildsIndexed(r)
  {
  }

  /** Changing only member lists leaves every channel list indexed. */
  lemma MemberListsKeep(m: map<string, Channel>, before: map<string, Lists>, after: map<string, Lists>)
    requires AllListsIndexed(m, before) && before.Keys == after.Keys
    requires forall id <- before :: before[id].channels == after[id].channels && before[id].threads == after[id].threads
    ensures AllListsIndexed(m, after)
  {
    assert forall id <- before :: ListsIndexed(m, id, before[id]) ==> ListsIndexed(m, id, after[id]);
  }

  lemma KnownMember(s: Cache, m: Member)
    requires m.guildID in s.memberMap && m.userID in s.memberMap[m.guildID]
    ensures AddMember(s, m) == s
  {
  }

  lemma RekeyKeeps(index: map<string, map<string, Member>>, guildID: string, entries: map<string, Member>)
    requires MembersKeyed(index) && Keyed(entries, guildID)
    ensures MembersKeyed(index[guildID := entries])
  {
  }

  lemma AddMemberKeepsIndexed(s: Cache, m: Member, homes: string -> Home)
    requires Indexed(s, homes)
    ensures Indexed(AddMember(s, m), homes)
  {
    var r := AddMember(s, m);
    if r != s {
      GuildsKept(s, r);
      MemberListsKeep(s.channelMap, s.lists, r.lists);
      assert Keyed(s.memberMap[m.guildID], m.guildID);
      RekeyKeeps(s.memberMap, m.guildID, r.memberMap[m.guildID]);
    }
  }

  lemma AddMemberKeepsMembers(s: Cache, m: Member)
    requires MembersIndexed(s)
    ensures MembersIndexed(AddMember(s, m))
  {
    var r := AddMember(s, m);
    if r != s {
      assert IndexesMembers(s.memberMap[m.guildID], m.guildID, s.lists[m.guildID].members);
      assert IndexesMembers(r.memberMap[m.guildID], m.guildID, r.lists[m.guildID].members);
    }
  }

  lemma RemoveMemberKeepsIndexed(s: Cache, guildID: string, userID: string, homes: string -> Home)
    requires Indexed(s, homes)
    ensures Indexed(RemoveMember(s, guildID, userID), homes)
  {
    var r := RemoveMember(s, guildID, userID);
    if r != s {
      GuildsKept(s, r);
      MemberListsKeep(s.channelMap, s.lists, r.lists);
      assert Keyed(s.memberMap[guildID], guildID);
      RekeyKeeps(s.memberMap, guildID, r.memberMap[guildID]);
    }
  }

  lemma RemoveMemberKeepsMembers(s: Cache, guildID: string, userID: string)
    requires MembersIndexed(s)
    ensures MembersIndexed(RemoveMember(s, guildID, userID))
  {
    var r := RemoveMember(s, guildID, userID);
    if r != s {
      assert IndexesMembers(s.memberMap[guildID], guildID, s.lists[guildID].members);
      RemoveFirstDistinct(s.lists[guildID].members, MemberNamed(userID));
      assert IndexesMembers(r.memberMap[guildID], guildID, r.lists[guildID].members);
    }
  }

  /** Looking a member up agrees with scanning the guild's member list. */
  lemma MemberLookupIsScan(s: Cache, guildID: string, userID: string)
    requires MembersIndexed(s) && guildID in s.lists
    ensures userID in s.memberMap[guildID] <==> exists m <- s.lists[guildID].members :: m.userID == userID
    ensures forall m <- s.lists[guildID].members :: m.userID == userID ==> s.memberMap[guildID][userID] == m
    ensures forall i, j :: 0 <= i < j < |s.lists[guildID].members| ==>
              s.lists[guildID].members[i].userID != s.lists[guildID].members[j].userID
  {
    assert IndexesMembers(s.memberMap[guildID], guildID, s.lists[guildID].members);
  }

  // ---------------------------------------------------------------- channels

  ghost function AddChannel(s: Cache, c: Channel): Cache {
    if c.id in s.channelMap then s
    else if c.Home() == PrivateHome then
      s.(privates := s.privates + [c], channelMap := s.channelMap[c.id := c])
    else if c.guildID !in s.lists then s
    else
      var l := s.lists[c.guildID];
      s.(channelMap := s.channelMap[c.id := c],
         lists := s.lists[c.guildID :=
           if IsThreadKind(c.kind) then l.(threads := l.threads + [c]) else l.(channels := l.channels + [c])])
  }

  ghost function RemoveChannel(s: Cache, id: string, home: Home): Cache {
    var named := ChannelNamed(id);
    if id !in s.channelMap then s
    else if home == PrivateHome then
      s.(privates := RemoveFirst(s.privates, named), channelMap := s.channelMap - {id})
    else if home.guildID !in s.lists then s
    else
      var l := s.lists[home.guildID];
      s.(channelMap := s.channelMap - {id},
         lists := s.lists[home.guildID :=
           if home.ThreadHome? then l.(threads := RemoveFirst(l.threads, named))
           else l.(channels := RemoveFirst(l.channels, named))])
  }

  lemma GrowKeepsLists(m: map<string, Channel>, c: Channel, id: string, l: Lists)
    requires ListsIndexed(m, id, l) && c.id !in m
    ensures ListsIndexed(m[c.id := c], id, l)
    ensures c.Home() == GuildHome(id) ==> ListsIndexed(m[c.id := c], id, l.(channels := l.channels + [c]))
    ensures c.Home() == ThreadHome(id, c.parentID) ==> ListsIndexed(m[c.id := c], id, l.(threads := l.threads + [c]))
  {
  }

  lemma AddChannelKeepsLists(s: Cache, c: Channel)
    requires AllListsIndexed(s.channelMap, s.lists) && c.id !in s.channelMap
    ensures AllListsIndexed(AddChannel(s, c).channelMap, AddChannel(s, c).lists)
  {
    var r := AddChannel(s, c);
    forall id <- r.lists ensures ListsIndexed(r.channelMap, id, r.lists[id]) {
      GrowKeepsLists(s.channelMap, c, id, s.lists[id]);
    }
  }

  lemma AddChannelKeepsMap(s: Cache, c: Channel, homes: string -> Home)
    requires AtHome(s.channelMap, homes) && PrivateListIndexed(s.channelMap, s.privates)
    requires c.id !in s.channelMap && c.Home() == homes(c.id)
    ensures AtHome(AddChannel(s, c).channelMap, homes)
    ensures PrivateListIndexed(AddChannel(s, c).channelMap, AddChannel(s, c).privates)
  {
  }

  lemma AddChannelKeepsIndexed(s: Cache, c: Channel, homes: string -> Home)
    requires Indexed(s, homes) && c.Home() == homes(c.id)
    ensures Indexed(AddChannel(s, c), homes)
  {
    var r := AddChannel(s, c);
    if c.id !in s.channelMap {
      GuildsKept(s, r);
      AddChannelKeepsMap(s, c, homes);
      AddChannelKeepsLists(s, c);
      hide AllListsIndexed, GuildsIndexed, AtHome, PrivateListIndexed;
    }
  }

  lemma AddChannelKeepsMembers(s: Cache, c: Channel)
    requires MembersIndexed(s)
    ensures MembersIndexed(AddChannel(s, c))
  {
  }

  /** A list at another home is not disturbed by deleting an ID from the map. */
  lemma DropKeepsOtherLists(m: map<string, Channel>, homes: string -> Home, dropped: string, id: string, l: Lists)
    requires AtHome(m, homes) && ListsIndexed(m, id, l)
    requires homes(dropped) == PrivateHome || homes(dropped).guildID != id
    ensures ListsIndexed(m - {dropped}, id, l)
  {
  }

  /** Deleting an ID from its own list and from the map leaves that guild's lists indexed. */
  lemma DropKeepsOwnLists(m: map<string, Channel>, homes: string -> Home, dropped: string, id: string, l: Lists)
    requires AtHome(m, homes) && ListsIndexed(m, id, l) && dropped in m
    requires homes(dropped) != PrivateHome && homes(dropped).guildID == id
    ensures ListsIndexed(m - {dropped}, id,
              if homes(dropped).ThreadHome? then l.(threads := RemoveFirst(l.threads, ChannelNamed(dropped)))
              else l.(channels := RemoveFirst(l.channels, ChannelNamed(dropped))))
  {
    if homes(dropped).ThreadHome? {
      RemoveFirstDistinct(l.threads, ChannelNamed(dropped));
    } else {
      RemoveFirstDistinct(l.channels, ChannelNamed(dropped));
    }
  }

  lemma DropKeepsPrivates(m: map<string, Channel>, homes: string -> Home, dropped: string, cs: seq<Channel>)
    requires AtHome(m, homes) && PrivateListIndexed(m, cs) && dropped in m
    ensures PrivateListIndexed(m - {dropped},
              if homes(dropped) == PrivateHome then RemoveFirst(cs, ChannelNamed(dropped)) else cs)
  {
    RemoveFirstDistinct(cs, ChannelNamed(dropped));
    assert forall c <- cs :: ChannelNamed(dropped)(c) <==> c.id == dropped;
  }

  lemma RemoveChannelKeepsIndexed(s: Cache, id: string, homes: string -> Home)
    requires Indexed(s, homes)
    ensures var r := RemoveChannel(s, id, homes(id));
      && Indexed(r, homes)
      && (id !in r.channelMap ==> forall a :: IsSlot(r, a) ==> At(r, a).id != id)
  {
    RemoveKeepsIndexed(s, id, homes);
    var r := RemoveChannel(s, id, homes(id));
    if id !in r.channelMap {
      forall a | IsSlot(r, a) ensures At(r, a).id != id {
        SlotHome(r, a);
      }
    }
  }

  lemma RemoveKeepsIndexed(s: Cache, id: string, homes: string -> Home)
    requires Indexed(s, homes)
    ensures Indexed(RemoveChannel(s, id, homes(id)), homes)
  {
    var r := RemoveChannel(s, id, homes(id));
    GuildsKept(s, r);
    if r != s {
      DropKeepsPrivates(s.channelMap, homes, id, s.privates);
      forall g <- r.lists ensures ListsIndexed(r.channelMap, g, r.lists[g]) {
        if homes(id) == PrivateHome || homes(id).guildID != g {
          DropKeepsOtherLists(s.channelMap, homes, id, g, s.lists[g]);
        } else {
          DropKeepsOwnLists(s.channelMap, homes, id, g, s.lists[g]);
        }
      }
    }
  }

  lemma RemoveChannelKeepsMembers(s: Cache, id: string, home: Home)
    requires MembersIndexed(s)
    ensures MembersIndexed(RemoveChannel(s, id, home))
  {
  }

  // ---------------------------------------------------------------- thread list sync

  /** A thread survives a sync when it is not archived and its parent is not being synced. */
  predicate Survives(t: Channel, parents: Slice<string>, archived: set<Channel>) {
    parents.Slice? && t !in archived && t.parentID !in parents.elems
  }

  /** The surviving threads, in order. */
  ghost function Kept(ts: seq<Channel>, parents: Slice<string>, archived: set<Channel>): seq<Channel> {
    if ts == [] then []
    else
      var last := ts[|ts| - 1];
      Kept(ts[..|ts| - 1], parents, archived) + (if Survives(last, parents, archived) then [last] else [])
  }

  lemma {:induction false} KeptElements(ts: seq<Channel>, parents: Slice<string>, archived: set<Channel>)
    ensures forall t <- Kept(ts, parents, archived) :: t in ts && Survives(t, parents, archived)
    ensures forall t <- ts :: Survives(t, parents, archived) ==> t in Kept(ts, parents, archived)
    ensures Distinct(ts) ==> Distinct(Kept(ts, parents, archived))
    ensures |Kept(ts, parents, archived)| <= |ts|
  {
    if ts != [] {
      assert forall t :: t in ts <==> t == ts[|ts| - 1] || t in ts[..|ts| - 1];
      KeptElements(ts[..|ts| - 1], parents, archived);
    }
  }

  lemma KeptNext(ts: seq<Channel>, i: nat, parents: Slice<string>, archived: set<Channel>)
    requires i < |ts|
    ensures Kept(ts[..i + 1], parents, archived) ==
            Kept(ts[..i], parents, archived) + if Survives(ts[i], parents, archived) then [ts[i]] else []
    ensures |Kept(ts[..i], parents, archived)| <= i
  {
    assert ts[..i + 1][..i] == ts[..i];
    KeptElements(ts[..i], parents, archived);
  }

  /** The list and the map after i rounds of the compaction; index is the write position. */
  ghost predicate Compacted(list: seq<Channel>, m: map<string, Channel>, index: nat, i: nat,
                            ts: seq<Channel>, m0: map<string, Channel>, parents: Slice<string>, archived: set<Channel>)
  {
    && i <= |ts|
    && index == |Kept(ts[..i], parents, archived)| <= i
    && list == Kept(ts[..i], parents, archived) + ts[index..]
    && m == m0 - DroppedIDs(ts[..i], parents, archived)
  }

  lemma CompactedStart(ts: seq<Channel>, m0: map<string, Channel>, parents: Slice<string>, archived: set<Channel>)
    ensures Compacted(ts, m0, 0, 0, ts, m0, parents, archived)
  {
    assert ts[..0] == [] && ts[0..] == ts;
  }

  /** The element read in round i is still the original one, and the round's effect is the next compaction. */
  lemma CompactedNext(list: seq<Channel>, m: map<string, Channel>, index: nat, i: nat,
                      ts: seq<Channel>, m0: map<string, Channel>, parents: Slice<string>, archived: set<Channel>)
    requires Compacted(list, m, index, i, ts, m0, parents, archived) && i < |ts|
    ensures |list| == |ts| && list[i] == ts[i]
    ensures if Survives(ts[i], parents, archived)
            then Compacted(list[index := ts[i]], m, index + 1, i + 1, ts, m0, parents, archived)
            else Compacted(list, m - {ts[i].id}, index, i + 1, ts, m0, parents, archived)
  {
    KeptNext(ts, i, parents, archived);
    DroppedNext(ts, i, parents, archived);
    CompactStep(Kept(ts[..i], parents, archived), ts, ts[i]);
  }

  lemma CompactedEnd(list: seq<Channel>, m: map<string, Channel>, index: nat,
                     ts: seq<Channel>, m0: map<string, Channel>, parents: Slice<string>, archived: set<Channel>)
    requires Compacted(list, m, index, |ts|, ts, m0, parents, archived)
    ensures list[..index] == Kept(ts, parents, archived) && m == m0 - DroppedIDs(ts, parents, archived)
  {
    assert ts[..|ts|] == ts;
  }

  ghost function ThreadsAfterSync(ts: seq<Channel>, parents: Slice<string>, synced: seq<Channel>,
                                  archived: set<Channel>): seq<Channel>
  {
    Kept(ts, parents, archived) + synced
  }

  ghost function DroppedIDs(ts: seq<Channel>, parents: Slice<string>, archived: set<Channel>): set<string> {
    set t | t in ts && !Survives(t, parents, archived) :: t.id
  }

  lemma DroppedNext(ts: seq<Channel>, i: nat, parents: Slice<string>, archived: set<Channel>)
    requires i < |ts|
    ensures DroppedIDs(ts[..i + 1], parents, archived) ==
            DroppedIDs(ts[..i], parents, archived) + if Survives(ts[i], parents, archived) then {} else {ts[i].id}
  {
    assert ts[..i + 1] == ts[..i] + [ts[i]];
  }

  ghost function ChannelMapAfterSync(m: map<string, Channel>, ts: seq<Channel>, parents: Slice<string>,
                                     synced: seq<Channel>, archived: set<Channel>): map<string, Channel>
  {
    EnterChannels(m - DroppedIDs(ts, parents, archived), synced)
  }

  ghost function SyncThreads(s: Cache, guildID: string, parents: Slice<string>, synced: seq<Channel>,
                             archived: set<Channel>): Cache
  {
    if guildID !in s.lists then s
    else
      var l := s.lists[guildID];
      s.(channelMap := ChannelMapAfterSync(s.channelMap, l.threads, parents, synced, archived),
         lists := s.lists[guildID := l.(threads := ThreadsAfterSync(l.threads, parents, synced, archived))])
  }

  /** The synced threads belong to the guild and, when parents are listed, to a listed parent. */
  ghost predicate SyncPayload(guildID: string, parents: Slice<string>, synced: seq<Channel>, homes: string -> Home) {
    && DistinctChannels(synced)
    && (forall t <- synced :: t.Home() == homes(t.id) == ThreadHome(guildID, t.parentID))
    && (parents.Slice? ==> forall t <- synced :: t.parentID in parents.elems)
  }

  /** A sync disturbs no channel of another home. */
  lemma SyncKeepsOther(m: map<string, Channel>, guildID: string, ts: seq<Channel>, parents: Slice<string>,
                       synced: seq<Channel>, archived: set<Channel>, homes: string -> Home, c: Channel)
    requires AtHome(m, homes) && SyncPayload(guildID, parents, synced, homes)
    requires ListsIndexed(m, guildID, Lists([], ts, []))
    requires Mapped(m, c) && (c.Home().ThreadHome? ==> c.guildID != guildID)
    ensures Mapped(ChannelMapAfterSync(m, ts, parents, synced, archived), c)
  {
    EnteredEntries(m - DroppedIDs(ts, parents, archived), synced);
  }

  /** The channel map loses the dropped IDs, gains the synced ones, and keeps everything else. */
  lemma SyncChangesExactly(m: map<string, Channel>, ts: seq<Channel>, parents: Slice<string>, synced: seq<Channel>,
                           archived: set<Channel>)
    requires DistinctChannels(synced)
    ensures var n, dropped := ChannelMapAfterSync(m, ts, parents, synced, archived), DroppedIDs(ts, parents, archived);
      && n.Keys == (m.Keys - dropped) + (set t | t in synced :: t.id)
      && (forall t <- synced :: Mapped(n, t))
      && (forall id <- m :: id !in dropped && (forall t <- synced :: t.id != id) ==> n[id] == m[id])
  {
    EnteredEntries(m - DroppedIDs(ts, parents, archived), synced);
  }

  lemma SyncMaps(m: map<string, Channel>, guildID: string, ts: seq<Channel>, parents: Slice<string>,
                 synced: seq<Channel>, archived: set<Channel>, homes: string -> Home)
    requires AtHome(m, homes) && SyncPayload(guildID, parents, synced, homes)
    requires ListsIndexed(m, guildID, Lists([], ts, []))
    ensures AtHome(ChannelMapAfterSync(m, ts, parents, synced, archived), homes)
    ensures ListsIndexed(ChannelMapAfterSync(m, ts, parents, synced, archived), guildID,
                         Lists([], ThreadsAfterSync(ts, parents, synced, archived), []))
  {
    var kept := Kept(ts, parents, archived);
    KeptElements(ts, parents, archived);
    DistinctIDsAreDistinct(synced);
    EnteredEntries(m - DroppedIDs(ts, parents, archived), synced);
    var m' := ChannelMapAfterSync(m, ts, parents, synced, archived);
    forall t <- kept ensures Mapped(m', t) && t !in synced {
      assert t in ts && Survives(t, parents, archived);
      assert forall u <- ts :: u.id == t.id ==> u == t;
    }
  }

  lemma SyncKeepsLists(m: map<string, Channel>, guildID: string, ts: seq<Channel>, parents: Slice<string>,
                       synced: seq<Channel>, archived: set<Channel>, homes: string -> Home, id: string, l: Lists)
    requires AtHome(m, homes) && SyncPayload(guildID, parents, synced, homes)
    requires ListsIndexed(m, guildID, Lists([], ts, [])) && ListsIndexed(m, id, l)
    requires id == guildID ==> l.threads == []
    ensures ListsIndexed(ChannelMapAfterSync(m, ts, parents, synced, archived), id, l)
  {
    forall c | c in l.channels + l.threads ensures Mapped(ChannelMapAfterSync(m, ts, parents, synced, archived), c) {
      SyncKeepsOther(m, guildID, ts, parents, synced, archived, homes, c);
    }
  }

  lemma SyncKeepsIndexed(s: Cache, guildID: string, parents: Slice<string>, synced: seq<Channel>,
                         archived: set<Channel>, homes: string -> Home)
    requires Indexed(s, homes) && SyncPayload(guildID, parents, synced, homes)
    ensures Indexed(SyncThreads(s, guildID, parents, synced, archived), homes)
  {
    var r := SyncThreads(s, guildID, parents, synced, archived);
    GuildsKept(s, r);
    if guildID in s.lists {
      var m, l := s.channelMap, s.lists[guildID];
      assert ListsIndexed(m, guildID, Lists([], l.threads, []));
      SyncMaps(m, guildID, l.threads, parents, synced, archived, homes);
      SyncKeepsLists(m, guildID, l.threads, parents, synced, archived, homes, guildID, l.(threads := []));
      forall c <- s.privates ensures Mapped(r.channelMap, c) {
        SyncKeepsOther(m, guildID, l.threads, parents, synced, archived, homes, c);
      }
      forall id <- r.lists ensures ListsIndexed(r.channelMap, id, r.lists[id]) {
        if id != guildID {
          SyncKeepsLists(m, guildID, l.threads, parents, synced, archived, homes, id, s.lists[id]);
        }
      }
    }
  }

  /** After a sync every entry of the map is an earlier entry or a synced thread, and is filed under its ID. */
  lemma SyncOwners(s: Cache, guildID: string, parents: Slice<string>, synced: seq<Channel>,
                   archived: set<Channel>, homes: string -> Home)
    requires Indexed(s, homes) && SyncPayload(guildID, parents, synced, homes) && guildID in s.lists
    ensures var m := SyncThreads(s, guildID, parents, synced, archived).channelMap;
            forall id <- m :: m[id].id == id && (m[id] in synced || (id in s.channelMap && m[id] == s.channelMap[id]))
  {
    EnteredEntries(s.channelMap - DroppedIDs(s.lists[guildID].threads, parents, archived), synced);
  }

  // ---------------------------------------------------------------- READY

  datatype ReadyGuild = ReadyGuild(g: Guild, channels: seq<Channel>, members: seq<Member>) {
    function Payload(): GuildPayload {
      GuildPayload(g.id, Slice(channels), Slice([]), Slice(members))
    }
  }

  /** READY guilds have distinct IDs and carry no threads; its private channels are private. */
  ghost predicate ReadyPayload(gs: seq<ReadyGuild>, privates: seq<Channel>, homes: string -> Home) {
    && (forall r <- gs :: WellFormed(r.Payload(), homes))
    && (forall i, j :: 0 <= i < j < |gs| ==> gs[i].g.id != gs[j].g.id)
    && (forall c <- privates :: c.Home() == homes(c.id) == PrivateHome)
    && DistinctChannels(privates)
  }

  function GuildsOf(gs: seq<ReadyGuild>): seq<Guild> {
    seq(|gs|, i requires 0 <= i < |gs| => gs[i].g)
  }

  ghost function EnterGuild(s: Cache, r: ReadyGuild): Cache
  {
    s.(guildMap := s.guildMap[r.g.id := r.g],
       channelMap := EnterChannels(s.channelMap, r.channels),
       memberMap := s.memberMap[r.g.id := MemberIndex(r.members)],
       lists := s.lists[r.g.id := Lists(r.channels, [], r.members)])
  }

  ghost function EnterGuilds(s: Cache, gs: seq<ReadyGuild>): Cache
  {
    if gs == [] then s else EnterGuild(EnterGuilds(s, gs[..|gs| - 1]), gs[|gs| - 1])
  }

  ghost function Ready(s: Cache, gs: seq<ReadyGuild>, privates: seq<Channel>): Cache
  {
    var e := EnterGuilds(s, gs);
    e.(guilds := GuildsOf(gs), privates := privates, channelMap := EnterChannels(e.channelMap, privates))
  }

  lemma EnterGuildsNext(s: Cache, gs: seq<ReadyGuild>, r: ReadyGuild)
    ensures EnterGuilds(s, gs + [r]) == EnterGuild(EnterGuilds(s, gs), r)
  {
    assert (gs + [r])[..|gs|] == gs;
  }

  /** READY with state tracking off: both lists become nil and the maps stay. */
  ghost function Cleared(s: Cache): Cache {
    s.(guilds := [], privates := [])
  }

  lemma ClearedKeeps(s: Cache, homes: string -> Home)
    requires Indexed(s, homes)
    ensures Indexed(Cleared(s), homes)
    ensures MembersIndexed(s) ==> MembersIndexed(Cleared(s))
  {
  }

  /** Entering a READY guild does to map and lists what adding it does. */
  lemma EnterIsAdd(s: Cache, r: ReadyGuild)
    ensures var e, a := EnterGuild(s, r), AddGuild(s, r.g, r.Payload());
      e.channelMap == a.channelMap && e.memberMap == a.memberMap && e.lists == a.lists
    ensures GuildsIndexed(s) && s.guilds == [] ==> GuildsIndexed(EnterGuild(s, r))
  {
    hide MemberIndex;
  }

  lemma EnterGuildKeeps(s: Cache, r: ReadyGuild, homes: string -> Home)
    requires Indexed(s, homes) && s.guilds == [] && s.privates == [] && WellFormed(r.Payload(), homes)
    ensures Indexed(EnterGuild(s, r), homes)
    ensures MembersIndexed(s) ==> MembersIndexed(EnterGuild(s, r))
  {
    var p := r.Payload();
    assert forall x <- p.members.Items() :: x.guildID == p.id;
    assert p.members == Slice(r.members) && DistinctUsers(r.members);
    hide GuildsIndexed, AtHome, PrivateListIndexed, AllListsIndexed, MembersKeyed, WellFormed, IndexesMembers, AddGuild;
    EnterIsAdd(s, r);
    AddGuildKeepsMaps(s, r.g, p, homes);
    PayloadMembersIndexed(p.id, r.members);
  }

  lemma AddGuildKeepsMaps(s: Cache, g: Guild, p: GuildPayload, homes: string -> Home)
    requires Indexed(s, homes) && WellFormed(p, homes) && g.id == p.id
    ensures var a := AddGuild(s, g, p);
      AtHome(a.channelMap, homes) && PrivateListIndexed(a.channelMap, s.privates)
      && AllListsIndexed(a.channelMap, a.lists) && MembersKeyed(a.memberMap)
  {
    AddGuildKeepsIndexed(s, g, p, homes);
  }

  lemma {:induction false} EnterGuildsKeeps(s: Cache, gs: seq<ReadyGuild>, homes: string -> Home)
    requires Indexed(s, homes) && s.guilds == [] && s.privates == [] && forall r <- gs :: WellFormed(r.Payload(), homes)
    ensures var e := EnterGuilds(s, gs);
            && Indexed(e, homes) && (MembersIndexed(s) ==> MembersIndexed(e))
            && e.guilds == [] && e.privates == []
  {
    if gs != [] {
      EnterGuildsKeeps(s, gs[..|gs| - 1], homes);
      EnterGuildKeeps(EnterGuilds(s, gs[..|gs| - 1]), gs[|gs| - 1], homes);
    }
  }

  lemma {:induction false} EnterGuildsMapped(s: Cache, gs: seq<ReadyGuild>)
    requires forall i, j :: 0 <= i < j < |gs| ==> gs[i].g.id != gs[j].g.id
    ensures forall r <- gs :: r.g.id in EnterGuilds(s, gs).guildMap && EnterGuilds(s, gs).guildMap[r.g.id] == r.g
  {
    if gs != [] {
      EnterGuildsMapped(s, gs[..|gs| - 1]);
      assert gs == gs[..|gs| - 1] + [gs[|gs| - 1]];
    }
  }

  lemma PrivatesEntered(s: Cache, privates: seq<Channel>, homes: string -> Home)
    requires Indexed(s, homes) && s.privates == [] && ReadyPayload([], privates, homes)
    ensures Indexed(s.(privates := privates, channelMap := EnterChannels(s.channelMap, privates)), homes)
  {
    var m := EnterChannels(s.channelMap, privates);
    EnterKeepsHomes(s.channelMap, privates, homes);
    DistinctIDsAreDistinct(privates);
    forall id <- s.lists ensures ListsIndexed(m, id, s.lists[id]) {
      assert ListsIndexed(s.channelMap, id, s.lists[id]);
    }
  }

  /** Listing the guilds that were just entered keeps the cache indexed. */
  lemma ListGuilds(s: Cache, gs: seq<ReadyGuild>, homes: string -> Home)
    requires Indexed(s, homes) && ReadyPayload(gs, [], homes)
    requires forall r <- gs :: r.g.id in s.guildMap && s.guildMap[r.g.id] == r.g
    ensures Indexed(s.(guilds := GuildsOf(gs)), homes)
  {
    assert forall i :: 0 <= i < |gs| ==> gs[i] in gs;
  }

  lemma ReadyKeeps(s: Cache, gs: seq<ReadyGuild>, privates: seq<Channel>, homes: string -> Home)
    requires Indexed(s, homes) && ReadyPayload(gs, privates, homes)
    ensures Indexed(Ready(s, gs, privates), homes)
    ensures MembersIndexed(s) ==> MembersIndexed(Ready(s, gs, privates))
  {
    var s0 := s.(guilds := [], privates := []);
    EnterGuildsKeeps(s0, gs, homes);
    EnterGuildsMapped(s0, gs);
    var e := EnterGuilds(s0, gs);
    EnterGuildsIgnoresLists(s, gs);
    assert Ready(s, gs, privates) == e.(
        guilds := GuildsOf(gs), privates := privates, channelMap := EnterChannels(e.channelMap, privates));
    PrivatesEntered(e, privates, homes);
    ListGuilds(e.(privates := privates, channelMap := EnterChannels(e.channelMap, privates)), gs, homes);
  }

  lemma {:induction false} EnterGuildsIgnoresLists(s: Cache, gs: seq<ReadyGuild>)
    ensures EnterGuilds(s, gs) ==
            EnterGuilds(s.(guilds := [], privates := []), gs).(guilds := s.guilds, privates := s.privates)
  {
    if gs != [] {
      EnterGuildsIgnoresLists(s, gs[..|gs| - 1]);
    }
  }

  // ---------------------------------------------------------------- every run

  datatype Step =
    | GuildPut(g: Guild, p: GuildPayload)
    | GuildDrop(guildID: string)
    | MemberPut(m: Member)
    | MemberDrop(guildID: string, userID: string)
    | ChannelPut(c: Channel)
    | ChannelDrop(channelID: string)
    | ThreadSync(guildID: string, parents: Slice<string>, synced: seq<Channel>, archived: set<Channel>)
    | ReadyStep(gs: seq<ReadyGuild>, privates: seq<Channel>)
    | ReadyUntracked

  /** What the payload of a step must satisfy, whatever the cache holds. */
  ghost predicate StepPayload(x: Step, homes: string -> Home) {
    match x
    case GuildPut(g, p) => g.id == p.id && WellFormed(p, homes)
    case ChannelPut(c) => c.Home() == homes(c.id)
    case ThreadSync(guildID, parents, synced, _) => SyncPayload(guildID, parents, synced, homes)
    case ReadyStep(gs, privates) => ReadyPayload(gs, privates, homes)
    case _ => true
  }

  ghost function Apply(s: Cache, x: Step, homes: string -> Home): Cache
    requires StepPayload(x, homes)
  {
    match x
    case GuildPut(g, p) => AddGuild(s, g, p)
    case GuildDrop(guildID) => RemoveGuild(s, guildID)
    case MemberPut(m) => AddMember(s, m)
    case MemberDrop(guildID, userID) => RemoveMember(s, guildID, userID)
    case ChannelPut(c) => AddChannel(s, c)
    case ChannelDrop(channelID) => RemoveChannel(s, channelID, homes(channelID))
    case ThreadSync(guildID, parents, synced, archived) => SyncThreads(s, guildID, parents, synced, archived)
    case ReadyStep(gs, privates) => Ready(s, gs, privates)
    case ReadyUntracked => Cleared(s)
  }

  ghost function Run(s: Cache, xs: seq<Step>, homes: string -> Home): Cache
    requires forall x <- xs :: StepPayload(x, homes)
  {
    if xs == [] then s else Apply(Run(s, xs[..|xs| - 1], homes), xs[|xs| - 1], homes)
  }

  /** The step re-adds a removed guild without its members, which stay behind in memberMap. */
  ghost predicate Bare(s: Cache, x: Step) {
    x.GuildPut? && ReturnsBare(s, x.p)
  }

  lemma ApplyKeepsIndexed(s: Cache, x: Step, homes: string -> Home)
    requires Indexed(s, homes) && StepPayload(x, homes)
    ensures Indexed(Apply(s, x, homes), homes)
  {
    hide Indexed, WellFormed, SyncPayload, ReadyPayload, AddGuild, RemoveGuild, AddMember, RemoveMember, AddChannel;
    hide RemoveChannel, SyncThreads, Ready, Cleared, MembersIndexed, IsSlot, At;
    match x
    case GuildPut(g, p) => AddGuildKeepsIndexed(s, g, p, homes);
    case GuildDrop(guildID) => RemoveGuildKeeps(s, guildID, homes);
    case MemberPut(m) => AddMemberKeepsIndexed(s, m, homes);
    case MemberDrop(guildID, userID) => RemoveMemberKeepsIndexed(s, guildID, userID, homes);
    case ChannelPut(c) => AddChannelKeepsIndexed(s, c, homes);
    case ChannelDrop(channelID) => RemoveKeepsIndexed(s, channelID, homes);
    case ThreadSync(guildID, parents, synced, archived) =>
      SyncKeepsIndexed(s, guildID, parents, synced, archived, homes);
    case ReadyStep(gs, privates) => ReadyKeeps(s, gs, privates, homes);
    case ReadyUntracked => ClearedKeeps(s, homes);
  }

  lemma ApplyKeepsMembers(s: Cache, x: Step, homes: string -> Home)
    requires Indexed(s, homes) && StepPayload(x, homes) && MembersIndexed(s)
    ensures MembersIndexed(Apply(s, x, homes)) <==> !Bare(s, x)
  {
    assert GuildsIndexed(s);
    hide Indexed, WellFormed, SyncPayload, ReadyPayload, AddGuild, RemoveGuild, AddMember, RemoveMember, AddChannel;
    hide RemoveChannel, SyncThreads, Ready, Cleared, MembersIndexed, ReturnsBare, GuildsIndexed;
    match x
    case GuildPut(g, p) => AddGuildKeepsMembers(s, g, p, homes);
    case GuildDrop(guildID) => RemoveGuildKeeps(s, guildID, homes);
    case MemberPut(m) => AddMemberKeepsMembers(s, m);
    case MemberDrop(guildID, userID) => RemoveMemberKeepsMembers(s, guildID, userID);
    case ChannelPut(c) => AddChannelKeepsMembers(s, c);
    case ChannelDrop(channelID) => RemoveChannelKeepsMembers(s, channelID, homes(channelID));
    case ThreadSync(guildID, parents, synced, archived) =>
      SyncKeepsIndexed(s, guildID, parents, synced, archived, homes);
    case ReadyStep(gs, privates) => ReadyKeeps(s, gs, privates, homes);
    case ReadyUntracked => ClearedKeeps(s, homes);
  }

  lemma ApplyKeeps(s: Cache, x: Step, homes: string -> Home)
    requires Indexed(s, homes) && StepPayload(x, homes)
    ensures Indexed(Apply(s, x, homes), homes)
    ensures MembersIndexed(s) ==> (MembersIndexed(Apply(s, x, homes)) <==> !Bare(s, x))
  {
    hide Indexed, Apply, MembersIndexed, Bare, StepPayload;
    ApplyKeepsIndexed(s, x, homes);
    if MembersIndexed(s) {
      ApplyKeepsMembers(s, x, homes);
    }
  }

  /** Over every run from NewState, the guild and channel lists agree with the indexes. */
  lemma {:induction false} RunKeepsIndexed(xs: seq<Step>, homes: string -> Home)
    requires forall x <- xs :: StepPayload(x, homes)
    ensures Indexed(Run(EMPTY, xs, homes), homes)
  {
    if xs != [] {
      RunKeepsIndexed(xs[..|xs| - 1], homes);
      ApplyKeeps(Run(EMPTY, xs[..|xs| - 1], homes), xs[|xs| - 1], homes);
    }
  }

  /** Over every run from NewState in which no guild returns bare, memberMap is the index of the member lists. */
  lemma {:induction false} RunKeepsMembers(xs: seq<Step>, homes: string -> Home)
    requires forall x <- xs :: StepPayload(x, homes)
    requires forall i :: 0 <= i < |xs| ==> !Bare(Run(EMPTY, xs[..i], homes), xs[i])
    ensures MembersIndexed(Run(EMPTY, xs, homes))
  {
    if xs != [] {
      var before := xs[..|xs| - 1];
      assert forall i :: 0 <= i < |before| ==> before[..i] == xs[..i];
      RunKeepsMembers(before, homes);
      RunKeepsIndexed(before, homes);
      ApplyKeeps(Run(EMPTY, before, homes), xs[|xs| - 1], homes);
    }
  }

  /** Such a run: a guild arrives with a member, is removed, and comes back without a member list. */
  lemma BareReturnLosesIndex(g: Guild, m: Member, homes: string -> Home)
    requires m.guildID == g.id
    ensures var xs := [GuildPut(g, GuildPayload(g.id, NilSlice, NilSlice, Slice([m]))), GuildDrop(g.id),
                       GuildPut(g, GuildPayload(g.id, NilSlice, NilSlice, NilSlice))];
            && (forall x <- xs :: StepPayload(x, homes))
            && !MembersIndexed(Run(EMPTY, xs, homes))
            && m.userID in Run(EMPTY, xs, homes).memberMap[g.id]
            && Run(EMPTY, xs, homes).lists[g.id].members == []
  {
    var p1, p2 := GuildPayload(g.id, NilSlice, NilSlice, Slice([m])), GuildPayload(g.id, NilSlice, NilSlice, NilSlice);
    var xs := [GuildPut(g, p1), GuildDrop(g.id), GuildPut(g, p2)];
    assert xs[..2] == [GuildPut(g, p1), GuildDrop(g.id)];
    assert xs[..2][..1] == [GuildPut(g, p1)] && xs[..2][..1][..0] == [];
    var s1 := Run(EMPTY, xs[..2][..1], homes);
    assert Run(EMPTY, xs[..2][..1][..0], homes) == EMPTY;
    assert s1 == AddGuild(EMPTY, g, p1);
    var s2 := Run(EMPTY, xs[..2], homes);
    assert s2 == RemoveGuild(s1, g.id);
    assert m.userID in MemberIndex([m]) by { assert m in [m]; }
    assert m.userID in s2.memberMap[g.id];
  }

  // ---------------------------------------------------------------- where channel entries come from

  /** Every entry of n is the one m has there, or one of these channels. */
  ghost predicate Drawn(m: map<string, Channel>, n: map<string, Channel>, brought: set<Channel>) {
    forall id <- n :: (id in m && n[id] == m[id]) || n[id] in brought
  }

  ghost function ChannelsOf(gs: seq<ReadyGuild>): set<Channel> {
    set r, c | r in gs && c in r.channels :: c
  }

  ghost function ChannelSet(cs: seq<Channel>): set<Channel> {
    set c | c in cs
  }

  /** The channels a step brings. */
  ghost function Brings(x: Step): set<Channel> {
    match x
    case GuildPut(_, p) => ChannelSet(p.channels.Items()) + ChannelSet(p.threads.Items())
    case ChannelPut(c) => {c}
    case ThreadSync(_, _, synced, _) => ChannelSet(synced)
    case ReadyStep(gs, privates) => ChannelsOf(gs) + ChannelSet(privates)
    case _ => {}
  }

  lemma EnteredDrawn(m: map<string, Channel>, n: map<string, Channel>, brought: set<Channel>, cs: seq<Channel>)
    requires Drawn(m, n, brought)
    ensures Drawn(m, EnterChannels(n, cs), brought + ChannelSet(cs))
  {
    EnteredEntries(n, cs);
  }

  lemma {:induction false} EnterGuildsDrawn(s: Cache, gs: seq<ReadyGuild>)
    ensures Drawn(s.channelMap, EnterGuilds(s, gs).channelMap, ChannelsOf(gs))
  {
    if gs != [] {
      var front, r := gs[..|gs| - 1], gs[|gs| - 1];
      assert gs == front + [r];
      EnterGuildsDrawn(s, front);
      EnteredDrawn(s.channelMap, EnterGuilds(s, front).channelMap, ChannelsOf(front), r.channels);
      assert ChannelsOf(front) + ChannelSet(r.channels) <= ChannelsOf(gs);
    }
  }

  /** After a step a channel ID maps to what it mapped to before, to a channel the step brings, or to nothing. */
  lemma ApplyDraws(s: Cache, x: Step, homes: string -> Home)
    requires StepPayload(x, homes)
    ensures Drawn(s.channelMap, Apply(s, x, homes).channelMap, Brings(x))
  {
    hide StepPayload, Kept, DroppedIDs, MemberMapWith, MemberIndex, Merged, EnterChannels, EnterGuilds;
    match x
    case GuildPut(g, p) =>
      EnteredDrawn(s.channelMap, s.channelMap, {}, p.channels.Items());
      var m := EnterChannels(s.channelMap, p.channels.Items());
      EnteredDrawn(s.channelMap, m, {} + ChannelSet(p.channels.Items()), p.threads.Items());
    case ThreadSync(guildID, parents, synced, archived) =>
      if guildID in s.lists {
        var m := s.channelMap - DroppedIDs(s.lists[guildID].threads, parents, archived);
        EnteredDrawn(s.channelMap, m, {}, synced);
      }
    case ReadyStep(gs, privates) =>
      EnterGuildsDrawn(s, gs);
      EnteredDrawn(s.channelMap, EnterGuilds(s, gs).channelMap, ChannelsOf(gs), privates);
    case _ =>
  }

  ghost function GuildSet(gs: seq<ReadyGuild>): set<Guild> {
    set r | r in gs :: r.g
  }

  /** The guilds a step brings. */
  ghost function BringsGuilds(x: Step): set<Guild> {
    match x
    case GuildPut(g, _) => {g}
    case ReadyStep(gs, _) => GuildSet(gs)
    case _ => {}
  }

  lemma {:induction false} EnterGuildsBrings(s: Cache, gs: seq<ReadyGuild>)
    ensures EnterGuilds(s, gs).guildMap.Values <= s.guildMap.Values + GuildSet(gs)
  {
    if gs != [] {
      var front, r := gs[..|gs| - 1], gs[|gs| - 1];
      assert gs == front + [r];
      EnterGuildsBrings(s, front);
      assert GuildSet(gs) == GuildSet(front) + {r.g};
      var m := EnterGuilds(s, front).guildMap;
      assert m[r.g.id := r.g].Values <= m.Values + {r.g};
    }
  }

  /** No guild is known after a step that was not known before or brought by it. */
  lemma ApplyBringsGuilds(s: Cache, x: Step, homes: string -> Home)
    requires StepPayload(x, homes)
    ensures Apply(s, x, homes).guildMap.Values <= s.guildMap.Values + BringsGuilds(x)
  {
    hide StepPayload, ChannelMapWith, MemberMapWith, EnterChannels, EnterGuilds;
    match x
    case ReadyStep(gs, privates) => EnterGuildsBrings(s, gs);
    case _ =>
  }

  // ---------------------------------------------------------------- what an indexed cache gives its readers

  /** A position in one of the channel lists of a listed guild, or in the private list. */
  datatype Slot = PrivateSlot(i: nat) | ChannelSlot(guildID: string, i: nat) | ThreadSlot(guildID: string, i: nat)

  ghost predicate IsSlot(s: Cache, a: Slot) {
    match a
    case PrivateSlot(i) => i < |s.privates|
    case ChannelSlot(g, i) => g in s.lists && i < |s.lists[g].channels|
    case ThreadSlot(g, i) => g in s.lists && i < |s.lists[g].threads|
  }

  ghost function At(s: Cache, a: Slot): Channel
    requires IsSlot(s, a)
  {
    match a
    case PrivateSlot(i) => s.privates[i]
    case ChannelSlot(g, i) => s.lists[g].channels[i]
    case ThreadSlot(g, i) => s.lists[g].threads[i]
  }

  /** Every listed channel is the object its ID maps to, and no channel ID is listed twice anywhere. */
  lemma NoChannelListedTwice(s: Cache, homes: string -> Home, a: Slot, b: Slot)
    requires Indexed(s, homes) && IsSlot(s, a) && IsSlot(s, b)
    ensures Mapped(s.channelMap, At(s, a))
    ensures At(s, a).id == At(s, b).id ==> a == b
  {
    assert a.ChannelSlot? || a.ThreadSlot? ==> ListsIndexed(s.channelMap, a.guildID, s.lists[a.guildID]);
    assert b.ChannelSlot? || b.ThreadSlot? ==> ListsIndexed(s.channelMap, b.guildID, s.lists[b.guildID]);
    if At(s, a).id == At(s, b).id {
      SlotHome(s, a);
      SlotHome(s, b);
      assert At(s, a) == At(s, b);
    }
  }

  lemma SlotHome(s: Cache, a: Slot)
    requires PrivateListIndexed(s.channelMap, s.privates) && AllListsIndexed(s.channelMap, s.lists) && IsSlot(s, a)
    ensures Mapped(s.channelMap, At(s, a))
    ensures a.PrivateSlot? <==> At(s, a).Home() == PrivateHome
    ensures a.ChannelSlot? <==> At(s, a).Home().GuildHome?
    ensures a.ThreadSlot? <==> At(s, a).Home().ThreadHome?
    ensures !a.PrivateSlot? ==> At(s, a).Home().guildID == a.guildID
  {
    assert !a.PrivateSlot? ==> ListsIndexed(s.channelMap, a.guildID, s.lists[a.guildID]);
  }

  lemma NoGuildListedTwice(s: Cache, homes: string -> Home, i: nat, j: nat)
    requires Indexed(s, homes) && i < |s.guilds| && j < |s.guilds|
    ensures s.guilds[i].id in s.guildMap && s.guildMap[s.guilds[i].id] == s.guilds[i]
    ensures s.guilds[i].id == s.guilds[j].id ==> i == j
  {
    assert s.guilds[j] in s.guilds;
  }
}
