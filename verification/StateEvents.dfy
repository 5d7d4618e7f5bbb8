/** OnInterface: which step of the cache each gateway event becomes, given what the state is told to track. */
module StateEvents {
  import opened Wrappers
  import opened Entities
  import C = CacheModel
  import Q = MessageModel
  import opened StateCache

  datatype Tracking = Tracking(enabled: bool, members: bool, channels: bool, threads: bool)

  /** The events that reach guilds, members and channels, with their payloads decoded to fresh objects. */
  datatype Event =
    | GuildSent(guild: Guild)                       // GUILD_CREATE, GUILD_UPDATE
    | GuildDeleted(guildID: string)
    | MemberJoined(member: Member)
    | MemberSent(member: Member)                    // GUILD_MEMBER_UPDATE
    | MemberLeft(guildID: string, userID: string)
    | ChannelSent(channel: Channel, update: bool)   // CHANNEL_CREATE, CHANNEL_UPDATE
    | ChannelDeleted(channel: Channel)
    | ThreadSent(channel: Channel, update: bool)    // THREAD_CREATE, THREAD_UPDATE
    | ThreadDeleted(channel: Channel)
    | ThreadsSynced(guildID: string, parents: Slice<string>, synced: seq<Channel>, mine: seq<(string, string)>)
    | PresenceSent(member: Member, offline: bool)   // the member the event would make of an unknown user
    | ReadySent(guilds: seq<Guild>, privates: seq<Channel>)
    | MessageSent(message: Message)                 // MESSAGE_CREATE, MESSAGE_UPDATE
    | MessageDeleted(channelID: string, messageID: string)
    | MessagesDeleted(channelID: string, ids: seq<string>)

  /** The guilds a payload brings. */
  ghost function GuildsIn(e: Event): set<Guild> {
    match e
    case GuildSent(g) => {g}
    case ReadySent(gs, _) => set g | g in gs
    case _ => {}
  }

  /** The message a payload brings. */
  ghost function MessagesIn(e: Event): set<Message> {
    if e.MessageSent? then {e.message} else {}
  }

  /** The threads of the guild a sync is about. */
  ghost function ThreadsAt(s: State, e: Event): seq<Channel>
    reads s`guildMap, s.guildMap.Values`threads
  {
    if e.ThreadsSynced? && e.guildID in s.guildMap then s.guildMap[e.guildID].threads.Items() else []
  }

  /** The channels a payload brings. */
  ghost function ChannelsIn(e: Event): set<Channel>
    reads GuildsIn(e)
  {
    match e
    case GuildSent(g) => C.ChannelSet(g.channels.Items()) + C.ChannelSet(g.threads.Items())
    case ChannelSent(c, _) => {c}
    case ThreadSent(c, _) => {c}
    case ThreadsSynced(_, _, synced, _) => C.ChannelSet(synced)
    case ReadySent(gs, privates) => C.ChannelsOf(ReadyOf(gs)) + C.ChannelSet(privates)
    case _ => {}
  }

  /** A channel to be added or updated; only a thread that is not known yet must bring its metadata. */
  ghost predicate AcceptableChannel(s: State, c: Channel)
    reads s`channelMap, c`messages, c`archived
  {
    c.Home() == s.homes(c.id) && c.messages == NilSlice && (c.id in s.channelMap || Decoded(c))
  }

  /** A payload fit for any state. Channels come from JSON, so without messages, and threads have their metadata. */
  ghost predicate Receivable(homes: string -> Home, e: Event)
    reads GuildsIn(e), ChannelsIn(e)`messages, ChannelsIn(e)`archived
  {
    && (forall c <- ChannelsIn(e) :: Decoded(c))
    && match e
      case GuildSent(g) => C.WellFormed(PayloadOf(g), homes)
      case ChannelSent(c, _) => c.Home() == homes(c.id)
      case ThreadSent(c, _) => c.Home() == homes(c.id)
      case ChannelDeleted(c) => c.Home() == homes(c.id)
      case ThreadDeleted(c) => c.Home() == homes(c.id)
      case ThreadsSynced(guildID, parents, synced, _) => C.SyncPayload(guildID, parents, synced, homes)
      case ReadySent(gs, privates) =>
        C.ReadyPayload(ReadyOf(gs), privates, homes) && forall g <- gs :: g.threads.Items() == []
      case _ => true
  }

  /** What a payload must satisfy. */
  ghost predicate Acceptable(s: State, e: Event)
    reads s`channelMap, GuildsIn(e), ChannelsIn(e)`messages, ChannelsIn(e)`archived
  {
    if e.ChannelSent? || e.ThreadSent? then AcceptableChannel(s, e.channel) else Receivable(s.homes, e)
  }

  /** The step of the cache model this event is, in this state; None if the cache does not react. */
  ghost function StepOf(s: State, e: Event, t: Tracking): (step: Option<C.Step>)
    requires Acceptable(s, e)
    reads s`guildMap, s`channelMap, s.guildMap.Values, GuildsIn(e), ThreadsAt(s, e)`archived
    reads ChannelsIn(e)`messages, ChannelsIn(e)`archived
    ensures step.Some? ==> C.StepPayload(step.value, s.homes)
  {
    if e.ReadySent? then
      Some(if t.enabled then C.ReadyStep(ReadyOf(e.guilds), e.privates) else C.ReadyUntracked)
    else if !t.enabled then None
    else
      match e
      case GuildSent(g) => Some(C.GuildPut(g, PayloadOf(g)))
      case GuildDeleted(guildID) => Some(C.GuildDrop(guildID))
      case MemberJoined(m) => if t.members then Some(C.MemberPut(m)) else None
      case MemberSent(m) => if t.members then Some(C.MemberPut(m)) else None
      case MemberLeft(guildID, userID) => if t.members then Some(C.MemberDrop(guildID, userID)) else None
      case ChannelSent(c, _) => if t.channels then Some(C.ChannelPut(c)) else None
      case ChannelDeleted(c) => if t.channels then Some(C.ChannelDrop(c.id)) else None
      case ThreadSent(c, _) => if t.threads then Some(C.ChannelPut(c)) else None
      case ThreadDeleted(c) => if t.threads then Some(C.ChannelDrop(c.id)) else None
      case ThreadsSynced(guildID, parents, synced, mine) =>
        if t.threads && guildID in s.guildMap
        then Some(C.ThreadSync(guildID, parents, synced, ArchivedIn(ThreadsAt(s, e)))) else None
      case PresenceSent(m, offline) => if t.members && !offline then Some(C.MemberPut(m)) else None
      case _ => None
  }

  /** The count of this guild moves by delta, no other does. */
  twostate predicate CountMoved(s: State, guildID: string, delta: int)
    reads s`guildMap, s.guildMap.Values`memberCount
  {
    && s.guildMap == old(s.guildMap)
    && forall id <- s.guildMap ::
         s.guildMap[id].memberCount == old(s.guildMap[id].memberCount) + if id == guildID then delta else 0
  }

  method ChangeMemberCount(s: State, guildID: string, delta: int)
    requires s.Valid() && guildID in s.guildMap
    modifies s.GuildAt(guildID)`memberCount
    ensures s.Valid() && s.Snapshot() == old(s.Snapshot())
    ensures CountMoved(s, guildID, delta)
  {
    OwnGuilds(s);
    hide C.Indexed;
    var g := s.guildMap[guildID];
    g.memberCount := g.memberCount + delta;
    assert s.AllLists() == old(s.AllLists());
  }

  /** A guild that is not in the map has no lists to change. */
  lemma UnknownGuildLeft(s: State, guildID: string, userID: string)
    requires s.Valid() && guildID !in s.guildMap
    ensures C.RemoveMember(s.Snapshot(), guildID, userID) == s.Snapshot()
  {
  }

  lemma UnknownGuildJoined(s: State, m: Member)
    requires s.Valid() && m.guildID !in s.guildMap
    ensures C.AddMember(s.Snapshot(), m) == s.Snapshot()
  {
  }

  /** GUILD_MEMBER_ADD: count, then cache if members are tracked. */
  method MemberJoins(s: State, m: Member, track: bool) returns (st: Status)
    requires s.Valid()
    modifies s`memberMap, m, s.GuildAt(m.guildID)`members, s.GuildAt(m.guildID)`memberCount
    modifies s.MemberAt(m.guildID, m.userID)
    ensures s.Valid()
    ensures s.Snapshot() == if track then C.AddMember(old(s.Snapshot()), m) else old(s.Snapshot())
    ensures st == if m.guildID in old(s.guildMap) then Ok else NotFound
    ensures s.guildMap == old(s.guildMap)
    ensures CountMoved(s, m.guildID, 1)
    ensures track ==> MemberTaken(s, m)
  {
    hide State.Valid, State.Snapshot, C.AddMember;
    if m.guildID !in s.guildMap {
      UnknownGuildJoined(s, m);
    }
    var guild := s.GuildByID(m.guildID);
    if guild.None? {
      return NotFound;
    }
    ChangeMemberCount(s, m.guildID, 1);
    st := Ok;
    if track {
      st := s.MemberAdd(m);
    }
  }

  /** GUILD_MEMBER_REMOVE: count, then forget if members are tracked. */
  method MemberLeaves(s: State, guildID: string, userID: string, track: bool) returns (st: Status)
    requires s.Valid()
    modifies s`memberMap, s.GuildAt(guildID)`members, s.GuildAt(guildID)`memberCount
    ensures s.Valid()
    ensures s.Snapshot() == if track then C.RemoveMember(old(s.Snapshot()), guildID, userID) else old(s.Snapshot())
    ensures st == if guildID in s.guildMap then Ok else NotFound
    ensures CountMoved(s, guildID, -1)
  {
    hide State.Valid, State.Snapshot, C.RemoveMember;
    if guildID !in s.guildMap {
      UnknownGuildLeft(s, guildID, userID);
    }
    var guild := s.GuildByID(guildID);
    if guild.None? {
      return NotFound;
    }
    ChangeMemberCount(s, guildID, -1);
    if track {
      var _ := s.MemberRemove(guildID, userID);
    }
    return Ok;
  }

  /** The channel whose messages an event is about. */
  function QueueOf(e: Event): string {
    match e
    case MessageSent(m) => m.channelID
    case MessageDeleted(channelID, _) => channelID
    case MessagesDeleted(channelID, _) => channelID
    case _ => ""
  }

  predicate IsMemberEvent(e: Event) {
    e.MemberJoined? || e.MemberSent? || e.MemberLeft? || e.PresenceSent?
  }

  predicate IsMessageEvent(e: Event) {
    e.MessageSent? || e.MessageDeleted? || e.MessagesDeleted?
  }

  predicate IsGuildEvent(e: Event) {
    e.GuildSent? || e.GuildDeleted? || e.ReadySent?
  }

  predicate IsChannelEvent(e: Event) {
    e.ChannelSent? || e.ChannelDeleted? || e.ThreadSent? || e.ThreadDeleted? || e.ThreadsSynced?
  }

  /** The guilds an event overwrites. */
  ghost function GuildsOf(s: State, e: Event): set<Guild>
    reads s`guildMap
  {
    if e.GuildSent? then {e.guild} + s.GuildAt(e.guild.id) else {}
  }

  /** The guild whose lists or member count an event changes. */
  ghost function ListedIn(s: State, e: Event): set<Guild>
    reads s`guildMap
  {
    match e
    case MemberJoined(m) => s.GuildAt(m.guildID)
    case MemberSent(m) => s.GuildAt(m.guildID)
    case PresenceSent(m, _) => s.GuildAt(m.guildID)
    case MemberLeft(guildID, _) => s.GuildAt(guildID)
    case ChannelSent(c, _) => s.GuildAt(c.guildID)
    case ThreadSent(c, _) => s.GuildAt(c.guildID)
    case ChannelDeleted(c) => s.GuildAt(c.guildID)
    case ThreadDeleted(c) => s.GuildAt(c.guildID)
    case ThreadsSynced(guildID, _, _, _) => s.GuildAt(guildID)
    case _ => {}
  }

  /** The members an event overwrites. */
  ghost function MembersOf(s: State, e: Event): set<Member>
    reads s`memberMap
  {
    match e
    case MemberJoined(m) => {m} + s.MemberAt(m.guildID, m.userID)
    case MemberSent(m) => {m} + s.MemberAt(m.guildID, m.userID)
    case PresenceSent(m, _) => {m} + s.MemberAt(m.guildID, m.userID)
    case _ => {}
  }

  /** The channels an event overwrites. */
  ghost function ChannelsOf(s: State, e: Event): set<Channel>
    reads s`channelMap
  {
    match e
    case ChannelSent(c, _) => {c} + s.ChannelAt(c.id)
    case ThreadSent(c, _) => {c} + s.ChannelAt(c.id)
    case _ => {}
  }

  /** The threads whose membership a sync may set. */
  ghost function MarkedBy(s: State, e: Event): set<Channel>
    reads s`channelMap
  {
    if e.ThreadsSynced? then s.channelMap.Values + C.ChannelSet(e.synced) else {}
  }

  /** The channel whose messages an event changes. */
  ghost function QueueChannel(s: State, e: Event): set<Channel>
    reads s`channelMap
  {
    if IsMessageEvent(e) then s.ChannelAt(QueueOf(e)) else {}
  }

  /** The messages an event merges into. */
  ghost function MergedBy(s: State, e: Event): set<Message>
    reads s`channelMap, s.ChannelAt(QueueOf(e))`messages
  {
    if e.MessageSent? then set m | m in s.MessagesAt(QueueOf(e)) else {}
  }

  /** A join counts its guild up by one and a leave counts it down; no other count of a guild that stays changes. */
  twostate predicate Counted(s: State, e: Event, t: Tracking)
    reads s`guildMap, s.guildMap.Values`memberCount
  {
    forall id <- s.guildMap :: id in old(s.guildMap) && s.guildMap[id] == old(s.guildMap[id]) && !e.GuildSent? ==>
      s.guildMap[id].memberCount == old(s.guildMap[id].memberCount) +
        (if t.enabled && e.MemberJoined? && e.member.guildID == id then 1
         else if t.enabled && e.MemberLeft? && e.guildID == id then -1 else 0)
  }

  /** A known member takes the fields of the payload. */
  twostate predicate MemberTaken(s: State, m: Member)
    reads *
  {
    old(m.guildID in s.guildMap && m.guildID in s.memberMap && m.userID in s.memberMap[m.guildID]) ==>
      MemberUpdated(old(s.memberMap)[m.guildID][m.userID], m)
  }

  /** A known channel takes the fields of the payload. */
  twostate predicate ChannelTaken(s: State, c: Channel)
    reads *
  {
    c.id in old(s.channelMap) ==> Updated(old(s.channelMap)[c.id], c)
  }

  /** What a tracked event does to the fields of the objects that it finds in the cache. */
  twostate predicate FieldsTaken(s: State, e: Event, t: Tracking)
    reads *
  {
    t.enabled ==>
      match e
      case GuildSent(g) => g.id in old(s.guildMap) ==> GuildUpdated(old(s.guildMap)[g.id], g)
      case MemberJoined(m) => t.members ==> MemberTaken(s, m)
      case MemberSent(m) => t.members ==> MemberTaken(s, m)
      case PresenceSent(m, offline) => t.members && !offline ==>
        forall known <- old(s.MemberAt(m.guildID, m.userID)) :: Renamed(known, old(m.username))
      case ChannelSent(c, _) => t.channels ==> ChannelTaken(s, c)
      case ThreadSent(c, _) => t.threads ==> ChannelTaken(s, c)
      case ThreadsSynced(guildID, _, _, mine) =>
        t.threads && guildID in s.guildMap ==>
          Marked(mine, (old(s.channelMap).Values + C.ChannelSet(e.synced)) * s.channelMap.Values)
      case _ => true
  }

  /** The cache after an event: the step it is, if the cache reacts to it. */
  ghost function After(c: C.Cache, step: Option<C.Step>, homes: string -> Home): C.Cache
    requires step.Some? ==> C.StepPayload(step.value, homes)
  {
    if step.None? then c else C.Apply(c, step.value, homes)
  }

  /** The name a presence leaves a known user with; nothing else of the member changes. */
  twostate predicate Renamed(known: Member, name: string)
    reads known
  {
    && known.username == (if name != "" then name else old(known.username))
    && known.joinedAt == old(known.joinedAt) && known.nick == old(known.nick) && known.roles == old(known.roles)
  }

  /** A known user is renamed and then added again with the same object. */
  method SeeKnown(s: State, known: Member, name: string) returns (st: Status)
    requires s.Valid() && s.MemberAt(known.guildID, known.userID) == {known}
    modifies s`memberMap, known, s.GuildAt(known.guildID)`members
    ensures s.Valid() && s.Snapshot() == C.AddMember(old(s.Snapshot()), known)
    ensures st == if known.guildID in s.guildMap then Ok else NotFound
    ensures Renamed(known, name)
  {
    hide C.Indexed, C.AddMember;
    if name != "" {
      known.username := name;
    }
    st := s.MemberAdd(known);
  }

  /** OnInterface for a member seen in a presence: an unknown user is added with the bare member of the payload. */
  method SeePresence(s: State, m: Member) returns (st: Status)
    requires s.Valid()
    modifies s`memberMap, m, s.GuildAt(m.guildID)`members, s.MemberAt(m.guildID, m.userID)
    ensures s.Valid() && s.Snapshot() == C.AddMember(old(s.Snapshot()), m)
    ensures st == if m.guildID in s.guildMap then Ok else NotFound
    ensures forall known <- old(s.MemberAt(m.guildID, m.userID)) :: Renamed(known, old(m.username))
  {
    assert m.guildID in s.memberMap ==> C.Keyed(s.memberMap[m.guildID], m.guildID);
    hide C.Indexed, C.AddMember;
    if m.guildID in s.memberMap && m.userID in s.memberMap[m.guildID] {
      SameUser(s.Snapshot(), s.memberMap[m.guildID][m.userID], m);
      st := SeeKnown(s, s.memberMap[m.guildID][m.userID], m.username);
    } else {
      st := s.MemberAdd(m);
    }
  }

  /** Adding a member that is known changes no list and no index, so it does not matter which object brings it. */
  lemma SameUser(c: C.Cache, known: Member, m: Member)
    requires known.guildID == m.guildID && known.userID == m.userID
    requires m.guildID in c.memberMap && m.userID in c.memberMap[m.guildID]
    ensures C.AddMember(c, known) == C.AddMember(c, m)
  {
  }

  /** What OnInterface returns; the errors of channel updates and of deletions are lost in a shadowed variable. */
  ghost function StatusOf(s: State, e: Event, t: Tracking): Status
    reads s, s.ChannelAt(QueueOf(e))`messages, s.MessagesAt(QueueOf(e))`body
  {
    if !t.enabled then Ok
    else
      match e
      case GuildDeleted(guildID) => Found(guildID in s.guildMap)
      case MemberJoined(m) => Found(m.guildID in s.guildMap)
      case MemberSent(m) => Found(t.members ==> m.guildID in s.guildMap)
      case MemberLeft(guildID, _) => Found(guildID in s.guildMap)
      case ChannelSent(c, update) => Found(t.channels && !update ==> HasPlace(s, c))
      case ThreadSent(c, update) => Found(t.threads && !update ==> HasPlace(s, c))
      case ThreadsSynced(guildID, _, _, _) => Found(t.threads ==> guildID in s.guildMap)
      case PresenceSent(m, offline) => Found(t.members && !offline ==> m.guildID in s.guildMap)
      case MessageSent(m) => Found(s.maxMessageCount != 0 ==> m.channelID in s.channelMap)
      case MessageDeleted(channelID, messageID) =>
        Found(s.maxMessageCount != 0 ==> channelID in s.channelMap && Q.Has(s.QueueAt(channelID), messageID))
      case _ => Ok
  }

  function Found(found: bool): Status {
    if found then Ok else NotFound
  }

  /** A channel is known already or can be listed somewhere. */
  ghost predicate HasPlace(s: State, c: Channel)
    reads s`guildMap, s`channelMap
  {
    c.id in s.channelMap || c.Home() == PrivateHome || c.guildID in s.guildMap
  }

  /** The cache does not react to: what it is told not to track, unknown guilds in a sync, and messages. */
  lemma NoReaction(s: State, e: Event, t: Tracking)
    requires Acceptable(s, e)
    ensures StepOf(s, e, t).None? <==>
      && !e.ReadySent?
      && (|| !t.enabled || IsMessageEvent(e)
          || (!t.members && (e.MemberJoined? || e.MemberSent? || e.MemberLeft? || e.PresenceSent?))
          || (!t.channels && (e.ChannelSent? || e.ChannelDeleted?))
          || (!t.threads && (e.ThreadSent? || e.ThreadDeleted? || e.ThreadsSynced?))
          || (e.PresenceSent? && e.offline) || (e.ThreadsSynced? && e.guildID !in s.guildMap))
  {
  }

  /** What it does otherwise. */
  lemma Reaction(s: State, e: Event, t: Tracking)
    requires Acceptable(s, e) && StepOf(s, e, t).Some?
    ensures var c := s.Snapshot();
      After(c, StepOf(s, e, t), s.homes) ==
      match e
      case GuildSent(g) => C.AddGuild(c, g, C.GuildPayload(g.id, g.channels, g.threads, g.members))
      case GuildDeleted(guildID) => C.RemoveGuild(c, guildID)
      case MemberJoined(m) => C.AddMember(c, m)
      case MemberSent(m) => C.AddMember(c, m)
      case PresenceSent(m, _) => C.AddMember(c, m)
      case MemberLeft(guildID, userID) => C.RemoveMember(c, guildID, userID)
      case ChannelSent(x, _) => C.AddChannel(c, x)
      case ThreadSent(x, _) => C.AddChannel(c, x)
      case ChannelDeleted(x) => C.RemoveChannel(c, x.id, s.homes(x.id))
      case ThreadDeleted(x) => C.RemoveChannel(c, x.id, s.homes(x.id))
      case ThreadsSynced(guildID, parents, synced, _) =>
        C.SyncThreads(c, guildID, parents, synced, ArchivedIn(s.guildMap[guildID].threads.Items()))
      case ReadySent(gs, privates) => if t.enabled then C.Ready(c, ReadyOf(gs), privates) else C.Cleared(c)
      case _ => c
  {
    hide C.AddGuild, C.RemoveGuild, C.AddMember, C.RemoveMember, C.AddChannel, C.RemoveChannel, C.SyncThreads;
    hide C.Ready, C.Cleared;
  }

  /** Nothing but these is reported: an unknown guild or channel, or a message that is not cached. */
  lemma ReportedErrors(s: State, e: Event, t: Tracking)
    ensures StatusOf(s, e, t) in {Ok, NotFound}
    ensures StatusOf(s, e, t) == NotFound <==> (t.enabled &&
      match e
      case GuildDeleted(guildID) => guildID !in s.guildMap
      case MemberJoined(m) => m.guildID !in s.guildMap
      case MemberLeft(guildID, _) => guildID !in s.guildMap
      case MemberSent(m) => t.members && m.guildID !in s.guildMap
      case PresenceSent(m, offline) => t.members && !offline && m.guildID !in s.guildMap
      case ChannelSent(c, update) => t.channels && !update && c.id !in s.channelMap &&
                                     !IsPrivateKind(c.kind) && c.guildID !in s.guildMap
      case ThreadSent(c, update) => t.threads && !update && c.id !in s.channelMap &&
                                    !IsPrivateKind(c.kind) && c.guildID !in s.guildMap
      case ThreadsSynced(guildID, _, _, _) => t.threads && guildID !in s.guildMap
      case MessageSent(m) => s.maxMessageCount != 0 && m.channelID !in s.channelMap
      case MessageDeleted(channelID, messageID) =>
        s.maxMessageCount != 0 && (channelID !in s.channelMap || forall x <- s.QueueAt(channelID) :: x.id != messageID)
      case _ => false)
  {
  }

  /** The ID keeps its channel object from m to n. */
  ghost predicate Stays(m: map<string, Channel>, n: map<string, Channel>, id: string) {
    id in m && id in n && m[id] == n[id]
  }

  /** What a message event does to the messages of this channel. */
  ghost function MessageStep(s: State, e: Event, t: Tracking, id: string): Q.Step
    reads s`channelMap, s`maxMessageCount, MessagesIn(e)`body
  {
    if !t.enabled || s.maxMessageCount == 0 || QueueOf(e) != id || id !in s.channelMap then Q.Unconcerned
    else
      match e
      case MessageSent(m) => Q.Posted(m.id, m.body)
      case MessageDeleted(_, messageID) => Q.Deleted([messageID])
      case MessagesDeleted(_, ids) => Q.Deleted(ids)
      case _ => Q.Unconcerned
  }

  /** What an event does to the messages of this channel. */
  ghost function QueueStep(s: State, e: Event, t: Tracking, id: string): Q.Step
    requires Acceptable(s, e)
    reads s, s.guildMap.Values, GuildsIn(e), ThreadsAt(s, e)`archived
    reads ChannelsIn(e)`messages, ChannelsIn(e)`archived, MessagesIn(e)`body
  {
    if IsMessageEvent(e) then MessageStep(s, e, t, id)
    else if id in s.channelMap && !Stays(s.channelMap, After(s.Snapshot(), StepOf(s, e, t), s.homes).channelMap, id)
    then Q.Forgotten
    else Q.Unconcerned
  }

  /** The step of the run that brings the message of an event. */
  ghost function Born(e: Event): nat {
    if e.MessageSent? then e.message.born else 0
  }

  function Limit(s: State): nat
    reads s`maxMessageCount
  {
    if s.maxMessageCount > 0 then s.maxMessageCount else 0
  }

  /** The messages of this channel after the event. */
  ghost function QueueAfter(s: State, e: Event, t: Tracking, id: string): seq<Q.Entry>
    requires Acceptable(s, e)
    reads s, s.guildMap.Values, GuildsIn(e), ThreadsAt(s, e)`archived
    reads ChannelsIn(e)`messages, ChannelsIn(e)`archived, MessagesIn(e)`body
    reads s.ChannelAt(id)`messages, s.MessagesAt(id)`body
  {
    Q.Apply(s.QueueAt(id), Born(e), QueueStep(s, e, t, id), Limit(s))
  }

  /** Every ID of the channel map kept its channel, with its messages, or got one that comes from JSON. */
  twostate predicate Followed(s: State)
    reads s`channelMap, s.channelMap.Values`messages, s.channelMap.Values`archived
  {
    forall id <- s.channelMap ::
      var c := s.channelMap[id];
      if id in old(s.channelMap) && old(s.channelMap)[id] == c
      then c.messages == old(c.messages) && (old(c.archived).Some? ==> c.archived.Some?)
      else Decoded(c)
  }

  twostate lemma FollowedSettled(s: State)
    requires old(s.AllSettled()) && Followed(s)
    ensures s.AllSettled()
  {
    forall id | id in s.channelMap
      ensures Settled(s.channelMap[id])
    {
      assert id in old(s.channelMap) ==> old(Settled(s.channelMap[id]));
    }
  }

  twostate lemma FollowedQueue(s: State, new id: string)
    requires Followed(s) && forall m <- old(s.MessagesAt(id)) :: m.body == old(m.body)
    ensures s.QueueAt(id) == if Stays(old(s.channelMap), s.channelMap, id) then old(s.QueueAt(id)) else []
  {
  }

  twostate lemma NothingFollowed(s: State)
    requires s.channelMap == old(s.channelMap)
    requires forall c <- s.channelMap.Values :: c.messages == old(c.messages) && c.archived == old(c.archived)
    ensures Followed(s)
  {
  }

  /** If nobody's messages were touched, a map of known channels and channels from JSON follows. */
  twostate lemma DrawnFollowed(s: State, new brought: set<Channel>)
    requires C.Drawn(old(s.channelMap), s.channelMap, brought) && forall c <- brought :: Decoded(c)
    requires forall c <- old(s.channelMap).Values ::
      c.messages == old(c.messages) && (old(c.archived).Some? ==> c.archived.Some?)
    ensures Followed(s)
  {
  }

  /** After an event a channel ID maps to what it mapped to before, to a channel of the payload, or to nothing. */
  lemma EventDraws(s: State, e: Event, t: Tracking)
    requires Acceptable(s, e)
    ensures C.Drawn(s.channelMap, After(s.Snapshot(), StepOf(s, e, t), s.homes).channelMap, ChannelsIn(e))
  {
    var step := StepOf(s, e, t);
    hide C.StepPayload, C.Apply, C.WellFormed, C.SyncPayload, C.ReadyPayload, ReadyOf;
    if step.Some? {
      C.ApplyDraws(s.Snapshot(), step.value, s.homes);
    }
  }

  lemma PayloadDecoded(s: State, e: Event)
    requires Acceptable(s, e) && (IsGuildEvent(e) || e.ThreadsSynced?)
    ensures forall c <- ChannelsIn(e) :: Decoded(c)
  {
  }

  lemma AddDraws(c: C.Cache, channel: Channel)
    ensures C.Drawn(c.channelMap, C.AddChannel(c, channel).channelMap,
                    if channel.id in c.channelMap then {} else {channel})
  {
  }

  lemma RemoveDraws(c: C.Cache, channel: Channel)
    ensures C.Drawn(c.channelMap, C.RemoveChannel(c, channel.id, channel.Home()).channelMap, {})
  {
  }

  lemma OwnGuilds(s: State)
    requires s.Valid()
    ensures forall id <- s.guildMap :: s.guildMap[id].id == id
  {
  }

  method OnGuildEvent(s: State, e: Event, t: Tracking) returns (st: Status)
    requires s.Valid() && Acceptable(s, e) && IsGuildEvent(e) && (t.enabled || e.ReadySent?)
    modifies s`guilds, s`privateChannels, s`guildMap, s`channelMap, s`memberMap, GuildsOf(s, e)
    ensures s.Valid() && s.Snapshot() == After(old(s.Snapshot()), old(StepOf(s, e, t)), s.homes)
    ensures st == old(StatusOf(s, e, t))
    ensures Counted(s, e, t) && FieldsTaken(s, e, t)
  {
    hide C.Indexed, C.WellFormed, C.ReadyPayload, C.AddGuild, C.RemoveGuild, C.Ready, C.Cleared, ReadyOf, Decoded;
    st := Ok;
    match e
    case ReadySent(gs, privates) => s.OnReady(t.enabled, gs, privates);
    case GuildSent(g) => s.GuildAdd(g);
    case GuildDeleted(guildID) => st := s.GuildRemove(guildID);
  }

  method GuildsFollow(s: State, e: Event, t: Tracking, ghost brought: set<Channel>) returns (st: Status)
    requires s.Valid() && Acceptable(s, e) && IsGuildEvent(e) && (t.enabled || e.ReadySent?)
    requires C.Drawn(s.channelMap, After(s.Snapshot(), StepOf(s, e, t), s.homes).channelMap, brought)
    requires forall c <- brought :: Decoded(c)
    modifies s`guilds, s`privateChannels, s`guildMap, s`channelMap, s`memberMap, GuildsOf(s, e)
    ensures s.Valid() && s.Snapshot() == After(old(s.Snapshot()), old(StepOf(s, e, t)), s.homes)
    ensures st == old(StatusOf(s, e, t)) && Followed(s)
    ensures Counted(s, e, t) && FieldsTaken(s, e, t)
  {
    hide Counted, FieldsTaken, State.Valid, C.Drawn, StepOf, After, StatusOf, Followed, Acceptable, GuildsOf;
    st := OnGuildEvent(s, e, t);
    DrawnFollowed(s, brought);
  }

  /** GUILD_MEMBER_UPDATE and PRESENCE_UPDATE, which count nobody. */
  method OnMemberSeen(s: State, e: Event, t: Tracking) returns (st: Status)
    requires s.Valid() && Acceptable(s, e) && (e.MemberSent? || e.PresenceSent?) && t.enabled
    modifies s`memberMap, ListedIn(s, e)`members, MembersOf(s, e)
    ensures s.Valid() && s.Snapshot() == After(old(s.Snapshot()), old(StepOf(s, e, t)), s.homes)
    ensures st == old(StatusOf(s, e, t)) && FieldsTaken(s, e, t)
  {
    hide State.Valid, State.Snapshot, C.AddMember;
    st := Ok;
    match e
    case MemberSent(m) =>
      if t.members {
        st := s.MemberAdd(m);
      }
    case PresenceSent(m, offline) =>
      if t.members && !offline {
        st := SeePresence(s, m);
      }
  }

  method OnMemberEvent(s: State, e: Event, t: Tracking) returns (st: Status)
    requires s.Valid() && Acceptable(s, e) && IsMemberEvent(e) && t.enabled
    modifies s`memberMap, ListedIn(s, e)`members, ListedIn(s, e)`memberCount, MembersOf(s, e)
    ensures s.Valid() && s.Snapshot() == After(old(s.Snapshot()), old(StepOf(s, e, t)), s.homes)
    ensures st == old(StatusOf(s, e, t))
    ensures Counted(s, e, t) && FieldsTaken(s, e, t)
  {
    hide State.Valid, State.Snapshot, C.AddMember, C.RemoveMember, MemberTaken;
    if e.MemberJoined? {
      st := MemberJoins(s, e.member, t.members);
    } else if e.MemberLeft? {
      st := MemberLeaves(s, e.guildID, e.userID, t.members);
    } else {
      st := OnMemberSeen(s, e, t);
    }
  }

  /** CHANNEL_CREATE, CHANNEL_UPDATE and their thread forms; the error of an update is lost. */
  method ChannelArrives(s: State, c: Channel, update: bool, track: bool) returns (st: Status)
    requires s.Valid() && AcceptableChannel(s, c)
    modifies s`privateChannels, s`channelMap, c, s.ChannelAt(c.id)
    modifies s.GuildAt(c.guildID)`channels, s.GuildAt(c.guildID)`threads
    ensures s.Valid()
    ensures s.Snapshot() == if track then C.AddChannel(old(s.Snapshot()), c) else old(s.Snapshot())
    ensures st == Found(track && !update ==> old(HasPlace(s, c)))
    ensures Followed(s)
    ensures track ==> ChannelTaken(s, c)
  {
    hide C.Indexed, C.AddChannel, C.Drawn, Followed;
    st := Ok;
    if track {
      AddDraws(s.Snapshot(), c);
      ghost var brought := if c.id in s.channelMap then {} else {c};
      forall id | id in s.channelMap && id != c.id
        ensures s.channelMap[id] !in {c} + s.ChannelAt(c.id)
      {
        s.OwnID(id);
        if c.id in s.channelMap {
          s.OwnID(c.id);
        }
      }
      var added := s.ChannelAdd(c);
      st := if update then Ok else added;
      DrawnFollowed(s, brought);
    } else {
      NothingFollowed(s);
    }
  }

  /** CHANNEL_DELETE and THREAD_DELETE; the error is lost. */
  method ChannelLeaves(s: State, c: Channel, track: bool)
    requires s.Valid() && c.Home() == s.homes(c.id)
    modifies s`privateChannels, s`channelMap, s.GuildAt(c.guildID)`channels, s.GuildAt(c.guildID)`threads
    ensures s.Valid()
    ensures s.Snapshot() == if track then C.RemoveChannel(old(s.Snapshot()), c.id, c.Home()) else old(s.Snapshot())
    ensures Followed(s)
  {
    hide C.Indexed, C.RemoveChannel, C.Drawn, Followed;
    if track {
      RemoveDraws(s.Snapshot(), c);
      var _ := s.ChannelRemove(c);
      DrawnFollowed(s, {});
    } else {
      NothingFollowed(s);
    }
  }

  /** THREAD_LIST_SYNC. */
  method ThreadsArrive(s: State, e: Event, t: Tracking) returns (st: Status)
    requires s.Valid() && s.AllSettled() && Acceptable(s, e) && e.ThreadsSynced? && t.enabled
    modifies s`channelMap, s.GuildAt(e.guildID)`threads, MarkedBy(s, e)`member
    ensures s.Valid() && s.Snapshot() == After(old(s.Snapshot()), old(StepOf(s, e, t)), s.homes)
    ensures st == old(StatusOf(s, e, t))
    ensures Counted(s, e, t) && FieldsTaken(s, e, t)
  {
    hide C.Indexed, C.SyncThreads, ArchivedIn, Settled, Decoded;
    st := Ok;
    if t.threads {
      if e.guildID in s.guildMap {
        s.ThreadsDated(e.guildID);
      }
      st := s.ThreadListSync(e.guildID, e.parents, e.synced, e.mine);
    }
  }

  method ThreadsFollow(s: State, e: Event, t: Tracking) returns (st: Status)
    requires s.Valid() && s.AllSettled() && Acceptable(s, e) && e.ThreadsSynced? && t.enabled
    modifies s`channelMap, s.GuildAt(e.guildID)`threads, MarkedBy(s, e)`member
    ensures s.Valid() && s.Snapshot() == After(old(s.Snapshot()), old(StepOf(s, e, t)), s.homes)
    ensures st == old(StatusOf(s, e, t)) && Followed(s)
    ensures Counted(s, e, t) && FieldsTaken(s, e, t)
  {
    EventDraws(s, e, t);
    PayloadDecoded(s, e);
    hide Counted, FieldsTaken, State.Valid, State.AllSettled, C.Drawn, StepOf, After, StatusOf, Followed, Acceptable;
    hide ChannelsIn, Decoded;
    ghost var brought := ChannelsIn(e);
    st := ThreadsArrive(s, e, t);
    DrawnFollowed(s, brought);
  }

  method OnChannelEvent(s: State, e: Event, t: Tracking) returns (st: Status)
    requires s.Valid() && s.AllSettled() && Acceptable(s, e) && IsChannelEvent(e) && t.enabled
    modifies s`privateChannels, s`channelMap, ListedIn(s, e)`channels, ListedIn(s, e)`threads
    modifies ChannelsOf(s, e), MarkedBy(s, e)`member
    ensures s.Valid() && s.Snapshot() == After(old(s.Snapshot()), old(StepOf(s, e, t)), s.homes)
    ensures st == old(StatusOf(s, e, t)) && Followed(s)
    ensures Counted(s, e, t) && FieldsTaken(s, e, t)
  {
    hide State.Valid, State.Snapshot, State.AllSettled, ChannelTaken, HasPlace, C.SyncPayload, C.AddChannel;
    hide C.RemoveChannel, C.SyncThreads, ArchivedIn, Followed;
    st := Ok;
    match e
    case ChannelSent(c, update) => st := ChannelArrives(s, c, update, t.channels);
    case ChannelDeleted(c) => ChannelLeaves(s, c, t.channels);
    case ThreadSent(c, update) => st := ChannelArrives(s, c, update, t.threads);
    case ThreadDeleted(c) => ChannelLeaves(s, c, t.threads);
    case ThreadsSynced(_, _, _, _) => st := ThreadsFollow(s, e, t);
  }

  /** The messages of a channel after a message event, in the words of the message model. */
  ghost function QueueAfterMessage(s: State, e: Event, id: string): seq<Q.Entry>
    requires IsMessageEvent(e)
    reads s`channelMap, s`maxMessageCount, MessagesIn(e)`body, s.ChannelAt(id)`messages, s.MessagesAt(id)`body
  {
    var q := s.QueueAt(id);
    if s.maxMessageCount == 0 || QueueOf(e) != id || id !in s.channelMap then q
    else
      match e
      case MessageSent(m) => Q.Post(q, EntryOf(m), Limit(s))
      case MessageDeleted(_, messageID) => Q.Delete(q, messageID)
      case MessagesDeleted(_, ids) => Q.DeleteAll(q, ids)
  }

  lemma DeleteOne(q: seq<Q.Entry>, id: string)
    ensures Q.DeleteAll(q, [id]) == Q.Delete(q, id)
  {
    assert [id][..0] == [] && Q.DeleteAll(q, []) == q;
  }

  lemma MessageQueues(s: State, e: Event, t: Tracking, id: string)
    requires IsMessageEvent(e) && t.enabled
    ensures QueueAfter(s, e, t, id) == QueueAfterMessage(s, e, id)
  {
    if e.MessageDeleted? {
      DeleteOne(s.QueueAt(id), e.messageID);
    }
    hide Q.Post, Q.Delete, Q.DeleteAll;
  }

  method OnMessageEvent(s: State, e: Event, ghost t: Tracking) returns (st: Status)
    requires s.Valid() && s.AllSettled() && IsMessageEvent(e) && Room(s, e) && t.enabled
    modifies QueueChannel(s, e)`messages, MergedBy(s, e)`body
    ensures s.Valid() && s.AllSettled() && s.Snapshot() == old(s.Snapshot())
    ensures st == old(StatusOf(s, e, t))
    ensures forall id :: s.QueueAt(id) == old(QueueAfterMessage(s, e, id))
  {
    hide C.Indexed, Q.Post, Q.Delete, Q.Has, Q.DeleteAll, Settled, Entries;
    st := Ok;
    if s.maxMessageCount == 0 {
      return;
    }
    match e
    case MessageSent(m) => st := s.MessageAdd(m);
    case MessageDeleted(channelID, messageID) => st := s.MessageRemoveByID(channelID, messageID);
    case MessagesDeleted(channelID, ids) => s.MessagesRemove(channelID, ids);
  }

  /** A negative limit would end in a slice out of range. */
  ghost predicate Room(s: State, e: Event)
    reads s`maxMessageCount
  {
    e.MessageSent? ==> s.maxMessageCount >= 0
  }

  /** With tracking off only READY means anything. */
  lemma Untracked(s: State, e: Event, t: Tracking)
    requires Acceptable(s, e) && !t.enabled && !e.ReadySent?
    ensures After(s.Snapshot(), StepOf(s, e, t), s.homes) == s.Snapshot()
    ensures StatusOf(s, e, t) == Ok
    ensures forall id :: QueueAfter(s, e, t, id) == s.QueueAt(id)
  {
  }

  /** Any other event forgets the messages of the channels it takes out or replaces. */
  lemma OtherQueues(s: State, e: Event, t: Tracking, id: string)
    requires Acceptable(s, e) && !IsMessageEvent(e)
    ensures var after := After(s.Snapshot(), StepOf(s, e, t), s.homes).channelMap;
      QueueAfter(s, e, t, id) == if Stays(s.channelMap, after, id) then s.QueueAt(id) else []
  {
    hide After, StepOf, Acceptable;
  }

  /** Guild, member and channel events. */
  method OnOtherEvent(s: State, e: Event, t: Tracking) returns (st: Status)
    requires s.Valid() && s.AllSettled() && Acceptable(s, e) && !IsMessageEvent(e) && (t.enabled || e.ReadySent?)
    modifies s`guilds, s`privateChannels, s`guildMap, s`channelMap, s`memberMap
    modifies GuildsOf(s, e), ListedIn(s, e)`members, ListedIn(s, e)`memberCount
    modifies ListedIn(s, e)`channels, ListedIn(s, e)`threads
    modifies MembersOf(s, e), ChannelsOf(s, e), MarkedBy(s, e)`member
    ensures s.Valid() && s.Snapshot() == After(old(s.Snapshot()), old(StepOf(s, e, t)), s.homes)
    ensures st == old(StatusOf(s, e, t)) && Followed(s)
    ensures Counted(s, e, t) && FieldsTaken(s, e, t)
  {
    hide Counted, FieldsTaken, StepOf, After, StatusOf, Acceptable, ChannelsIn, Decoded, C.Drawn, C.Indexed;
    if IsGuildEvent(e) {
      EventDraws(s, e, t);
      PayloadDecoded(s, e);
      st := GuildsFollow(s, e, t, ChannelsIn(e));
    } else if IsMemberEvent(e) {
      st := OnMemberEvent(s, e, t);
      NothingFollowed(s);
    } else {
      st := OnChannelEvent(s, e, t);
    }
  }

  /** A message event is no step of the lists and maps. */
  lemma MessageUntracked(s: State, e: Event, t: Tracking)
    requires IsMessageEvent(e)
    ensures After(s.Snapshot(), StepOf(s, e, t), s.homes) == s.Snapshot()
  {
  }

  /** Such an event, with what it does to the messages. */
  method QueuesFollow(s: State, e: Event, t: Tracking) returns (st: Status)
    requires s.Valid() && s.AllSettled() && Acceptable(s, e) && !IsMessageEvent(e) && (t.enabled || e.ReadySent?)
    modifies s`guilds, s`privateChannels, s`guildMap, s`channelMap, s`memberMap
    modifies GuildsOf(s, e), ListedIn(s, e)`members, ListedIn(s, e)`memberCount
    modifies ListedIn(s, e)`channels, ListedIn(s, e)`threads
    modifies MembersOf(s, e), ChannelsOf(s, e), MarkedBy(s, e)`member
    ensures s.Valid() && s.Snapshot() == After(old(s.Snapshot()), old(StepOf(s, e, t)), s.homes)
    ensures st == old(StatusOf(s, e, t))
    ensures s.AllSettled() && forall id :: s.QueueAt(id) == old(QueueAfter(s, e, t, id))
    ensures Counted(s, e, t) && FieldsTaken(s, e, t)
  {
    hide Counted, FieldsTaken, StepOf, After, StatusOf, QueueAfter, Acceptable, Followed, State.Valid;
    hide State.AllSettled, State.QueueAt;
    hide Stays, GuildsOf, ListedIn, MembersOf, ChannelsOf, MarkedBy;
    forall id {
      OtherQueues(s, e, t, id);
    }
    st := OnOtherEvent(s, e, t);
    FollowedSettled(s);
    forall id
      ensures s.QueueAt(id) == old(QueueAfter(s, e, t, id))
    {
      FollowedQueue(s, id);
    }
  }

  /** OnInterface: one event, one step. */
  method OnInterface(s: State, e: Event, t: Tracking) returns (st: Status)
    requires s.Valid() && s.AllSettled() && Acceptable(s, e) && Room(s, e)
    modifies s`guilds, s`privateChannels, s`guildMap, s`channelMap, s`memberMap
    modifies GuildsOf(s, e), ListedIn(s, e)`members, ListedIn(s, e)`memberCount
    modifies ListedIn(s, e)`channels, ListedIn(s, e)`threads
    modifies MembersOf(s, e), ChannelsOf(s, e), MarkedBy(s, e)`member
    modifies QueueChannel(s, e)`messages, MergedBy(s, e)`body
    ensures s.Valid() && s.Snapshot() == After(old(s.Snapshot()), old(StepOf(s, e, t)), s.homes)
    ensures st == old(StatusOf(s, e, t))
    ensures s.AllSettled() && forall id :: s.QueueAt(id) == old(QueueAfter(s, e, t, id))
    ensures Counted(s, e, t) && FieldsTaken(s, e, t)
  {
    if !t.enabled && !e.ReadySent? {
      Untracked(s, e, t);
      assert Counted(s, e, t) && FieldsTaken(s, e, t);
      hide *;
      return Ok;
    }
    hide StepOf, After, StatusOf, QueueAfter, Acceptable, Followed, C.Indexed;
    if IsMessageEvent(e) {
      MessageUntracked(s, e, t);
      forall id
        ensures QueueAfter(s, e, t, id) == QueueAfterMessage(s, e, id)
      {
        MessageQueues(s, e, t, id);
      }
      st := OnMessageEvent(s, e, t);
    } else {
      st := QueuesFollow(s, e, t);
    }
  }

  /** The values of both maps after an event were there before or come with the payload. */
  lemma EventBrings(s: State, e: Event, t: Tracking)
    requires Acceptable(s, e)
    ensures var after := After(s.Snapshot(), StepOf(s, e, t), s.homes);
      && after.channelMap.Values <= s.channelMap.Values + ChannelsIn(e)
      && after.guildMap.Values <= s.guildMap.Values + GuildsIn(e)
  {
    hide After, StepOf, Acceptable, ChannelsIn, GuildsIn;
    EventDraws(s, e, t);
    EventBringsGuilds(s, e, t);
  }

  lemma ReadyGuilds(gs: seq<Guild>)
    ensures C.GuildSet(ReadyOf(gs)) == set g | g in gs
  {
    ReadyOfElements(gs);
    var rs := ReadyOf(gs);
    assert forall i :: 0 <= i < |gs| ==> rs[i] in rs && rs[i].g == gs[i];
  }

  lemma StepGuilds(s: State, e: Event, t: Tracking)
    requires Acceptable(s, e)
    ensures StepOf(s, e, t).Some? ==> C.BringsGuilds(StepOf(s, e, t).value) <= GuildsIn(e)
  {
    if e.ReadySent? {
      ReadyGuilds(e.guilds);
    }
    hide C.StepPayload, C.WellFormed, C.SyncPayload, C.ReadyPayload, C.GuildSet, ReadyOf, Acceptable, ArchivedIn;
  }

  lemma EventBringsGuilds(s: State, e: Event, t: Tracking)
    requires Acceptable(s, e)
    ensures After(s.Snapshot(), StepOf(s, e, t), s.homes).guildMap.Values <= s.guildMap.Values + GuildsIn(e)
  {
    var step := StepOf(s, e, t);
    StepGuilds(s, e, t);
    hide StepOf, C.StepPayload, C.Apply, C.BringsGuilds, Acceptable, State.AllLists, GuildsIn;
    if step.Some? {
      C.ApplyBringsGuilds(s.Snapshot(), step.value, s.homes);
    }
  }

  /** Only a message that is sent has a number, that of the step that brings it. */
  lemma NumberedStep(s: State, e: Event, t: Tracking, id: string, n: nat)
    requires Acceptable(s, e) && (e.MessageSent? ==> e.message.born == n)
    ensures QueueAfter(s, e, t, id) == Q.Apply(s.QueueAt(id), n, QueueStep(s, e, t, id), Limit(s))
  {
    hide After, StepOf, Acceptable, Q.Post;
  }

  /**
   OnInterface with a log of what the events did to the messages of one channel: what the channel caches is what the
   message model says of the log, whatever the channel and whatever the events.
   */
  method OnLogged(s: State, e: Event, t: Tracking, ghost id: string, ghost log: seq<Q.Step>)
    returns (st: Status, ghost next: seq<Q.Step>)
    requires s.Valid() && s.AllSettled() && Acceptable(s, e) && s.maxMessageCount > 0
    requires s.QueueAt(id) == Q.Run(log, s.maxMessageCount) && (e.MessageSent? ==> e.message.born == |log|)
    modifies s`guilds, s`privateChannels, s`guildMap, s`channelMap, s`memberMap
    modifies GuildsOf(s, e), ListedIn(s, e)`members, ListedIn(s, e)`memberCount
    modifies ListedIn(s, e)`channels, ListedIn(s, e)`threads
    modifies MembersOf(s, e), ChannelsOf(s, e), MarkedBy(s, e)`member
    modifies QueueChannel(s, e)`messages, MergedBy(s, e)`body
    ensures s.Valid() && s.Snapshot() == After(old(s.Snapshot()), old(StepOf(s, e, t)), s.homes)
    ensures st == old(StatusOf(s, e, t))
    ensures s.AllSettled() && next == log + [old(QueueStep(s, e, t, id))]
    ensures s.QueueAt(id) == Q.Run(next, s.maxMessageCount)
    ensures Q.Bounded(s.QueueAt(id), |next|, s.maxMessageCount)
    ensures forall x <- s.QueueAt(id) :: Q.Describes(next, x)
    ensures Counted(s, e, t) && FieldsTaken(s, e, t)
  {
    hide Counted, FieldsTaken, State.Valid, State.AllSettled, State.QueueAt, Acceptable, QueueStep, QueueAfter, StepOf;
    hide After, StatusOf;
    hide Q.Apply, Q.Bounded, Q.Describes;
    next := log + [QueueStep(s, e, t, id)];
    assert next[..|log|] == log;
    NumberedStep(s, e, t, id, |log|);
    st := OnInterface(s, e, t);
    Q.RunIsBounded(next, s.maxMessageCount);
    Q.RunDescribes(next, s.maxMessageCount);
  }

  /** An event still to come: its payload is fit for any state, and no guild or channel of it is cached yet. */
  ghost predicate Waits(s: State, e: Event, channels: set<Channel>)
    reads s`guildMap, s`channelMap, GuildsIn(e), ChannelsIn(e)`messages, ChannelsIn(e)`archived
  {
    && Receivable(s.homes, e) && ChannelsIn(e) <= channels
    && channels !! s.channelMap.Values && GuildsIn(e) !! s.guildMap.Values
  }

  lemma WaitsAcceptable(s: State, e: Event, channels: set<Channel>)
    requires Waits(s, e, channels)
    ensures Acceptable(s, e)
  {
  }

  /** No two payloads share a guild or a channel. */
  ghost predicate Apart(es: seq<Event>, channels: seq<set<Channel>>) {
    && |es| == |channels|
    && forall i, j :: 0 <= i < j < |es| ==> channels[i] !! channels[j] && GuildsIn(es[i]) !! GuildsIn(es[j])
  }

  /** What an event writes to belongs to the cache or to its own payload. */
  lemma WritesApart(s: State, es: seq<Event>, channels: seq<set<Channel>>, i: nat, j: nat)
    requires Apart(es, channels) && i < j < |es|
    requires Waits(s, es[i], channels[i]) && Waits(s, es[j], channels[j])
    ensures GuildsOf(s, es[i]) + ListedIn(s, es[i]) !! GuildsIn(es[j])
    ensures s.guildMap.Values + GuildsIn(es[i]) !! GuildsIn(es[j])
    ensures ChannelsOf(s, es[i]) + QueueChannel(s, es[i]) !! channels[j]
    ensures s.channelMap.Values + ChannelsIn(es[i]) !! channels[j]
  {
    assert channels[i] !! channels[j] && GuildsIn(es[i]) !! GuildsIn(es[j]);
  }

  /** One event of several; the others go on waiting. */
  method OnNext(s: State, es: seq<Event>, channels: seq<set<Channel>>, i: nat, t: Tracking,
                ghost id: string, ghost log: seq<Q.Step>)
    returns (st: Status, ghost next: seq<Q.Step>)
    requires s.Valid() && s.AllSettled() && s.maxMessageCount > 0 && Apart(es, channels) && i < |es|
    requires forall j :: i <= j < |es| ==> Waits(s, es[j], channels[j])
    requires s.QueueAt(id) == Q.Run(log, s.maxMessageCount) && (es[i].MessageSent? ==> es[i].message.born == |log|)
    modifies s`guilds, s`privateChannels, s`guildMap, s`channelMap, s`memberMap
    modifies GuildsOf(s, es[i]), ListedIn(s, es[i])`members, ListedIn(s, es[i])`memberCount
    modifies ListedIn(s, es[i])`channels, ListedIn(s, es[i])`threads
    modifies MembersOf(s, es[i]), ChannelsOf(s, es[i]), MarkedBy(s, es[i])`member
    modifies QueueChannel(s, es[i])`messages, MergedBy(s, es[i])`body
    ensures s.Valid() && s.AllSettled() && |next| == |log| + 1
    ensures s.QueueAt(id) == Q.Run(next, s.maxMessageCount)
    ensures forall j :: i < j < |es| ==> Waits(s, es[j], channels[j])
  {
    hide State.Valid, State.AllSettled, State.QueueAt, StepOf, After, StatusOf, QueueStep, Q.Run;
    hide Q.Bounded, Q.Describes, Receivable;
    hide GuildsOf, ListedIn, MembersOf, ChannelsOf, MarkedBy, QueueChannel, MergedBy, ChannelsIn, Acceptable;
    WaitsAcceptable(s, es[i], channels[i]);
    EventBrings(s, es[i], t);
    forall j | i < j < |es| {
      WritesApart(s, es, channels, i, j);
    }
    hide Apart, GuildsIn;
    st, next := OnLogged(s, es[i], t, id, log);
    forall j | i < j < |es|
      ensures Waits(s, es[j], channels[j])
    {
      assert old(Waits(s, es[j], channels[j]));
      assert ChannelsIn(es[j]) == old(ChannelsIn(es[j]));
      assert Receivable(s.homes, es[j]);
    }
  }
}
