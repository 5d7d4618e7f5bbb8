/**
 What each step of the cache model puts where: which lists it changes, what is in them afterwards, and what stays. That
 lists and maps agree would also hold of a cache that forgets.
 */
module CacheContents {
  import opened Wrappers
  import opened Entities
  import opened CacheModel

  /** The list without one element, which satisfies p. */
  ghost predicate OneTaken<T>(before: seq<T>, after: seq<T>, p: T -> bool) {
    exists i :: 0 <= i < |before| && p(before[i]) && after == before[..i] + before[i + 1..]
  }

  /** Nothing that satisfies p stands before position i. */
  lemma {:induction false} RemovesFrom<T>(s: seq<T>, p: T -> bool, i: nat)
    requires i <= |s| && forall k :: 0 <= k < i ==> !p(s[k])
    ensures if exists x <- s :: p(x) then OneTaken(s, RemoveFirst(s, p), p) else RemoveFirst(s, p) == s
    decreases |s| - i
  {
    if i == |s| {
      RemoveFirstNone(s, p);
    } else if p(s[i]) {
      RemoveFirstAt(s, p, i);
    } else {
      RemovesFrom(s, p, i + 1);
    }
  }

  /** Only the lists of this guild may differ. */
  ghost predicate OthersKept(s: Cache, r: Cache, guildID: string) {
    && r.lists.Keys + {guildID} == s.lists.Keys + {guildID}
    && forall id <- s.lists :: id != guildID ==> r.lists[id] == s.lists[id]
  }

  /** A guild payload: each list it carries replaces the guild's, each it does not carry stays. */
  lemma AddGuildContents(s: Cache, g: Guild, p: GuildPayload)
    requires GuildsIndexed(s) && g.id == p.id
    ensures var r := AddGuild(s, g, p);
      && (p.id in s.guildMap ==> r.guilds == s.guilds && r.guildMap == s.guildMap)
      && (p.id !in s.guildMap ==> r.guilds == s.guilds + [g] && r.guildMap == s.guildMap[p.id := g])
      && OthersKept(s, r, p.id) && p.id in r.lists && r.privates == s.privates
    ensures var was := if p.id in s.guildMap then s.lists[p.id] else Lists([], [], []);
      AddGuild(s, g, p).lists[p.id] ==
      Lists(if p.channels.Slice? then p.channels.elems else was.channels,
            if p.threads.Slice? then p.threads.elems else was.threads,
            if p.members.Slice? then p.members.elems else was.members)
  {
  }

  /** Entering channels maps each of them, if no two share an ID, and keeps every other entry. */
  lemma EnteredExactly(m: map<string, Channel>, cs: seq<Channel>)
    ensures var n := EnterChannels(m, cs);
      && n.Keys == m.Keys + (set c | c in cs :: c.id)
      && (DistinctChannels(cs) ==> forall c <- cs :: n[c.id] == c)
      && (forall id <- m :: (forall c <- cs :: c.id != id) ==> n[id] == m[id])
  {
    EnteredEntries(m, cs);
  }

  lemma EnteredBoth(m: map<string, Channel>, cs: seq<Channel>, ts: seq<Channel>)
    requires DistinctChannels(cs) && DistinctChannels(ts)
    requires forall c, t :: c in cs && t in ts ==> c.id != t.id
    ensures var n := EnterChannels(EnterChannels(m, cs), ts);
      && n.Keys == m.Keys + (set c | c in cs + ts :: c.id)
      && (forall c <- cs + ts :: n[c.id] == c)
      && (forall id <- m :: (forall c <- cs + ts :: c.id != id) ==> n[id] == m[id])
  {
    EnteredExactly(m, cs);
    EnteredExactly(EnterChannels(m, cs), ts);
    hide EnterChannels;
    assert (set c | c in cs + ts :: c.id) == (set c | c in cs :: c.id) + (set c | c in ts :: c.id);
    forall c | c in cs
      ensures EnterChannels(EnterChannels(m, cs), ts)[c.id] == c
    {
      assert EnterChannels(m, cs)[c.id] == c;
    }
  }

  lemma PayloadApart(p: GuildPayload, homes: string -> Home)
    requires WellFormed(p, homes)
    ensures forall c, t :: c in p.channels.Items() && t in p.threads.Items() ==> c.id != t.id
  {
  }

  /** The channel map takes the channels and threads of the payload and keeps all other entries. */
  lemma AddGuildMapsChannels(s: Cache, g: Guild, p: GuildPayload, homes: string -> Home)
    requires WellFormed(p, homes)
    ensures var m, brought := AddGuild(s, g, p).channelMap, p.channels.Items() + p.threads.Items();
      && m.Keys == s.channelMap.Keys + (set c | c in brought :: c.id)
      && (forall c <- brought :: m[c.id] == c)
      && (forall id <- s.channelMap :: (forall c <- brought :: c.id != id) ==> m[id] == s.channelMap[id])
  {
    PayloadApart(p, homes);
    EnteredBoth(s.channelMap, p.channels.Items(), p.threads.Items());
    hide EnterChannels, MemberMapWith, Merged;
  }

  /** The member map takes the members of the payload under its guild, if it carries any list of them. */
  lemma AddGuildMapsMembers(s: Cache, g: Guild, p: GuildPayload)
    ensures var m := AddGuild(s, g, p).memberMap;
      && m.Keys == s.memberMap.Keys + {p.id}
      && (forall id <- s.memberMap :: id != p.id ==> m[id] == s.memberMap[id])
      && (p.members.NilSlice? ==> m[p.id] == if p.id in s.memberMap then s.memberMap[p.id] else map[])
      && (p.members.Slice? ==> m[p.id].Keys == set x | x in p.members.elems :: x.userID)
      && (p.members.Slice? && DistinctUsers(p.members.elems) ==>
        forall x <- p.members.elems :: m[p.id][x.userID] == x)
  {
    hide EnterChannels, Merged;
    MemberIndexEntries(p.members.Items());
  }

  /** A removed guild leaves the list, the map and nothing else. */
  lemma RemoveGuildContents(s: Cache, id: string)
    requires GuildsIndexed(s)
    ensures var r := RemoveGuild(s, id);
      && r.guildMap == s.guildMap - {id} && r.lists == s.lists - {id}
      && r.channelMap == s.channelMap && r.memberMap == s.memberMap && r.privates == s.privates
      && (if exists g <- s.guilds :: g.id == id then OneTaken(s.guilds, r.guilds, GuildNamed(id))
          else r.guilds == s.guilds)
  {
    if id in s.guildMap {
      UnlistedGuild(s.guilds, id);
    }
    hide RemoveFirst, OneTaken;
  }

  lemma UnlistedGuild(gs: seq<Guild>, id: string)
    ensures if exists g <- gs :: g.id == id then OneTaken(gs, RemoveFirst(gs, GuildNamed(id)), GuildNamed(id))
            else RemoveFirst(gs, GuildNamed(id)) == gs
  {
    RemovesFrom(gs, GuildNamed(id), 0);
    assert forall g <- gs :: GuildNamed(id)(g) <==> g.id == id;
  }

  /** A member of a known guild that is not indexed goes to the end of its list and into the index. */
  lemma AddMemberContents(s: Cache, m: Member)
    requires GuildsIndexed(s)
    ensures var r := AddMember(s, m);
      && r.guilds == s.guilds && r.guildMap == s.guildMap && r.channelMap == s.channelMap && r.privates == s.privates
      && if m.guildID !in s.guildMap || m.userID in s.memberMap[m.guildID] then r == s
         else
           && OthersKept(s, r, m.guildID) && r.lists[m.guildID].members == s.lists[m.guildID].members + [m]
           && r.lists[m.guildID].channels == s.lists[m.guildID].channels
           && r.lists[m.guildID].threads == s.lists[m.guildID].threads
           && r.memberMap[m.guildID] == s.memberMap[m.guildID][m.userID := m]
           && r.memberMap.Keys == s.memberMap.Keys
           && forall id <- s.memberMap :: id != m.guildID ==> r.memberMap[id] == s.memberMap[id]
  {
  }

  /** A member that is indexed is taken out of the index and, if it is listed, out of its list. */
  lemma RemoveMemberContents(s: Cache, guildID: string, userID: string)
    requires GuildsIndexed(s)
    ensures var r := RemoveMember(s, guildID, userID);
      && r.guilds == s.guilds && r.guildMap == s.guildMap && r.channelMap == s.channelMap && r.privates == s.privates
      && if guildID !in s.guildMap || userID !in s.memberMap[guildID] then r == s
         else
           && OthersKept(s, r, guildID)
           && r.lists[guildID].channels == s.lists[guildID].channels
           && r.lists[guildID].threads == s.lists[guildID].threads
           && (if exists m <- s.lists[guildID].members :: m.userID == userID
               then OneTaken(s.lists[guildID].members, r.lists[guildID].members, MemberNamed(userID))
               else r.lists[guildID].members == s.lists[guildID].members)
           && r.memberMap[guildID] == s.memberMap[guildID] - {userID} && r.memberMap.Keys == s.memberMap.Keys
           && forall id <- s.memberMap :: id != guildID ==> r.memberMap[id] == s.memberMap[id]
  {
    if guildID in s.guildMap {
      RemovesFrom(s.lists[guildID].members, MemberNamed(userID), 0);
      assert forall m <- s.lists[guildID].members :: MemberNamed(userID)(m) <==> m.userID == userID;
    }
  }

  /** Direct messages and group chats have no guild; news, public and private threads have a parent. */
  lemma KindsDecideHomes(c: Channel)
    ensures c.Home() == PrivateHome <==> c.kind in {1, 3}
    ensures c.Home() == ThreadHome(c.guildID, c.parentID) <==> c.kind in {10, 11, 12}
    ensures c.Home() == GuildHome(c.guildID) <==> c.kind !in {1, 3, 10, 11, 12}
  {
  }

  /** A channel that is not known goes to the end of the list of its kind, if it has one, and into the map. */
  lemma AddChannelContents(s: Cache, c: Channel)
    requires GuildsIndexed(s)
    ensures var r := AddChannel(s, c);
      && r.guilds == s.guilds && r.guildMap == s.guildMap && r.memberMap == s.memberMap
      && if c.id in s.channelMap || (!IsPrivateKind(c.kind) && c.guildID !in s.guildMap) then r == s
         else
           && r.channelMap == s.channelMap[c.id := c]
           && if IsPrivateKind(c.kind) then r.privates == s.privates + [c] && r.lists == s.lists
              else
                && r.privates == s.privates && OthersKept(s, r, c.guildID)
                && var was, now := s.lists[c.guildID], r.lists[c.guildID];
                  && now.members == was.members
                  && now.threads == was.threads + (if IsThreadKind(c.kind) then [c] else [])
                  && now.channels == was.channels + if IsThreadKind(c.kind) then [] else [c]
  {
  }

  /** A known channel is taken out of the map and out of the list of its kind, and no other channel is. */
  lemma RemoveChannelContents(s: Cache, c: Channel)
    requires GuildsIndexed(s)
    ensures var r := RemoveChannel(s, c.id, c.Home());
      && r.guilds == s.guilds && r.guildMap == s.guildMap && r.memberMap == s.memberMap
      && if c.id !in s.channelMap || (!IsPrivateKind(c.kind) && c.guildID !in s.guildMap) then r == s
         else
           && r.channelMap == s.channelMap - {c.id}
           && if IsPrivateKind(c.kind) then Unlisted(s.privates, r.privates, c.id) && r.lists == s.lists
              else
                && r.privates == s.privates && OthersKept(s, r, c.guildID)
                && var was, now := s.lists[c.guildID], r.lists[c.guildID];
                  && now.members == was.members
                  && (if IsThreadKind(c.kind)
                      then Unlisted(was.threads, now.threads, c.id) && now.channels == was.channels
                      else Unlisted(was.channels, now.channels, c.id) && now.threads == was.threads)
  {
    if IsPrivateKind(c.kind) {
      UnlistedFirst(s.privates, c.id);
    } else if c.guildID in s.guildMap {
      UnlistedFirst(s.lists[c.guildID].threads, c.id);
      UnlistedFirst(s.lists[c.guildID].channels, c.id);
    }
  }

  /** The list without its first channel of this ID, if it has one. */
  ghost predicate Unlisted(before: seq<Channel>, after: seq<Channel>, id: string) {
    if exists c <- before :: c.id == id then OneTaken(before, after, ChannelNamed(id)) else after == before
  }

  lemma UnlistedFirst(cs: seq<Channel>, id: string)
    ensures Unlisted(cs, RemoveFirst(cs, ChannelNamed(id)), id)
  {
    RemovesFrom(cs, ChannelNamed(id), 0);
    assert forall c <- cs :: ChannelNamed(id)(c) <==> c.id == id;
  }

  /**
   A sync leaves the guild with the unarchived threads whose parent is not synced, in order, and the synced ones behind
   them; nothing else of any guild changes.
   */
  lemma SyncContents(s: Cache, guildID: string, parents: Slice<string>, synced: seq<Channel>, archived: set<Channel>)
    requires guildID in s.lists
    ensures var r := SyncThreads(s, guildID, parents, synced, archived);
      && r.guilds == s.guilds && r.guildMap == s.guildMap && r.memberMap == s.memberMap && r.privates == s.privates
      && OthersKept(s, r, guildID) && r.lists[guildID].channels == s.lists[guildID].channels
      && r.lists[guildID].members == s.lists[guildID].members
      && |synced| <= |r.lists[guildID].threads|
      && r.lists[guildID].threads[|r.lists[guildID].threads| - |synced|..] == synced
      && forall t :: t in r.lists[guildID].threads[..|r.lists[guildID].threads| - |synced|] <==>
        t in s.lists[guildID].threads && parents.Slice? && t !in archived && t.parentID !in parents.elems
  {
    var ts := s.lists[guildID].threads;
    KeptElements(ts, parents, archived);
    var r := SyncThreads(s, guildID, parents, synced, archived).lists[guildID].threads;
    assert r[..|r| - |synced|] == Kept(ts, parents, archived);
  }

  /** READY leaves the guilds and private channels of its payload, with their lists, and older guilds as they were. */
  lemma ReadyContents(s: Cache, gs: seq<ReadyGuild>, privates: seq<Channel>, homes: string -> Home)
    requires ReadyPayload(gs, privates, homes)
    ensures var r := Ready(s, gs, privates);
      && r.privates == privates && |r.guilds| == |gs|
      && forall i :: 0 <= i < |gs| ==>
        var g := gs[i].g;
        && r.guilds[i] == g && g.id in r.guildMap && r.guildMap[g.id] == g
        && g.id in r.lists && r.lists[g.id] == Lists(gs[i].channels, [], gs[i].members)
    ensures forall id :: (forall x <- gs :: x.g.id != id) ==>
      (id in Ready(s, gs, privates).lists <==> id in s.lists)
      && (id in s.lists ==> Ready(s, gs, privates).lists[id] == s.lists[id])
  {
    EnteredContents(s, gs);
  }

  /** READY with state tracking off empties the two lists of the cache and touches no map and no guild. */
  lemma ClearedContents(s: Cache)
    ensures var r := Cleared(s);
      && r.guilds == [] && r.privates == [] && r.guildMap == s.guildMap && r.channelMap == s.channelMap
      && r.memberMap == s.memberMap && r.lists == s.lists
  {
  }

  /** READY takes no entry out of either map, and changes none but those of its own channels and guilds. */
  lemma ReadyKeepsEntries(s: Cache, gs: seq<ReadyGuild>, privates: seq<Channel>)
    ensures var r := Ready(s, gs, privates);
      && (forall id <- s.channelMap :: id in r.channelMap && (r.channelMap[id] == s.channelMap[id] ||
                                       r.channelMap[id] in ChannelsOf(gs) + ChannelSet(privates)))
      && forall id <- s.memberMap :: id in r.memberMap &&
           ((forall x <- gs :: x.g.id != id) ==> r.memberMap[id] == s.memberMap[id])
  {
    EnteredKeepEntries(s, gs);
    EnterGuildsDrawn(s, gs);
    EnteredEntries(EnterGuilds(s, gs).channelMap, privates);
  }

  lemma {:induction false} EnteredKeepEntries(s: Cache, gs: seq<ReadyGuild>)
    ensures forall id <- s.channelMap :: id in EnterGuilds(s, gs).channelMap
    ensures forall id <- s.memberMap :: id in EnterGuilds(s, gs).memberMap &&
              ((forall x <- gs :: x.g.id != id) ==> EnterGuilds(s, gs).memberMap[id] == s.memberMap[id])
  {
    if gs != [] {
      var front, last := gs[..|gs| - 1], gs[|gs| - 1];
      assert gs == front + [last];
      EnteredKeepEntries(s, front);
      EnteredEntries(EnterGuilds(s, front).channelMap, last.channels);
    }
  }

  lemma {:induction false} EnteredContents(s: Cache, gs: seq<ReadyGuild>)
    requires forall i, j :: 0 <= i < j < |gs| ==> gs[i].g.id != gs[j].g.id
    ensures var r := EnterGuilds(s, gs);
      forall i :: 0 <= i < |gs| ==>
        var g := gs[i].g;
        && g.id in r.guildMap && r.guildMap[g.id] == g
        && g.id in r.lists && r.lists[g.id] == Lists(gs[i].channels, [], gs[i].members)
    ensures forall id :: (forall x <- gs :: x.g.id != id) ==>
      (id in EnterGuilds(s, gs).lists <==> id in s.lists)
      && (id in s.lists ==> EnterGuilds(s, gs).lists[id] == s.lists[id])
  {
    if gs != [] {
      var front, last := gs[..|gs| - 1], gs[|gs| - 1];
      assert gs == front + [last];
      EnteredContents(s, front);
    }
  }
}
