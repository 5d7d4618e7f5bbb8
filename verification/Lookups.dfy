/** The lookups that compute something for a user in a channel from the state cache. */
module Lookups {
  import opened Wrappers
  import opened Entities
  import opened Permissions
  import opened StateCache

  /** The objects a lookup needs: the channel, its guild, and the member in that guild. */
  ghost predicate Found(s: State, userID: string, channelID: string)
    reads s`guildMap, s`channelMap, s`memberMap
  {
    && channelID in s.channelMap
    && s.channelMap[channelID].guildID in s.guildMap
    && var g := s.guildMap[s.channelMap[channelID].guildID];
      g.id in s.memberMap && userID in s.memberMap[g.id]
  }

  /** What UserChannelPermissions answers. */
  ghost function PermissionsIn(s: State, userID: string, channelID: string): Option<bv64>
    reads s`guildMap, s`channelMap, s`memberMap, s.ChannelAt(channelID)`overwrites
    reads set id | id in s.guildMap :: s.guildMap[id]
    reads set id, u | id in s.memberMap && u in s.memberMap[id] :: s.memberMap[id][u]
  {
    if !Found(s, userID, channelID) then None
    else
      var c := s.channelMap[channelID];
      var g := s.guildMap[c.guildID];
      Some(Calculated(g.ownerID, g.id, g.roles.Items(), c.overwrites.Items(), userID, s.memberMap[g.id][userID].roles))
  }

  method UserChannelPermissions(s: State, userID: string, channelID: string) returns (mask: Option<bv64>)
    ensures mask == PermissionsIn(s, userID, channelID)
    ensures mask.None? <==>
      || channelID !in s.channelMap || s.channelMap[channelID].guildID !in s.guildMap
      || s.guildMap[s.channelMap[channelID].guildID].id !in s.memberMap
      || userID !in s.memberMap[s.guildMap[s.channelMap[channelID].guildID].id]
    ensures mask.Some? ==>
      var c := s.channelMap[channelID];
      var g := s.guildMap[c.guildID];
      mask.value == Calculated(
        g.ownerID, g.id, g.roles.Items(), c.overwrites.Items(), userID, s.memberMap[g.id][userID].roles)
  {
    hide Calculated;
    var channel := s.ChannelByID(channelID);
    if channel.None? {
      return None;
    }
    var guild := s.GuildByID(channel.value.guildID);
    if guild.None? {
      return None;
    }
    var g := guild.value;
    if g.id !in s.memberMap || userID !in s.memberMap[g.id] {
      return None;
    }
    var m := MemberPermissions(g, channel.value, userID, s.memberMap[g.id][userID].roles);
    return Some(m);
  }

  /** The guild of a channel, if both are known. */
  ghost function GuildOf(s: State, channelID: string): set<Guild>
    reads s`guildMap, s`channelMap
  {
    if channelID in s.channelMap && s.channelMap[channelID].guildID in s.guildMap
    then {s.guildMap[s.channelMap[channelID].guildID]} else {}
  }

  /** Asking for a colour sorts the guild's roles where they are, and changes nobody's permissions anywhere. */
  method UserColor(s: State, userID: string, channelID: string) returns (colour: int)
    requires forall g <- GuildOf(s, channelID) :: RolesIdentified(g.roles.Items())
    modifies GuildOf(s, channelID)`roles
    ensures !Found(s, userID, channelID) ==> colour == 0
    ensures Found(s, userID, channelID) ==>
      var g := s.guildMap[s.channelMap[channelID].guildID];
      IsNameColour(old(g.roles.Items()), g.id, s.memberMap[g.id][userID].roles, colour)
    ensures forall u, id :: id in s.channelMap && OverwritesIdentified(s.channelMap[id].overwrites.Items()) ==>
      PermissionsIn(s, u, id) == old(PermissionsIn(s, u, id))
  {
    hide Calculated, IsNameColour, RolesIdentified, OverwritesIdentified;
    var channel := s.ChannelByID(channelID);
    if channel.None? {
      return 0;
    }
    var guild := s.GuildByID(channel.value.guildID);
    if guild.None? {
      return 0;
    }
    var g := guild.value;
    if g.id !in s.memberMap || userID !in s.memberMap[g.id] {
      return 0;
    }
    colour := FirstRoleColour(g, s.memberMap[g.id][userID].roles);
  }
}
