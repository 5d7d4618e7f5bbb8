/** The mutable objects of the state cache, with the fields the cache reads or preserves. */
module Entities {
  import opened Wrappers

  datatype Role = Role(id: string, permissions: bv64, position: int, color: int)

  const ROLE_OVERWRITE := 0
  const MEMBER_OVERWRITE := 1

  datatype Overwrite = Overwrite(id: string, kind: int, deny: bv64, allow: bv64)

  const CHANNEL_DM := 1
  const CHANNEL_GROUP_DM := 3
  const CHANNEL_NEWS_THREAD := 10
  const CHANNEL_PUBLIC_THREAD := 11
  const CHANNEL_PRIVATE_THREAD := 12

  predicate IsPrivateKind(kind: int) {
    kind == CHANNEL_DM || kind == CHANNEL_GROUP_DM
  }

  predicate IsThreadKind(kind: int) {
    kind == CHANNEL_PUBLIC_THREAD || kind == CHANNEL_PRIVATE_THREAD || kind == CHANNEL_NEWS_THREAD
  }

  /** Where Discord files a channel: which list of which guild, and under which parent. */
  datatype Home = PrivateHome | GuildHome(guildID: string) | ThreadHome(guildID: string, parentID: string)

  /** What a message update may carry; empty strings, zero and nil mean "not sent". */
  datatype MessageBody = MessageBody(
    content: string,
    edited: Option<int>,
    mentions: Slice<string>,
    embeds: Slice<string>,
    attachments: Slice<string>,
    timestamp: int,
    author: Option<string>,
    components: Slice<string>)

  class Message {
    const id: string
    const channelID: string
    ghost const born: nat  // the step of a run that brought it
    var body: MessageBody

    constructor (id: string, channelID: string, ghost born: nat, body: MessageBody)
      ensures this.id == id && this.channelID == channelID && this.born == born && this.body == body
    {
      this.id, this.channelID, this.born, this.body := id, channelID, born, body;
    }
  }

  /** The user and guild of a member are fixed: overwriting a member must bring the same ones. */
  class Member {
    const guildID: string
    const userID: string
    var username: string  // of the user object the member points at
    var joinedAt: int
    var nick: string
    var roles: seq<string>

    constructor (guildID: string, userID: string, username: string, joinedAt: int, nick: string, roles: seq<string>)
      ensures this.guildID == guildID && this.userID == userID && this.username == username
      ensures this.joinedAt == joinedAt && this.nick == nick && this.roles == roles
    {
      this.guildID, this.userID, this.username := guildID, userID, username;
      this.joinedAt, this.nick, this.roles := joinedAt, nick, roles;
    }

    /** Go's *m = *src. */
    method Assign(src: Member)
      requires src.guildID == guildID && src.userID == userID
      modifies this
      ensures username == old(src.username) && joinedAt == old(src.joinedAt)
      ensures nick == old(src.nick) && roles == old(src.roles)
    {
      username, joinedAt, nick, roles := src.username, src.joinedAt, src.nick, src.roles;
    }
  }

  /** A channel keeps its ID, guild, kind and parent: overwriting it must bring the same ones. */
  class Channel {
    const id: string
    const guildID: string
    const kind: int
    const parentID: string
    var name: string
    var overwrites: Slice<Overwrite>
    var archived: Option<bool>  // the Archived flag of ThreadMetadata, which may be nil
    var member: Option<string>  // the current user's ThreadMember
    var messages: Slice<Message>

    constructor (id: string, guildID: string, kind: int, parentID: string, name: string,
                 overwrites: Slice<Overwrite>, archived: Option<bool>)
      ensures this.id == id && this.guildID == guildID && this.kind == kind && this.parentID == parentID
      ensures this.name == name && this.overwrites == overwrites && this.archived == archived
      ensures this.member == None && this.messages == NilSlice
    {
      this.id, this.guildID, this.kind, this.parentID, this.name := id, guildID, kind, parentID, name;
      this.overwrites, this.archived, this.member, this.messages := overwrites, archived, None, NilSlice;
    }

    function Home(): Home {
      if IsPrivateKind(kind) then PrivateHome
      else if IsThreadKind(kind) then ThreadHome(guildID, parentID)
      else GuildHome(guildID)
    }

    /** Go's *c = *src. */
    method Assign(src: Channel)
      requires src.id == id && src.Home() == Home()
      modifies this
      ensures name == old(src.name) && overwrites == old(src.overwrites)
      ensures archived == old(src.archived) && member == old(src.member) && messages == old(src.messages)
    {
      name, overwrites, archived, member, messages := src.name, src.overwrites, src.archived, src.member, src.messages;
    }
  }

  class Guild {
    const id: string
    var ownerID: string
    var name: string
    var memberCount: int
    var roles: Slice<Role>
    var members: Slice<Member>
    var channels: Slice<Channel>
    var threads: Slice<Channel>

    constructor (id: string, ownerID: string, name: string, memberCount: int, roles: Slice<Role>,
                 members: Slice<Member>, channels: Slice<Channel>, threads: Slice<Channel>)
      ensures this.id == id && this.ownerID == ownerID && this.name == name && this.memberCount == memberCount
      ensures this.roles == roles && this.members == members
      ensures this.channels == channels && this.threads == threads
    {
      this.id, this.ownerID, this.name, this.memberCount := id, ownerID, name, memberCount;
      this.roles, this.members, this.channels, this.threads := roles, members, channels, threads;
    }

    /** Go's *g = *src. */
    method Assign(src: Guild)
      requires src.id == id
      modifies this
      ensures ownerID == old(src.ownerID) && name == old(src.name) && memberCount == old(src.memberCount)
      ensures roles == old(src.roles) && members == old(src.members)
      ensures channels == old(src.channels) && threads == old(src.threads)
    {
      ownerID, name, memberCount := src.ownerID, src.name, src.memberCount;
      roles, members, channels, threads := src.roles, src.members, src.channels, src.threads;
    }
  }
}
