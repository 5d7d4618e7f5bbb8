/** memberPermissions, as loops over bit masks and as a rule for each bit, and the role sort behind UserColor. */
module Permissions {
  import opened Wrappers
  import opened Bits
  import opened Entities

  const VIEW_CHANNEL: bv64 := 1 << 10
  const SEND_MESSAGES: bv64 := 1 << 11
  const SEND_TTS_MESSAGES: bv64 := 1 << 12
  const MANAGE_MESSAGES: bv64 := 1 << 13
  const EMBED_LINKS: bv64 := 1 << 14
  const ATTACH_FILES: bv64 := 1 << 15
  const READ_MESSAGE_HISTORY: bv64 := 1 << 16
  const MENTION_EVERYONE: bv64 := 1 << 17
  const VOICE_PRIORITY_SPEAKER: bv64 := 1 << 8
  const VOICE_CONNECT: bv64 := 1 << 20
  const VOICE_SPEAK: bv64 := 1 << 21
  const VOICE_MUTE_MEMBERS: bv64 := 1 << 22
  const VOICE_DEAFEN_MEMBERS: bv64 := 1 << 23
  const VOICE_MOVE_MEMBERS: bv64 := 1 << 24
  const VOICE_USE_VAD: bv64 := 1 << 25
  const MANAGE_ROLES: bv64 := 1 << 28
  const MANAGE_WEBHOOKS: bv64 := 1 << 29
  const MANAGE_EMOJIS: bv64 := 1 << 30
  const CREATE_INSTANT_INVITE: bv64 := 1 << 0
  const KICK_MEMBERS: bv64 := 1 << 1
  const BAN_MEMBERS: bv64 := 1 << 2
  const ADMINISTRATOR: bv64 := 1 << 3
  const MANAGE_CHANNELS: bv64 := 1 << 4
  const MANAGE_SERVER: bv64 := 1 << 5
  const ADD_REACTIONS: bv64 := 1 << 6
  const VIEW_AUDIT_LOGS: bv64 := 1 << 7

  const ALL_TEXT: bv64 := VIEW_CHANNEL | SEND_MESSAGES | SEND_TTS_MESSAGES | MANAGE_MESSAGES | EMBED_LINKS |
    ATTACH_FILES | READ_MESSAGE_HISTORY | MENTION_EVERYONE
  const ALL_VOICE: bv64 := VIEW_CHANNEL | VOICE_CONNECT | VOICE_SPEAK | VOICE_MUTE_MEMBERS | VOICE_DEAFEN_MEMBERS |
    VOICE_MOVE_MEMBERS | VOICE_USE_VAD | VOICE_PRIORITY_SPEAKER
  const ALL_CHANNEL: bv64 := ALL_TEXT | ALL_VOICE | CREATE_INSTANT_INVITE | MANAGE_ROLES | MANAGE_CHANNELS |
    ADD_REACTIONS | VIEW_AUDIT_LOGS
  const ALL: bv64 := ALL_CHANNEL | KICK_MEMBERS | BAN_MEMBERS | MANAGE_SERVER | ADMINISTRATOR | MANAGE_WEBHOOKS |
    MANAGE_EMOJIS

  // ---------------------------------------------------------------- the calculation, layer by layer

  predicate IsAdministrator(mask: bv64) {
    mask & ADMINISTRATOR == ADMINISTRATOR
  }

  lemma HoldsAdministrator(x: bv64)
    ensures SingleBit(ADMINISTRATOR)
    ensures IsAdministrator(x) <==> Has(x, ADMINISTRATOR)
  {
  }

  function Layer(mask: bv64, deny: bv64, allow: bv64): bv64 {
    (mask & !deny) | allow
  }

  /** The mask of the first role named id, or no bits. */
  function FirstRoleMask(roles: seq<Role>, id: string): bv64 {
    if roles == [] then 0 else if roles[0].id == id then roles[0].permissions else FirstRoleMask(roles[1..], id)
  }

  /** start together with the masks of the held roles. */
  function HeldMask(start: bv64, roles: seq<Role>, held: seq<string>): bv64 {
    if roles == [] then start
    else
      var last := roles[|roles| - 1];
      var before := HeldMask(start, roles[..|roles| - 1], held);
      if last.id in held then Plus(before, last.permissions) else before
  }

  /** Whom an overwrite is for: everyone, the holders of some roles, or one member. */
  datatype Target = Everyone(guildID: string) | Roles(held: seq<string>) | Member(userID: string)

  predicate IsFor(o: Overwrite, t: Target) {
    match t
    case Everyone(guildID) => o.id == guildID
    case Roles(held) => o.kind == ROLE_OVERWRITE && o.id in held
    case Member(userID) => o.kind == MEMBER_OVERWRITE && o.id == userID
  }

  /** The mask after the first overwrite for the target, if there is one. */
  function FirstLayer(mask: bv64, overwrites: seq<Overwrite>, t: Target): bv64 {
    if overwrites == [] then mask
    else if IsFor(overwrites[0], t) then Layer(mask, overwrites[0].deny, overwrites[0].allow)
    else FirstLayer(mask, overwrites[1..], t)
  }

  function PooledDeny(overwrites: seq<Overwrite>, t: Target): bv64 {
    if overwrites == [] then 0
    else
      var last := overwrites[|overwrites| - 1];
      var before := PooledDeny(overwrites[..|overwrites| - 1], t);
      if IsFor(last, t) then Plus(before, last.deny) else before
  }

  function PooledAllow(overwrites: seq<Overwrite>, t: Target): bv64 {
    if overwrites == [] then 0
    else
      var last := overwrites[|overwrites| - 1];
      var before := PooledAllow(overwrites[..|overwrites| - 1], t);
      if IsFor(last, t) then Plus(before, last.allow) else before
  }

  function Base(guildID: string, roles: seq<Role>, held: seq<string>): bv64 {
    var base := HeldMask(FirstRoleMask(roles, guildID), roles, held);
    if IsAdministrator(base) then Plus(base, ALL) else base
  }

  function Overwritten(base: bv64, guildID: string, overwrites: seq<Overwrite>, userID: string,
                       held: seq<string>): bv64
  {
    var everyone := FirstLayer(base, overwrites, Everyone(guildID));
    var pooled := Layer(everyone, PooledDeny(overwrites, Roles(held)), PooledAllow(overwrites, Roles(held)));
    FirstLayer(pooled, overwrites, Member(userID))
  }

  function Calculated(ownerID: string, guildID: string, roles: seq<Role>, overwrites: seq<Overwrite>,
                      userID: string, held: seq<string>): bv64
  {
    if userID == ownerID then ALL
    else
      var mask := Overwritten(Base(guildID, roles, held), guildID, overwrites, userID, held);
      if IsAdministrator(mask) then Plus(mask, ALL_CHANNEL) else mask
  }

  // ---------------------------------------------------------------- the loops

  method HoldsRole(held: seq<string>, id: string) returns (found: bool)
    ensures found <==> id in held
  {
    for i := 0 to |held|
      invariant id !in held[..i]
    {
      if held[i] == id {
        return true;
      }
    }
    return false;
  }

  method EveryoneRole(guildID: string, roles: seq<Role>) returns (mask: bv64)
    ensures mask == FirstRoleMask(roles, guildID)
  {
    mask := 0;
    for i := 0 to |roles|
      invariant mask == 0 && FirstRoleMask(roles, guildID) == FirstRoleMask(roles[i..], guildID)
    {
      if roles[i].id == guildID {
        ZeroOr(roles[i].permissions);
        mask := mask | roles[i].permissions;
        break;
      }
    }
  }

  method BaseMask(guildID: string, roles: seq<Role>, held: seq<string>) returns (mask: bv64)
    ensures mask == Base(guildID, roles, held)
  {
    mask := EveryoneRole(guildID, roles);
    mask := AddHeld(mask, roles, held);
    if mask & ADMINISTRATOR == ADMINISTRATOR {
      mask := mask | ALL;
    }
  }

  method AddHeld(start: bv64, roles: seq<Role>, held: seq<string>) returns (mask: bv64)
    ensures mask == HeldMask(start, roles, held)
  {
    mask := start;
    for i := 0 to |roles|
      invariant mask == HeldMask(start, roles[..i], held)
    {
      assert roles[..i + 1][..i] == roles[..i];
      var found := HoldsRole(held, roles[i].id);
      if found {
        mask := mask | roles[i].permissions;
      }
    }
    assert roles[..|roles|] == roles;
  }

  method ApplyEveryone(base: bv64, guildID: string, overwrites: seq<Overwrite>) returns (mask: bv64)
    ensures mask == FirstLayer(base, overwrites, Everyone(guildID))
  {
    mask := base;
    for i := 0 to |overwrites|
      invariant mask == base
      invariant FirstLayer(base, overwrites, Everyone(guildID)) == FirstLayer(base, overwrites[i..], Everyone(guildID))
    {
      if guildID == overwrites[i].id {
        mask := mask & !overwrites[i].deny;
        mask := mask | overwrites[i].allow;
        break;
      }
    }
  }

  method ApplyMember(base: bv64, overwrites: seq<Overwrite>, userID: string) returns (mask: bv64)
    ensures mask == FirstLayer(base, overwrites, Member(userID))
  {
    mask := base;
    for i := 0 to |overwrites|
      invariant mask == base
      invariant FirstLayer(base, overwrites, Member(userID)) == FirstLayer(base, overwrites[i..], Member(userID))
    {
      if overwrites[i].kind == MEMBER_OVERWRITE && overwrites[i].id == userID {
        mask := mask & !overwrites[i].deny;
        mask := mask | overwrites[i].allow;
        break;
      }
    }
  }

  method OverwriteMask(base: bv64, guildID: string, overwrites: seq<Overwrite>, userID: string, held: seq<string>)
    returns (mask: bv64)
    ensures mask == Overwritten(base, guildID, overwrites, userID, held)
  {
    mask := ApplyEveryone(base, guildID, overwrites);
    var denies, allows := RolePools(overwrites, held);
    mask := mask & !denies;
    mask := mask | allows;
    mask := ApplyMember(mask, overwrites, userID);
  }

  method RolePools(overwrites: seq<Overwrite>, held: seq<string>) returns (denies: bv64, allows: bv64)
    ensures denies == PooledDeny(overwrites, Roles(held)) && allows == PooledAllow(overwrites, Roles(held))
  {
    hide Plus;
    denies, allows := 0, 0;
    for i := 0 to |overwrites|
      invariant denies == PooledDeny(overwrites[..i], Roles(held))
      invariant allows == PooledAllow(overwrites[..i], Roles(held))
    {
      assert overwrites[..i + 1][..i] == overwrites[..i];
      var overwrite := overwrites[i];
      var found := HoldsRole(held, overwrite.id);
      if overwrite.kind == ROLE_OVERWRITE && found {
        denies, allows := Plus(denies, overwrite.deny), Plus(allows, overwrite.allow);
      }
    }
    assert overwrites[..|overwrites|] == overwrites;
  }

  // memberPermissions
  method MemberPermissions(guild: Guild, channel: Channel, userID: string, held: seq<string>) returns (mask: bv64)
    ensures mask == Calculated(guild.ownerID, guild.id, guild.roles.Items(), channel.overwrites.Items(), userID, held)
  {
    if userID == guild.ownerID {
      return ALL;
    }
    mask := BaseMask(guild.id, guild.roles.Items(), held);
    mask := OverwriteMask(mask, guild.id, channel.overwrites.Items(), userID, held);
    if mask & ADMINISTRATOR == ADMINISTRATOR {
      mask := mask | ALL_CHANNEL;
    }
  }

  // ---------------------------------------------------------------- the rule for each bit

  /** An ID names at most one role; likewise for overwrites. Discord's IDs are unique. */
  ghost predicate RolesIdentified(roles: seq<Role>) {
    forall r, q :: r in roles && q in roles && r.id == q.id ==> r == q
  }

  ghost predicate OverwritesIdentified(overwrites: seq<Overwrite>) {
    forall o, q :: o in overwrites && q in overwrites && o.id == q.id ==> o == q
  }

  /** Inside a layer allow beats deny; what a layer does not mention stays. */
  predicate LayerBit(before: bool, denied: bool, allowed: bool) {
    allowed || (before && !denied)
  }

  ghost predicate RoleGrants(guildID: string, roles: seq<Role>, held: seq<string>, b: bv64) {
    exists r <- roles :: (r.id == guildID || r.id in held) && Has(r.permissions, b)
  }

  /** The bit before any overwrite: granted to everyone or to a held role, or implied by Administrator. */
  ghost predicate BaseBit(guildID: string, roles: seq<Role>, held: seq<string>, b: bv64) {
    RoleGrants(guildID, roles, held, b) || (RoleGrants(guildID, roles, held, ADMINISTRATOR) && Has(ALL, b))
  }

  ghost predicate Denies(overwrites: seq<Overwrite>, t: Target, b: bv64) {
    exists o <- overwrites :: IsFor(o, t) && Has(o.deny, b)
  }

  ghost predicate Allows(overwrites: seq<Overwrite>, t: Target, b: bv64) {
    exists o <- overwrites :: IsFor(o, t) && Has(o.allow, b)
  }

  ghost predicate OverwrittenBit(guildID: string, roles: seq<Role>, overwrites: seq<Overwrite>, userID: string,
                                 held: seq<string>, b: bv64)
  {
    var base := BaseBit(guildID, roles, held, b);
    var everyone := LayerBit(base, Denies(overwrites, Everyone(guildID), b), Allows(overwrites, Everyone(guildID), b));
    var pooled := LayerBit(everyone, Denies(overwrites, Roles(held), b), Allows(overwrites, Roles(held), b));
    LayerBit(pooled, Denies(overwrites, Member(userID), b), Allows(overwrites, Member(userID), b))
  }

  /** The documented hierarchy, for one bit of a member who does not own the guild. */
  ghost predicate RuleBit(guildID: string, roles: seq<Role>, overwrites: seq<Overwrite>, userID: string,
                          held: seq<string>, b: bv64)
  {
    || OverwrittenBit(guildID, roles, overwrites, userID, held, b)
    || (OverwrittenBit(guildID, roles, overwrites, userID, held, ADMINISTRATOR) && Has(ALL_CHANNEL, b))
  }

  lemma NoBits(b: bv64)
    ensures !Has(0, b)
  {
  }

  lemma {:induction false} FirstRoleMaskBit(roles: seq<Role>, id: string, b: bv64)
    requires RolesIdentified(roles)
    ensures Has(FirstRoleMask(roles, id), b) <==> exists r <- roles :: r.id == id && Has(r.permissions, b)
  {
    hide Has, Plus;
    NoBits(b);
    if roles != [] {
      assert forall r <- roles :: r == roles[0] || r in roles[1..];
      FirstRoleMaskBit(roles[1..], id, b);
      assert roles[0] in roles;
    }
  }

  lemma {:induction false} HeldMaskBit(start: bv64, roles: seq<Role>, held: seq<string>, b: bv64)
    ensures Has(HeldMask(start, roles, held), b) <==>
            Has(start, b) || exists r <- roles :: r.id in held && Has(r.permissions, b)
  {
    hide Has, Plus;
    if roles != [] {
      var before, last := roles[..|roles| - 1], roles[|roles| - 1];
      HeldMaskBit(start, before, held, b);
      OrBit(HeldMask(start, before, held), last.permissions, b);
      assert forall r :: r in roles <==> r in before || r == last;
    }
  }

  lemma BaseMaskBit(guildID: string, roles: seq<Role>, held: seq<string>, b: bv64)
    requires RolesIdentified(roles)
    ensures Has(HeldMask(FirstRoleMask(roles, guildID), roles, held), b) <==> RoleGrants(guildID, roles, held, b)
  {
    FirstRoleMaskBit(roles, guildID, b);
    HeldMaskBit(FirstRoleMask(roles, guildID), roles, held, b);
  }

  lemma BaseIsRule(guildID: string, roles: seq<Role>, held: seq<string>, b: bv64)
    requires RolesIdentified(roles)
    ensures Has(Base(guildID, roles, held), b) <==> BaseBit(guildID, roles, held, b)
  {
    hide Has, Plus, IsAdministrator, RoleGrants, HeldMask, FirstRoleMask;
    var mask := HeldMask(FirstRoleMask(roles, guildID), roles, held);
    BaseMaskBit(guildID, roles, held, b);
    BaseMaskBit(guildID, roles, held, ADMINISTRATOR);
    HoldsAdministrator(mask);
    OrBit(mask, ALL, b);
  }

  lemma LayerIsRule(mask: bv64, deny: bv64, allow: bv64, b: bv64)
    requires SingleBit(b)
    ensures Has(Layer(mask, deny, allow), b) <==> LayerBit(Has(mask, b), Has(deny, b), Has(allow, b))
  {
    ClearBit(mask, deny, b);
    OrBit(mask & !deny, allow, b);
  }

  lemma FirstDecides(overwrites: seq<Overwrite>, t: Target, b: bv64)
    requires overwrites != [] && IsFor(overwrites[0], t)
    requires forall o <- overwrites :: IsFor(o, t) ==> o == overwrites[0]
    ensures Denies(overwrites, t, b) <==> Has(overwrites[0].deny, b)
    ensures Allows(overwrites, t, b) <==> Has(overwrites[0].allow, b)
  {
    hide Has, IsFor;
    assert overwrites[0] in overwrites;
  }

  lemma FirstSkipped(overwrites: seq<Overwrite>, t: Target, b: bv64)
    requires overwrites != [] && !IsFor(overwrites[0], t)
    ensures Denies(overwrites, t, b) <==> Denies(overwrites[1..], t, b)
    ensures Allows(overwrites, t, b) <==> Allows(overwrites[1..], t, b)
  {
    hide Has, IsFor;
    assert forall o <- overwrites :: o == overwrites[0] || o in overwrites[1..];
  }

  lemma {:induction false} FirstLayerIsRule(mask: bv64, overwrites: seq<Overwrite>, t: Target, b: bv64)
    requires SingleBit(b) && OverwritesIdentified(overwrites) && !t.Roles?
    ensures Has(FirstLayer(mask, overwrites, t), b) <==>
            LayerBit(Has(mask, b), Denies(overwrites, t, b), Allows(overwrites, t, b))
  {
    hide Has, Layer, Denies, Allows;
    if overwrites == [] {
      NoOverwrites(t, b);
    } else if IsFor(overwrites[0], t) {
      assert overwrites[0] in overwrites;
      FirstDecides(overwrites, t, b);
      LayerIsRule(mask, overwrites[0].deny, overwrites[0].allow, b);
    } else {
      FirstSkipped(overwrites, t, b);
      FirstLayerIsRule(mask, overwrites[1..], t, b);
    }
  }

  lemma NoOverwrites(t: Target, b: bv64)
    ensures !Denies([], t, b) && !Allows([], t, b)
  {
  }

  lemma LastJoins(before: seq<Overwrite>, last: Overwrite, t: Target, b: bv64)
    ensures Denies(before + [last], t, b) <==> Denies(before, t, b) || (IsFor(last, t) && Has(last.deny, b))
    ensures Allows(before + [last], t, b) <==> Allows(before, t, b) || (IsFor(last, t) && Has(last.allow, b))
  {
    hide Has, IsFor;
    assert forall o <- before :: o in before + [last];
    assert last in before + [last];
  }

  lemma {:induction false} PoolBits(overwrites: seq<Overwrite>, t: Target, b: bv64)
    ensures Has(PooledDeny(overwrites, t), b) <==> Denies(overwrites, t, b)
    ensures Has(PooledAllow(overwrites, t), b) <==> Allows(overwrites, t, b)
  {
    hide Has, Plus, IsFor, Denies, Allows;
    NoBits(b);
    NoOverwrites(t, b);
    if overwrites != [] {
      var before, last := overwrites[..|overwrites| - 1], overwrites[|overwrites| - 1];
      PoolBits(before, t, b);
      OrBit(PooledDeny(before, t), last.deny, b);
      OrBit(PooledAllow(before, t), last.allow, b);
      assert overwrites == before + [last];
      LastJoins(before, last, t, b);
    }
  }

  lemma OverwrittenIsRule(guildID: string, roles: seq<Role>, overwrites: seq<Overwrite>, userID: string,
                          held: seq<string>, b: bv64)
    requires SingleBit(b) && RolesIdentified(roles) && OverwritesIdentified(overwrites)
    ensures Has(Overwritten(Base(guildID, roles, held), guildID, overwrites, userID, held), b) <==>
            OverwrittenBit(guildID, roles, overwrites, userID, held, b)
  {
    hide Has, Layer, Plus, IsAdministrator, Base, BaseBit, FirstLayer, PooledDeny, PooledAllow, IsFor, Denies, Allows;
    var base := Base(guildID, roles, held);
    var everyone := FirstLayer(base, overwrites, Everyone(guildID));
    var deny, allow := PooledDeny(overwrites, Roles(held)), PooledAllow(overwrites, Roles(held));
    BaseIsRule(guildID, roles, held, b);
    FirstLayerIsRule(base, overwrites, Everyone(guildID), b);
    PoolBits(overwrites, Roles(held), b);
    LayerIsRule(everyone, deny, allow, b);
    FirstLayerIsRule(Layer(everyone, deny, allow), overwrites, Member(userID), b);
  }

  /** For a member who does not own the guild, every bit of the calculated mask equals the layered rule. */
  lemma CalculatedIsRule(ownerID: string, guildID: string, roles: seq<Role>, overwrites: seq<Overwrite>,
                         userID: string, held: seq<string>, b: bv64)
    requires userID != ownerID && SingleBit(b) && RolesIdentified(roles) && OverwritesIdentified(overwrites)
    ensures Has(Calculated(ownerID, guildID, roles, overwrites, userID, held), b) <==>
            RuleBit(guildID, roles, overwrites, userID, held, b)
  {
    hide Has, Plus, IsAdministrator, SingleBit, Overwritten, OverwrittenBit;
    var mask := Overwritten(Base(guildID, roles, held), guildID, overwrites, userID, held);
    HoldsAdministrator(mask);
    OverwrittenIsRule(guildID, roles, overwrites, userID, held, b);
    OverwrittenIsRule(guildID, roles, overwrites, userID, held, ADMINISTRATOR);
    OrBit(mask, ALL_CHANNEL, b);
  }

  lemma Numbers()
    ensures ADMINISTRATOR == 8 && ALL == 0x73F3FDFF && ALL_CHANNEL == 0x13F3FDD1
    ensures ROLE_OVERWRITE == 0 && MEMBER_OVERWRITE == 1
  {
  }

  /** The bit before the overwrites, in numbers: roles, and what administrators (8) have. */
  ghost predicate Granted(guildID: string, roles: seq<Role>, held: seq<string>, b: bv64) {
    || (exists r <- roles :: (r.id == guildID || r.id in held) && r.permissions & b != 0)
    || ((exists r <- roles :: (r.id == guildID || r.id in held) && r.permissions & 8 != 0) && 0x73F3FDFF & b != 0)
  }

  /**
   The bit after the overwrites, in numbers: what is said about the member (type 1) decides, then what is said about its
   roles (type 0), then what is said about everyone, and a word for the bit decides over one against it.
   */
  ghost predicate Decided(guildID: string, overwrites: seq<Overwrite>, userID: string, held: seq<string>, b: bv64,
                          granted: bool)
  {
    if exists o <- overwrites :: o.kind == 1 && o.id == userID && o.allow & b != 0 then true
    else if exists o <- overwrites :: o.kind == 1 && o.id == userID && o.deny & b != 0 then false
    else if exists o <- overwrites :: o.kind == 0 && o.id in held && o.allow & b != 0 then true
    else if exists o <- overwrites :: o.kind == 0 && o.id in held && o.deny & b != 0 then false
    else if exists o <- overwrites :: o.id == guildID && o.allow & b != 0 then true
    else if exists o <- overwrites :: o.id == guildID && o.deny & b != 0 then false
    else granted
  }

  lemma GrantedIsBase(guildID: string, roles: seq<Role>, held: seq<string>, b: bv64)
    ensures BaseBit(guildID, roles, held, b) <==> Granted(guildID, roles, held, b)
  {
    Numbers();
    assert forall x, c :: Has(x, c) <==> x & c != 0;
    hide Has;
  }

  lemma EveryoneWords(overwrites: seq<Overwrite>, guildID: string, b: bv64)
    ensures Denies(overwrites, Everyone(guildID), b) <==> exists o <- overwrites :: o.id == guildID && o.deny & b != 0
    ensures Allows(overwrites, Everyone(guildID), b) <==> exists o <- overwrites :: o.id == guildID && o.allow & b != 0
  {
  }

  lemma RoleWords(overwrites: seq<Overwrite>, held: seq<string>, b: bv64)
    ensures Denies(overwrites, Roles(held), b) <==>
            exists o <- overwrites :: o.kind == 0 && o.id in held && o.deny & b != 0
    ensures Allows(overwrites, Roles(held), b) <==>
            exists o <- overwrites :: o.kind == 0 && o.id in held && o.allow & b != 0
  {
  }

  lemma MemberWords(overwrites: seq<Overwrite>, userID: string, b: bv64)
    ensures Denies(overwrites, Member(userID), b) <==>
            exists o <- overwrites :: o.kind == 1 && o.id == userID && o.deny & b != 0
    ensures Allows(overwrites, Member(userID), b) <==>
            exists o <- overwrites :: o.kind == 1 && o.id == userID && o.allow & b != 0
  {
  }

  lemma DecidedIsOverwritten(guildID: string, roles: seq<Role>, overwrites: seq<Overwrite>, userID: string,
                             held: seq<string>, b: bv64)
    ensures OverwrittenBit(guildID, roles, overwrites, userID, held, b) <==>
            Decided(guildID, overwrites, userID, held, b, Granted(guildID, roles, held, b))
  {
    hide BaseBit, Granted, Denies, Allows;
    GrantedIsBase(guildID, roles, held, b);
    EveryoneWords(overwrites, guildID, b);
    RoleWords(overwrites, held, b);
    MemberWords(overwrites, userID, b);
  }

  /** The whole calculation, read from the far end: who decides about a bit, and what an administrator (8) gets. */
  lemma DecidedByLastWord(ownerID: string, guildID: string, roles: seq<Role>, overwrites: seq<Overwrite>,
                          userID: string, held: seq<string>, b: bv64)
    requires userID != ownerID && SingleBit(b) && RolesIdentified(roles) && OverwritesIdentified(overwrites)
    ensures Calculated(ownerID, guildID, roles, overwrites, userID, held) & b != 0 <==>
      || Decided(guildID, overwrites, userID, held, b, Granted(guildID, roles, held, b))
      || (Decided(guildID, overwrites, userID, held, 8, Granted(guildID, roles, held, 8)) && 0x13F3FDD1 & b != 0)
  {
    CalculatedIsRule(ownerID, guildID, roles, overwrites, userID, held, b);
    DecidedIsOverwritten(guildID, roles, overwrites, userID, held, b);
    DecidedIsOverwritten(guildID, roles, overwrites, userID, held, 8);
    Numbers();
    hide Calculated, OverwrittenBit, Decided, Granted;
  }

  /** Whoever ends up with Administrator ends up with every channel permission; the owner has everything. */
  lemma AdministratorHasChannel(ownerID: string, guildID: string, roles: seq<Role>, overwrites: seq<Overwrite>,
                                userID: string, held: seq<string>)
    ensures var mask := Calculated(ownerID, guildID, roles, overwrites, userID, held);
            Has(mask, ADMINISTRATOR) ==> mask & ALL_CHANNEL == ALL_CHANNEL
    ensures userID == ownerID ==> Calculated(ownerID, guildID, roles, overwrites, userID, held) == 0x73F3FDFF
  {
    hide Overwritten, Base, Has, Plus, IsAdministrator;
    var mask := Overwritten(Base(guildID, roles, held), guildID, overwrites, userID, held);
    HoldsAdministrator(mask);
    ChannelBits(mask);
  }

  lemma ChannelBits(mask: bv64)
    ensures ALL & ALL_CHANNEL == ALL_CHANNEL
    ensures Plus(mask, ALL_CHANNEL) & ALL_CHANNEL == ALL_CHANNEL
    ensures Has(Plus(mask, ALL_CHANNEL), ADMINISTRATOR) <==> Has(mask, ADMINISTRATOR)
  {
  }

  // ---------------------------------------------------------------- order does not matter

  ghost predicate SameElements<T>(s: seq<T>, t: seq<T>) {
    (forall x <- s :: x in t) && (forall x <- t :: x in s)
  }

  lemma RuleIgnoresOrder(guildID: string, roles: seq<Role>, roles': seq<Role>, overwrites: seq<Overwrite>,
                         overwrites': seq<Overwrite>, userID: string, held: seq<string>, held': seq<string>, b: bv64)
    requires SameElements(roles, roles') && SameElements(overwrites, overwrites') && SameElements(held, held')
    ensures OverwrittenBit(guildID, roles, overwrites, userID, held, b) <==>
            OverwrittenBit(guildID, roles', overwrites', userID, held', b)
  {
    hide Has, Plus;
    assert forall c :: RoleGrants(guildID, roles, held, c) <==> RoleGrants(guildID, roles', held', c);
    assert forall o :: IsFor(o, Roles(held)) <==> IsFor(o, Roles(held'));
  }

  /** The mask depends only on which roles, held roles and overwrites there are, not on their order. */
  lemma CalculatedIgnoresOrder(ownerID: string, guildID: string, roles: seq<Role>, roles': seq<Role>,
                               overwrites: seq<Overwrite>, overwrites': seq<Overwrite>,
                               userID: string, held: seq<string>, held': seq<string>)
    requires SameElements(roles, roles') && SameElements(overwrites, overwrites') && SameElements(held, held')
    requires RolesIdentified(roles) && OverwritesIdentified(overwrites)
    ensures Calculated(ownerID, guildID, roles, overwrites, userID, held) ==
            Calculated(ownerID, guildID, roles', overwrites', userID, held')
  {
    var mask := Calculated(ownerID, guildID, roles, overwrites, userID, held);
    var mask' := Calculated(ownerID, guildID, roles', overwrites', userID, held');
    if userID != ownerID {
      forall b | SingleBit(b) ensures Has(mask, b) <==> Has(mask', b) {
        CalculatedIsRule(ownerID, guildID, roles, overwrites, userID, held, b);
        CalculatedIsRule(ownerID, guildID, roles', overwrites', userID, held', b);
        RuleIgnoresOrder(guildID, roles, roles', overwrites, overwrites', userID, held, held', b);
        RuleIgnoresOrder(guildID, roles, roles', overwrites, overwrites', userID, held, held', ADMINISTRATOR);
      }
      SameBits(mask, mask');
    }
  }

  lemma PermutedElements<T>(s: seq<T>, t: seq<T>)
    requires multiset(s) == multiset(t)
    ensures SameElements(s, t)
  {
    assert forall x <- s :: x in multiset(s);
    assert forall x <- t :: x in multiset(t);
  }

  // ---------------------------------------------------------------- the role sort and the name colour

  /** sort.Sort on Roles: highest position first; equal positions come in any order. */
  ghost predicate HighestFirst(roles: seq<Role>) {
    forall i, j :: 0 <= i < j < |roles| ==> roles[i].position >= roles[j].position
  }

  function Inserted(roles: seq<Role>, n: nat, role: Role): seq<Role>
    requires n <= |roles|
  {
    roles[..n] + [role] + roles[n..]
  }

  lemma InsertedKeepsOrder(roles: seq<Role>, n: nat, role: Role)
    requires HighestFirst(roles) && n <= |roles|
    requires (forall i :: 0 <= i < n ==> roles[i].position > role.position)
    requires n < |roles| ==> roles[n].position <= role.position
    ensures HighestFirst(Inserted(roles, n, role))
  {
    var r := Inserted(roles, n, role);
    assert forall i :: 0 <= i < |r| ==> r[i] == if i < n then roles[i] else if i == n then role else roles[i - 1];
  }

  lemma InsertedElements(roles: seq<Role>, n: nat, role: Role)
    requires n <= |roles|
    ensures multiset(Inserted(roles, n, role)) == multiset(roles) + multiset{role}
  {
    assert roles == roles[..n] + roles[n..];
  }

  method InsertRole(roles: seq<Role>, role: Role) returns (r: seq<Role>)
    requires HighestFirst(roles)
    ensures HighestFirst(r) && multiset(r) == multiset(roles) + multiset{role}
  {
    hide HighestFirst;
    var n := 0;
    while n < |roles| && roles[n].position > role.position
      invariant n <= |roles| && forall i :: 0 <= i < n ==> roles[i].position > role.position
    {
      n := n + 1;
    }
    InsertedKeepsOrder(roles, n, role);
    InsertedElements(roles, n, role);
    r := Inserted(roles, n, role);
  }

  method SortRoles(roles: seq<Role>) returns (r: seq<Role>)
    ensures HighestFirst(r) && multiset(r) == multiset(roles)
  {
    r := [];
    for i := 0 to |roles|
      invariant HighestFirst(r) && multiset(r) == multiset(roles[..i])
    {
      assert roles[..i + 1] == roles[..i] + [roles[i]];
      r := InsertRole(r, roles[i]);
    }
    assert roles[..|roles|] == roles;
  }

  predicate ColoursMember(r: Role, held: seq<string>) {
    r.id in held && r.color != 0
  }

  /** The colour of a coloured held role above which there is none; else that of @everyone; else 0. */
  ghost predicate IsNameColour(roles: seq<Role>, guildID: string, held: seq<string>, colour: int) {
    if exists r <- roles :: ColoursMember(r, held) then
      exists r <- roles :: ColoursMember(r, held) && colour == r.color
        && forall q <- roles :: ColoursMember(q, held) ==> q.position <= r.position
    else if exists r <- roles :: r.id == guildID then
      exists r <- roles :: r.id == guildID && colour == r.color
    else colour == 0
  }

  method ColourOf(roles: seq<Role>, guildID: string, held: seq<string>) returns (colour: int)
    requires HighestFirst(roles)
    ensures IsNameColour(roles, guildID, held, colour)
  {
    for i := 0 to |roles|
      invariant forall k :: 0 <= k < i ==> !ColoursMember(roles[k], held)
    {
      var found := HoldsRole(held, roles[i].id);
      if found && roles[i].color != 0 {
        assert ColoursMember(roles[i], held) && roles[i] in roles;
        return roles[i].color;
      }
    }
    for i := 0 to |roles|
      invariant forall k :: 0 <= k < i ==> roles[k].id != guildID
    {
      if roles[i].id == guildID {
        assert roles[i] in roles;
        return roles[i].color;
      }
    }
    return 0;
  }

  // firstRoleColorColor: it sorts guild.Roles in place, and so changes no one's permissions
  method FirstRoleColour(guild: Guild, held: seq<string>) returns (colour: int)
    requires RolesIdentified(guild.roles.Items())
    modifies guild`roles
    ensures HighestFirst(guild.roles.Items()) && multiset(guild.roles.Items()) == old(multiset(guild.roles.Items()))
    ensures IsNameColour(old(guild.roles.Items()), guild.id, held, colour)
    ensures forall overwrites, userID, roleIDs
              {:trigger Calculated(guild.ownerID, guild.id, guild.roles.Items(), overwrites, userID, roleIDs)} ::
              OverwritesIdentified(overwrites) ==>
                Calculated(guild.ownerID, guild.id, guild.roles.Items(), overwrites, userID, roleIDs) ==
                old(Calculated(guild.ownerID, guild.id, guild.roles.Items(), overwrites, userID, roleIDs))
  {
    ghost var before := guild.roles.Items();
    var roles := SortRoles(guild.roles.Items());
    if guild.roles.Slice? {
      guild.roles := Slice(roles);
    }
    PermutedElements(before, roles);
    colour := ColourOf(roles, guild.id, held);
    ColourIgnoresOrder(roles, before, guild.id, held, colour);
    forall overwrites, userID, roleIDs | OverwritesIdentified(overwrites)
      ensures Calculated(guild.ownerID, guild.id, roles, overwrites, userID, roleIDs) ==
              Calculated(guild.ownerID, guild.id, before, overwrites, userID, roleIDs)
    {
      CalculatedIgnoresOrder(guild.ownerID, guild.id, before, roles, overwrites, overwrites, userID, roleIDs, roleIDs);
    }
  }

  lemma ColourIgnoresOrder(roles: seq<Role>, roles': seq<Role>, guildID: string, held: seq<string>, colour: int)
    requires SameElements(roles, roles') && IsNameColour(roles, guildID, held, colour)
    ensures IsNameColour(roles', guildID, held, colour)
  {
  }
}
