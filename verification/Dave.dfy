/**
 The DAVE key controller of a voice connection. It owns libdave handles (ratchets, decryptors, one encryptor, one MLS
 session) that point at each other without owning each other, and must close and re-point them in step.
 */
module Dave {
  import opened Wrappers

  /** A libdave ratchet handle: the key material of one user. Close is idempotent. */
  class KeyRatchet {
    ghost const user: string
    var open: bool

    constructor (ghost user: string)
      ensures this.user == user && open
    {
      this.user, open := user, true;
    }

    method Close()
      modifies this`open
      ensures !open
    {
      open := false;
    }
  }

  /** A libdave decryptor. It borrows the ratchet it is pointed at. */
  class Decryptor {
    ghost const ssrc: nat
    var open: bool
    var installed: KeyRatchet?
    var passthrough: bool

    constructor (ghost ssrc: nat)
      ensures this.ssrc == ssrc && open && installed == null && passthrough
    {
      this.ssrc, open, installed, passthrough := ssrc, true, null, true;
    }

    method Close()
      modifies this`open
      ensures !open
    {
      open := false;
    }

    method TransitionToKeyRatchet(kr: KeyRatchet)
      modifies this`installed
      ensures installed == if open && kr.open then kr else if open then null else old(installed)
    {
      if open {
        installed := if kr.open then kr else null;
      }
    }
  }

  /** A libdave encryptor. It borrows its ratchet too. */
  class Encryptor {
    var open: bool
    var installed: KeyRatchet?
    var passthrough: bool

    constructor ()
      ensures open && installed == null
    {
      open, installed, passthrough := true, null, true;
    }

    method Close()
      modifies this`open
      ensures !open
    {
      open := false;
    }

    method SetKeyRatchet(kr: KeyRatchet)
      modifies this`installed
      ensures installed == if open && kr.open then kr else if open then null else old(installed)
    {
      if open {
        installed := if kr.open then kr else null;
      }
    }
  }

  class MlsSession {
    var open: bool
    var version: int

    constructor (version: int)
      ensures open && this.version == version
    {
      open, this.version := true, version;
    }
  }

  datatype Connection = Connection(userID: string, channelID: string)

  datatype SpeakingUpdate = SpeakingUpdate(userID: string, ssrc: int)

  datatype DaveError = NilPacket | NilConnection | InvalidChannel | NoRatchet | NoDecryptor | NilResult | Rejected

  /** What becomes of an Opus frame: untouched, refused, or handed to libdave under the ratchet then installed. */
  datatype Frame = Plain | Refused(error: DaveError) | Keyed(ratchet: KeyRatchet?)

  /** What libdave answers to a commit or a welcome (a welcome has no Failed or Ignored). */
  datatype MlsResult = NoResult | Failed | Ignored | Applied(roster: seq<nat>)

  /** The outcome of a commit or welcome; invalidSent says that the invalid-commit message went out. */
  datatype Reply = Reply(ready: bool, error: Option<DaveError>, invalidSent: bool)

  /** The reply to a commit, given what ensureSession said. */
  function CommitReply(empty: bool, error: Option<DaveError>, result: MlsResult): Reply {
    if empty then Reply(false, None, false)
    else if error.Some? then Reply(false, error, false)
    else if result == NoResult then Reply(false, Some(NilResult), true)
    else if result == Failed then Reply(false, Some(Rejected), true)
    else Reply(true, None, false)
  }

  function WelcomeResult(roster: Option<seq<nat>>): MlsResult {
    if roster.None? then NoResult else Applied(roster.value)
  }

  predicate IsDigit(c: char) {
    '0' <= c <= '9'
  }

  /** The value of a string of decimal digits. */
  function Value(s: string): (n: Option<nat>)
    ensures n.Some? <==> forall c <- s :: IsDigit(c)
  {
    if s == [] then Some(0)
    else
      var last := s[|s| - 1];
      assert s == s[..|s| - 1] + [last];
      match Value(s[..|s| - 1])
      case Some(n) => if IsDigit(last) then Some(10 * n + (last as int - '0' as int)) else None
      case None => None
  }

  /** strconv.ParseUint(s, 10, 64). */
  function ParseUint64(s: string): Option<nat> {
    if s == [] then None
    else match Value(s)
      case Some(n) => if n < 0x1_0000_0000_0000_0000 then Some(n) else None
      case None => None
  }

  /** A number is refused if it is empty, has a character that is no digit, or does not fit 64 bits. */
  lemma RefusedNumbers(s: string)
    ensures ParseUint64(s).None? <==>
      s == "" || (exists c <- s :: !('0' <= c <= '9')) || Value(s).value >= 18446744073709551616
    ensures ParseUint64(s).Some? ==> ParseUint64(s) == Value(s)
  {
  }

  /** Leading zeros do not count. */
  lemma {:induction false} LeadingZeros(s: string)
    ensures Value("0" + s) == Value(s)
  {
    if s == "" {
      assert "0" + s == "0" && Value("0"[..0]) == Some(0);
    } else {
      var front, last := s[..|s| - 1], s[|s| - 1];
      LeadingZeros(front);
      assert ("0" + s)[..|s|] == "0" + front && ("0" + s)[|s|] == last;
    }
  }

  /** strconv.FormatUint(n, 10). */
  function FormatUint(n: nat): (s: string)
    ensures s != []
  {
    if n < 10 then [('0' as int + n) as char] else FormatUint(n / 10) + [('0' as int + n % 10) as char]
  }

  /** Digits without a leading zero: the way user IDs are written. */
  predicate Canonical(s: string) {
    s != "" && (forall c <- s :: '0' <= c <= '9') && (|s| > 1 ==> s[0] != '0')
  }

  lemma FormatAppends(v: nat, d: nat)
    requires v > 0 && d < 10
    ensures FormatUint(10 * v + d) == FormatUint(v) + [('0' as int + d) as char]
  {
    assert (10 * v + d) / 10 == v && (10 * v + d) % 10 == d;
  }

  lemma ValueAppends(s: string, c: char)
    requires Value(s).Some? && IsDigit(c)
    ensures Value(s + [c]) == Some(10 * Value(s).value + (c as int - '0' as int))
  {
    assert (s + [c])[..|s|] == s;
  }

  /** Parsing a canonical number and formatting it again gives the same digits. */
  lemma {:induction false} ParsedIDFormats(s: string)
    requires Canonical(s)
    ensures Value(s).Some? && FormatUint(Value(s).value) == s
    ensures s[0] != '0' ==> Value(s).value > 0
    ensures |s| > 1 ==> Value(s).value >= 10
  {
    hide Value, FormatUint;
    var front, last := s[..|s| - 1], s[|s| - 1];
    assert s == front + [last] && last in s;
    if front == "" {
      OneDigit(last);
    } else {
      assert forall c <- front :: c in s;
      ParsedIDFormats(front);
      ValueAppends(front, last);
      FormatAppends(Value(front).value, last as int - '0' as int);
    }
  }

  lemma OneDigit(c: char)
    requires IsDigit(c)
    ensures Value([c]) == Some(c as int - '0' as int) && FormatUint(c as int - '0' as int) == [c]
  {
    assert [c][..0] == "" && Value("") == Some(0);
  }

  lemma {:induction false} FormattedIsCanonical(n: nat)
    ensures Canonical(FormatUint(n)) && Value(FormatUint(n)) == Some(n)
  {
    if n >= 10 {
      FormattedIsCanonical(n / 10);
      assert FormatUint(n)[..|FormatUint(n)| - 1] == FormatUint(n / 10);
      assert FormatUint(n / 10) == "0" ==> Value("0") == Some(0);
    } else {
      assert FormatUint(n)[..0] == [] && Value([]) == Some(0);
    }
  }

  /** Roster entries are user IDs: formatting one and parsing it back gives the same number. */
  lemma FormattedIDParses(n: nat)
    requires n < 0x1_0000_0000_0000_0000
    ensures ParseUint64(FormatUint(n)) == Some(n)
  {
    FormattedIsCanonical(n);
  }

  /**
   Who points at which ratchet: the ratchet of every user, the user of every SSRC, what every decryptor (by SSRC) and
   the encryptor have installed, and whether the encryptor has been pointed since the local ratchet last changed.
   */
  datatype Keys = Keys(
    me: string,
    ratchets: map<string, KeyRatchet>,
    ssrcUsers: map<nat, string>,
    installed: map<nat, KeyRatchet?>,
    outbound: KeyRatchet?,
    pointed: bool)

  ghost predicate Grounded(k: Keys) {
    && "" !in k.ratchets
    && (forall s <- k.ssrcUsers :: k.ssrcUsers[s] != "")
    && (forall s <- k.installed :: s in k.ssrcUsers)
  }

  /** The decryptor of this SSRC, if there is one, points at the entry of the user the SSRC belongs to. */
  ghost predicate CurrentAt(k: Keys, ssrc: nat) {
    ssrc in k.installed ==>
      && ssrc in k.ssrcUsers
      && k.ssrcUsers[ssrc] in k.ratchets
      && k.installed[ssrc] == k.ratchets[k.ssrcUsers[ssrc]]
  }

  ghost predicate Current(k: Keys) {
    forall s: nat :: CurrentAt(k, s)
  }

  /** Every SSRC that is current in k is current in n. */
  ghost predicate KeepsCurrent(k: Keys, n: Keys) {
    forall s: nat :: CurrentAt(k, s) ==> CurrentAt(n, s)
  }

  /** An encryptor that counts as pointed points at the local user's entry, if there is one. */
  ghost predicate OutboundCurrent(k: Keys) {
    k.pointed && k.me in k.ratchets ==> k.outbound == k.ratchets[k.me]
  }

  ghost function Aim(was: KeyRatchet?, ssrc: nat, users: map<nat, string>, user: string, r: KeyRatchet): KeyRatchet? {
    if ssrc in users && users[ssrc] == user then r else was
  }

  ghost function Repoint(installed: map<nat, KeyRatchet?>, users: map<nat, string>, user: string, r: KeyRatchet)
    : map<nat, KeyRatchet?>
  {
    map s | s in installed :: Aim(installed[s], s, users, user, r)
  }

  /** installRatchet. */
  ghost function Install(k: Keys, user: string, r: KeyRatchet): Keys {
    k.(ratchets := k.ratchets[user := r],
       installed := Repoint(k.installed, k.ssrcUsers, user, r),
       pointed := k.pointed && user != k.me)
  }

  ghost function UsersSSRCs(users: map<nat, string>, user: string): set<nat> {
    set s | s in users && users[s] == user
  }

  /** ClientDisconnected. */
  ghost function Disconnect(k: Keys, user: string): Keys {
    k.(ratchets := k.ratchets - {user},
       ssrcUsers := k.ssrcUsers - UsersSSRCs(k.ssrcUsers, user),
       installed := k.installed - UsersSSRCs(k.ssrcUsers, user))
  }

  /** A new decryptor for the SSRC, pointed at r. */
  ghost function Mint(k: Keys, ssrc: nat, r: KeyRatchet): Keys {
    k.(installed := k.installed[ssrc := r])
  }

  ghost function Map(k: Keys, ssrc: nat, user: string): Keys {
    k.(ssrcUsers := k.ssrcUsers[ssrc := user])
  }

  /** The encryptor pointed at r, unless it counts as pointed already. */
  ghost function Point(k: Keys, r: KeyRatchet): Keys {
    k.(outbound := if k.pointed then k.outbound else r, pointed := true)
  }

  /** Every ratchet is kept under its own user, so two users never share one. */
  ghost predicate KeyedByUser(k: Keys) {
    forall u <- k.ratchets :: k.ratchets[u].user == u
  }

  lemma InstallKeeps(k: Keys, user: string, r: KeyRatchet)
    requires Grounded(k) && user != ""
    ensures Grounded(Install(k, user, r))
    ensures OutboundCurrent(k) ==> OutboundCurrent(Install(k, user, r))
    ensures KeepsCurrent(k, Install(k, user, r))
  {
  }

  /** A disconnect takes out the user's ratchet and SSRCs, and with them every decryptor that points at that ratchet. */
  lemma DisconnectKeeps(k: Keys, user: string)
    requires Grounded(k)
    ensures Grounded(Disconnect(k, user))
    ensures OutboundCurrent(k) ==> OutboundCurrent(Disconnect(k, user))
    ensures KeepsCurrent(k, Disconnect(k, user))
    ensures var n := Disconnect(k, user);
      && user !in n.ratchets && user !in n.ssrcUsers.Values
      && (forall s <- k.ssrcUsers :: k.ssrcUsers[s] != user ==> s in n.ssrcUsers)
      && (forall s <- k.installed ::
        k.ssrcUsers[s] != user ==> s in n.installed && n.installed[s] == k.installed[s])
    ensures KeyedByUser(k) && Current(k) && user in k.ratchets ==>
      k.ratchets[user] !in Disconnect(k, user).installed.Values
  {
    var n := Disconnect(k, user);
    if KeyedByUser(k) && Current(k) && user in k.ratchets {
      forall s <- n.installed
        ensures n.installed[s] != k.ratchets[user]
      {
        assert CurrentAt(k, s);
      }
    }
  }

  /** A speaking update moves this SSRC away from the user its live decryptor was made for. */
  ghost predicate Remaps(k: Keys, ssrc: nat, user: string) {
    ssrc in k.installed && ssrc in k.ssrcUsers && k.ssrcUsers[ssrc] != user
  }

  /** Handing an SSRC to another user leaves its decryptor on the ratchet of the former one, and nothing else does. */
  lemma MapKeepsExactlyWhen(k: Keys, ssrc: nat, user: string)
    requires Grounded(k) && KeyedByUser(k) && user != ""
    ensures Grounded(Map(k, ssrc, user))
    ensures OutboundCurrent(k) ==> OutboundCurrent(Map(k, ssrc, user))
    ensures Current(k) ==> (Current(Map(k, ssrc, user)) <==> !Remaps(k, ssrc, user))
    ensures forall s: nat :: s != ssrc ==> (CurrentAt(Map(k, ssrc, user), s) <==> CurrentAt(k, s))
  {
    var n := Map(k, ssrc, user);
    if Current(k) {
      assert CurrentAt(k, ssrc);
      assert CurrentAt(n, ssrc) <==> !Remaps(k, ssrc, user);
      forall s: nat | s != ssrc
        ensures CurrentAt(n, s)
      {
        assert CurrentAt(k, s);
      }
    }
  }

  lemma MintKeeps(k: Keys, ssrc: nat, r: KeyRatchet)
    requires Grounded(k) && ssrc in k.ssrcUsers && k.ssrcUsers[ssrc] in k.ratchets && k.ratchets[k.ssrcUsers[ssrc]] == r
    ensures Grounded(Mint(k, ssrc, r))
    ensures OutboundCurrent(k) ==> OutboundCurrent(Mint(k, ssrc, r))
    ensures KeepsCurrent(k, Mint(k, ssrc, r))
  {
  }

  lemma PointKeeps(k: Keys, r: KeyRatchet)
    requires Grounded(k) && OutboundCurrent(k) && k.me in k.ratchets && r == k.ratchets[k.me]
    ensures Grounded(Point(k, r)) && OutboundCurrent(Point(k, r)) && KeepsCurrent(k, Point(k, r))
  {
  }

  /** The steps every method of the controller is made of. */
  datatype KeyStep =
    | InstallStep(user: string, r: KeyRatchet)
    | DisconnectStep(user: string)
    | MapStep(ssrc: nat, user: string)
    | MintStep(ssrc: nat)
    | PointStep
    | CloseStep

  ghost predicate CanStep(x: KeyStep) {
    match x
    case InstallStep(user, r) => user != "" && r.user == user
    case MapStep(ssrc, user) => user != ""
    case _ => true
  }

  ghost function Apply(k: Keys, x: KeyStep): Keys {
    match x
    case InstallStep(user, r) => Install(k, user, r)
    case DisconnectStep(user) => Disconnect(k, user)
    case MapStep(ssrc, user) => Map(k, ssrc, user)
    case MintStep(ssrc) =>
      if ssrc !in k.installed && ssrc in k.ssrcUsers && k.ssrcUsers[ssrc] in k.ratchets
      then Mint(k, ssrc, k.ratchets[k.ssrcUsers[ssrc]]) else k
    case PointStep => if k.me in k.ratchets then Point(k, k.ratchets[k.me]) else k
    case CloseStep => k.(ratchets := map[], installed := map[], outbound := null)
  }

  ghost function Run(k: Keys, xs: seq<KeyStep>): Keys {
    if xs == [] then k else Apply(Run(k, xs[..|xs| - 1]), xs[|xs| - 1])
  }

  lemma RunNext(k: Keys, xs: seq<KeyStep>, x: KeyStep)
    ensures Run(k, xs + [x]) == Apply(Run(k, xs), x)
  {
    assert (xs + [x])[..|xs|] == xs;
  }

  lemma NoSteps(k: Keys)
    ensures Run(k, []) == k
  {
  }

  /** No step of the run moves an SSRC with a live decryptor to another user. */
  ghost predicate NeverRemaps(k: Keys, xs: seq<KeyStep>) {
    xs != [] ==>
      && NeverRemaps(k, xs[..|xs| - 1])
      && (xs[|xs| - 1].MapStep? ==> !Remaps(Run(k, xs[..|xs| - 1]), xs[|xs| - 1].ssrc, xs[|xs| - 1].user))
  }

  ghost predicate Sound(k: Keys) {
    Grounded(k) && KeyedByUser(k) && OutboundCurrent(k)
  }

  lemma ApplyKeeps(k: Keys, x: KeyStep)
    requires Sound(k) && CanStep(x)
    ensures Sound(Apply(k, x)) && Apply(k, x).me == k.me
    ensures Current(k) && (x.MapStep? ==> !Remaps(k, x.ssrc, x.user)) ==> Current(Apply(k, x))
  {
    match x
    case InstallStep(user, r) => InstallKeeps(k, user, r);
    case DisconnectStep(user) => DisconnectKeeps(k, user);
    case MapStep(ssrc, user) => MapKeepsExactlyWhen(k, ssrc, user);
    case MintStep(ssrc) =>
      if ssrc !in k.installed && ssrc in k.ssrcUsers && k.ssrcUsers[ssrc] in k.ratchets {
        MintKeeps(k, ssrc, k.ratchets[k.ssrcUsers[ssrc]]);
      }
    case PointStep =>
      if k.me in k.ratchets {
        PointKeeps(k, k.ratchets[k.me]);
      }
    case CloseStep =>
  }

  /** The step puts the decryptor of this SSRC right, or takes it away. */
  ghost predicate Mends(k: Keys, x: KeyStep, ssrc: nat) {
    match x
    case InstallStep(user, _) => ssrc in k.ssrcUsers && k.ssrcUsers[ssrc] == user
    case DisconnectStep(user) => ssrc in k.ssrcUsers && k.ssrcUsers[ssrc] == user
    case MapStep(s, user) =>
      s == ssrc && (ssrc in k.installed ==> user in k.ratchets && k.installed[ssrc] == k.ratchets[user])
    case CloseStep => true
    case _ => false
  }

  /** The step hands this SSRC with a live decryptor to another user. */
  ghost predicate Moves(k: Keys, x: KeyStep, ssrc: nat) {
    x.MapStep? && x.ssrc == ssrc && Remaps(k, ssrc, x.user)
  }

  /** For each SSRC and each step: current afterwards exactly if the step mends it, or it was and is not moved. */
  lemma CurrentAtExactlyWhen(k: Keys, x: KeyStep, ssrc: nat)
    requires Sound(k) && CanStep(x)
    ensures CurrentAt(Apply(k, x), ssrc) <==> Mends(k, x, ssrc) || (CurrentAt(k, ssrc) && !Moves(k, x, ssrc))
  {
  }

  ghost predicate NeverMends(k: Keys, xs: seq<KeyStep>, ssrc: nat) {
    xs != [] ==> NeverMends(k, xs[..|xs| - 1], ssrc) && !Mends(Run(k, xs[..|xs| - 1]), xs[|xs| - 1], ssrc)
  }

  /** A decryptor that points at the wrong ratchet goes on doing so until a step mends it. */
  lemma {:induction false} StaleStaysStale(k: Keys, xs: seq<KeyStep>, ssrc: nat)
    requires Sound(k) && (forall x <- xs :: CanStep(x)) && !CurrentAt(k, ssrc) && NeverMends(k, xs, ssrc)
    ensures Sound(Run(k, xs)) && !CurrentAt(Run(k, xs), ssrc)
  {
    if xs != [] {
      StaleStaysStale(k, xs[..|xs| - 1], ssrc);
      CurrentAtExactlyWhen(Run(k, xs[..|xs| - 1]), xs[|xs| - 1], ssrc);
      ApplyKeeps(Run(k, xs[..|xs| - 1]), xs[|xs| - 1]);
    }
  }

  ghost function NewKeys(me: string): Keys {
    Keys(me, map[], map[], map[], null, false)
  }

  /** Over every run: all decryptors and the encryptor follow the ratchets of their users. */
  lemma {:induction false} RunKeepsCurrent(me: string, xs: seq<KeyStep>)
    requires forall x <- xs :: CanStep(x)
    ensures Sound(Run(NewKeys(me), xs)) && Run(NewKeys(me), xs).me == me
    ensures NeverRemaps(NewKeys(me), xs) ==> Current(Run(NewKeys(me), xs))
  {
    if xs != [] {
      RunKeepsCurrent(me, xs[..|xs| - 1]);
      ApplyKeeps(Run(NewKeys(me), xs[..|xs| - 1]), xs[|xs| - 1]);
    }
  }

  /** Whenever an encryptor is about to encrypt it has the local user's ratchet of that moment. */
  lemma PointedIsCurrent(me: string, xs: seq<KeyStep>)
    requires forall x <- xs :: CanStep(x)
    requires me in Run(NewKeys(me), xs).ratchets
    ensures Apply(Run(NewKeys(me), xs), PointStep).outbound == Run(NewKeys(me), xs).ratchets[me]
  {
    RunKeepsCurrent(me, xs);
  }

  /** An SSRC reused by a second user while the first is still connected ends up on a ratchet nobody owns. */
  lemma RemapOutlivesRatchet(me: string, first: string, second: string, r: KeyRatchet)
    requires first != second && first != "" && second != "" && r.user == first
    ensures var k := Run(NewKeys(me),
        [InstallStep(first, r), MapStep(1, first), MintStep(1), MapStep(1, second), DisconnectStep(first)]);
      1 in k.installed && k.installed[1] == r && r !in k.ratchets.Values
  {
    var k0 := NewKeys(me);
    var x0, x1, x2 := InstallStep(first, r), MapStep(1, first), MintStep(1);
    var x3, x4 := MapStep(1, second), DisconnectStep(first);
    assert [x0, x1, x2, x3, x4][..4] == [x0, x1, x2, x3];
    assert [x0, x1, x2, x3][..3] == [x0, x1, x2];
    assert [x0, x1, x2][..2] == [x0, x1] && [x0, x1][..1] == [x0] && [x0][..0] == [];
    var k1 := Apply(k0, x0);
    var k2 := Apply(k1, x1);
    var k3 := Apply(k2, x2);
    var k4 := Apply(k3, x3);
    assert k3.installed == map[1 := r] && k4.ssrcUsers == map[1 := second];
    assert Run(k0, []) == k0;
    assert Run(k0, [x0]) == k1;
    assert Run(k0, [x0, x1]) == k2;
    assert Run(k0, [x0, x1, x2]) == k3;
    assert Run(k0, [x0, x1, x2, x3]) == k4;
  }

  /** From k to n exactly these users got a ratchet that was not among the former handles. */
  ghost predicate Refreshed(k: Keys, n: Keys, users: set<string>, former: set<KeyRatchet>) {
    && n.ratchets.Keys == k.ratchets.Keys + users
    && (forall u <- n.ratchets :: if u in users then n.ratchets[u] !in former else n.ratchets[u] == k.ratchets[u])
    && n.me == k.me && n.ssrcUsers == k.ssrcUsers && n.installed.Keys == k.installed.Keys && n.outbound == k.outbound
    && n.pointed == (k.pointed && k.me !in users)
    && (forall s <- n.installed ::
      n.installed[s] == if Follows(n, s, users) then n.ratchets[n.ssrcUsers[s]] else k.installed[s])
  }

  lemma RefreshedIf(k: Keys, n: Keys, users: set<string>, former: set<KeyRatchet>)
    requires Refreshed(k, n, users, former)
    ensures forall user :: user in users ==> user in n.ratchets && n.ratchets[user] !in former
    ensures forall user :: user !in users && user in k.ratchets ==>
      user in n.ratchets && n.ratchets[user] == k.ratchets[user]
    ensures forall user :: user !in users && user !in k.ratchets ==> user !in n.ratchets
  {
  }

  /** The SSRC belongs to one of these users. */
  ghost predicate Follows(k: Keys, ssrc: nat, users: set<string>) {
    ssrc in k.ssrcUsers && k.ssrcUsers[ssrc] in users
  }

  /** A refresh mends exactly the decryptors of the users it brings a ratchet for. */
  lemma RefreshedCurrentAt(k: Keys, n: Keys, users: set<string>, former: set<KeyRatchet>, ssrc: nat)
    requires Refreshed(k, n, users, former)
    ensures CurrentAt(n, ssrc) <==> Follows(k, ssrc, users) || CurrentAt(k, ssrc)
  {
  }

  /** The keys before this one of the users was refreshed. */
  ghost function Unrefreshed(k: Keys, n: Keys, user: string): Keys {
    n.(ratchets := if user in k.ratchets then n.ratchets[user := k.ratchets[user]] else n.ratchets - {user},
       installed := map s | s in n.installed ::
         if Follows(n, s, {user}) && s in k.installed then k.installed[s] else n.installed[s],
       pointed := if user == k.me then k.pointed else n.pointed)
  }

  /** Each of these users has a ratchet of its own. */
  ghost predicate Supplied(n: Keys, users: set<string>) {
    forall u <- users :: u != "" && u in n.ratchets && n.ratchets[u].user == u
  }

  lemma StillSupplied(k: Keys, n: Keys, users: set<string>, user: string)
    requires Supplied(n, users)
    ensures Supplied(Unrefreshed(k, n, user), users - {user})
    ensures user in users ==> user in n.ratchets && CanStep(InstallStep(user, n.ratchets[user]))
  {
  }

  lemma UnrefreshedLast(k: Keys, n: Keys, users: set<string>, former: set<KeyRatchet>, user: string)
    requires Refreshed(k, n, users, former) && user in users
    ensures Refreshed(k, Unrefreshed(k, n, user), users - {user}, former)
  {
    var m := Unrefreshed(k, n, user);
    assert m.ratchets.Keys == k.ratchets.Keys + (users - {user});
    forall s | s in m.installed
      ensures m.installed[s] ==
        if Follows(m, s, users - {user}) then m.ratchets[m.ssrcUsers[s]] else k.installed[s]
    {
      assert Follows(n, s, users) <==> Follows(m, s, users - {user}) || Follows(n, s, {user});
    }
  }

  lemma RefreshedLast(k: Keys, n: Keys, users: set<string>, former: set<KeyRatchet>, user: string)
    requires Refreshed(k, n, users, former) && user in users
    ensures n == Install(Unrefreshed(k, n, user), user, n.ratchets[user])
  {
    var m := Unrefreshed(k, n, user);
    assert n.ratchets == m.ratchets[user := n.ratchets[user]];
    forall s | s in n.installed
      ensures n.installed[s] == Aim(m.installed[s], s, m.ssrcUsers, user, n.ratchets[user])
    {
      assert Follows(n, s, {user}) ==> Follows(n, s, users);
    }
    assert n.installed == Repoint(m.installed, m.ssrcUsers, user, n.ratchets[user]);
  }

  lemma NothingRefreshedBack(k: Keys, n: Keys, users: set<string>, former: set<KeyRatchet>)
    requires Refreshed(k, n, users, former) && users == {}
    ensures n == k
  {
    assert n.ratchets == k.ratchets && n.installed == k.installed;
  }

  lemma {:induction false} RefreshSteps(k: Keys, n: Keys, users: set<string>, former: set<KeyRatchet>)
    returns (xs: seq<KeyStep>)
    requires Refreshed(k, n, users, former) && Supplied(n, users)
    ensures Run(k, xs) == n && |xs| == |users|
    ensures forall x <- xs :: CanStep(x) && x.InstallStep? && x.user in users
    decreases |users|
  {
    hide Refreshed, Unrefreshed, Install, Supplied, CanStep, Run;
    if users == {} {
      NothingRefreshedBack(k, n, users, former);
      NoSteps(k);
      return [];
    }
    var user :| user in users;
    UnrefreshedLast(k, n, users, former, user);
    RefreshedLast(k, n, users, former, user);
    StillSupplied(k, n, users, user);
    xs := RefreshSteps(k, Unrefreshed(k, n, user), users - {user}, former);
    RunNext(k, xs, InstallStep(user, n.ratchets[user]));
    xs := xs + [InstallStep(user, n.ratchets[user])];
  }

  /** The local user, as long as there is one without a ratchet. */
  ghost function MissingSelf(k: Keys): set<string> {
    if k.me != "" && k.me !in k.ratchets then {k.me} else {}
  }

  lemma NothingRefreshed(k: Keys, users: set<string>, offer: set<string>, former: set<KeyRatchet>)
    requires users == {}
    ensures Refreshed(k, k, users * offer, former)
  {
  }

  lemma RefreshedNext(k: Keys, n: Keys, users: set<string>, former: set<KeyRatchet>, user: string, r: KeyRatchet)
    requires Refreshed(k, n, users, former) && user !in users && r !in former
    ensures Refreshed(k, Install(n, user, r), users + {user}, former)
  {
  }

  /** A refresh is a run of installs, one for each of the users. */
  lemma RefreshedIsRun(k: Keys, n: Keys, users: set<string>, former: set<KeyRatchet>) returns (xs: seq<KeyStep>)
    requires Refreshed(k, n, users, former) && Sound(n)
    ensures Run(k, xs) == n && |xs| == |users|
    ensures forall x <- xs :: CanStep(x) && x.InstallStep? && x.user in users
  {
    assert users <= n.ratchets.Keys;
    xs := RefreshSteps(k, n, users, former);
  }

  /** The step that gave this user a ratchet between k and n, if it had none. */
  ghost function Obtaining(k: Keys, n: Keys, user: string): seq<KeyStep> {
    if user !in k.ratchets && user in n.ratchets then [InstallStep(user, n.ratchets[user])] else []
  }

  /** The steps towards a decryptor for this SSRC. */
  ghost function Minting(k: Keys, n: Keys, ssrc: nat): seq<KeyStep>
    requires ssrc in k.ssrcUsers
  {
    Obtaining(k, n, k.ssrcUsers[ssrc]) + [MintStep(ssrc)]
  }

  lemma Obtained(k: Keys, n: Keys, user: string)
    requires n == k || (user !in k.ratchets && user in n.ratchets && n == Install(k, user, n.ratchets[user]))
    ensures n == Run(k, Obtaining(k, n, user))
  {
    if n != k {
      var x := InstallStep(user, n.ratchets[user]);
      RunNext(k, [], x);
      assert [] + [x] == [x];
    }
  }

  lemma ObtainedThen(k: Keys, m: Keys, n: Keys, user: string, x: KeyStep)
    requires m == Run(k, Obtaining(k, m, user)) && n == Apply(m, x) && n.ratchets == m.ratchets
    ensures n == Run(k, Obtaining(k, n, user) + [x])
  {
    RunNext(k, Obtaining(k, n, user), x);
  }

  function Names(roster: seq<nat>): (names: set<string>)
    ensures "" !in names
  {
    if roster == [] then {} else Names(roster[..|roster| - 1]) + {FormatUint(roster[|roster| - 1])}
  }

  /** The user is on the roster, by number. */
  ghost predicate OnRoster(roster: seq<nat>, user: string) {
    Canonical(user) && Value(user).Some? && Value(user).value in roster
  }

  /** The names of a roster are the user IDs, as users write them, whose numbers it holds. */
  lemma {:induction false} NamesAreIDs(roster: seq<nat>, s: string)
    ensures s in Names(roster) <==> OnRoster(roster, s)
  {
    if roster != [] {
      var front, n := roster[..|roster| - 1], roster[|roster| - 1];
      assert roster == front + [n];
      NamesAreIDs(front, s);
      FormattedIsCanonical(n);
      if Canonical(s) {
        ParsedIDFormats(s);
      }
    }
  }

  /** Whom a refresh brings a new ratchet: those libdave answers for, of the roster and of the users with an SSRC. */
  ghost predicate Due(roster: seq<nat>, users: map<nat, string>, offer: set<string>, user: string) {
    user in offer && (OnRoster(roster, user) || (user != "" && exists ssrc <- users :: users[ssrc] == user))
  }

  lemma WantedExactly(roster: seq<nat>, users: map<nat, string>, offer: set<string>)
    ensures forall user :: user in Wanted(roster, users) * offer <==> Due(roster, users, offer, user)
  {
    forall user
      ensures user in Wanted(roster, users) <==>
        OnRoster(roster, user) || (user != "" && exists ssrc <- users :: users[ssrc] == user)
    {
      NamesAreIDs(roster, user);
    }
  }

  /** A commit or welcome renews whom libdave answers for: of the roster, of the SSRCs, the local user if missing. */
  lemma RenewedExactly(k: Keys, result: MlsResult, offer: set<string>, user: string)
    ensures user in Renewed(k, result, offer) <==>
      || (result.Applied? && Due(result.roster, k.ssrcUsers, offer, user))
      || (user in offer && user == k.me && user != "" && user !in k.ratchets)
  {
    if result.Applied? {
      WantedExactly(result.roster, k.ssrcUsers, offer);
    }
  }

  /** The users for whom a commit or welcome brings a new ratchet. */
  ghost function Renewed(k: Keys, result: MlsResult, offer: set<string>): set<string> {
    (if result.Applied? then Wanted(result.roster, k.ssrcUsers) else {}) * offer + MissingSelf(k) * offer
  }

  /** The users refreshRatchets asks for: the roster and everybody an SSRC belongs to. */
  ghost function Wanted(roster: seq<nat>, users: map<nat, string>): set<string> {
    Names(roster) + (users.Values - {""})
  }

  predicate Unusable(update: Option<SpeakingUpdate>) {
    update.None? || update.value.ssrc == 0 || update.value.userID == ""
  }

  /** The SSRC of an update, cut to 32 bits. */
  function Ssrc(update: Option<SpeakingUpdate>): nat
    requires update.Some?
  {
    update.value.ssrc % 0x1_0000_0000
  }

  class Controller {
    /** The local user, the same at every call; empty while nobody is logged in. */
    ghost const me: string

    var session: MlsSession?
    var encryptor: Encryptor?
    var protocolVersion: int
    var localUserID: string
    var ratchets: map<string, KeyRatchet>
    var decryptors: map<nat, Decryptor>
    var ssrcUsers: map<nat, string>
    var knownUsers: set<string>
    var outboundRatchetSet: bool
    var outboundSSRC: nat

    /** Every handle libdave ever gave to this controller. */
    ghost var allRatchets: set<KeyRatchet>
    ghost var allDecryptors: set<Decryptor>
    ghost var allEncryptors: set<Encryptor>
    ghost var allSessions: set<MlsSession>

    /** Among these ratchets the open ones are exactly those in c.ratchets, each under its own user. */
    ghost predicate RatchetsOwned(rs: set<KeyRatchet>)
      reads this`ratchets, rs`open
    {
      && (forall r <- rs :: r.open <==> r.user in ratchets && ratchets[r.user] == r)
      && (forall u <- ratchets :: ratchets[u] in rs && ratchets[u].user == u)
    }

    ghost predicate DecryptorsOwned()
      reads this`decryptors, this`allDecryptors, allDecryptors`open
    {
      && (forall d <- allDecryptors :: d.open <==> d.ssrc in decryptors && decryptors[d.ssrc] == d)
      && (forall s <- decryptors :: decryptors[s] in allDecryptors && decryptors[s].ssrc == s)
    }

    ghost predicate EncryptorsOwned()
      reads this`encryptor, this`allEncryptors, allEncryptors`open
    {
      && (forall e <- allEncryptors :: e.open <==> e == encryptor)
      && (encryptor != null ==> encryptor in allEncryptors)
    }

    ghost predicate SessionsOwned()
      reads this`session, this`allSessions, allSessions`open
    {
      && (forall s <- allSessions :: s.open <==> s == session)
      && (session != null ==> session in allSessions)
    }

    /** Handle conservation. */
    ghost predicate Conserved()
      reads this`ratchets, this`decryptors, this`encryptor, this`session
      reads this`allRatchets, this`allDecryptors, this`allEncryptors, this`allSessions
      reads allRatchets`open, allDecryptors`open, allEncryptors`open, allSessions`open
    {
      RatchetsOwned(allRatchets) && DecryptorsOwned() && EncryptorsOwned() && SessionsOwned()
    }

    /** The open handles among all ever obtained are the ones the maps and fields hold. */
    lemma OpenHandlesAreHeld()
      requires Conserved()
      ensures (set r | r in allRatchets && r.open) == ratchets.Values
      ensures (set d | d in allDecryptors && d.open) == decryptors.Values
      ensures (set e | e in allEncryptors && e.open) == Encryptors()
      ensures forall s <- allSessions :: s.open <==> s == session
    {
      assert forall u <- ratchets :: ratchets[u] in allRatchets && ratchets[u].open;
      assert forall s <- decryptors :: decryptors[s] in allDecryptors && decryptors[s].open;
    }

    ghost function Encryptors(): set<Encryptor>
      reads this`encryptor
    {
      if encryptor == null then {} else {encryptor}
    }

    ghost function Installed(): map<nat, KeyRatchet?>
      reads this`decryptors, decryptors.Values`installed
    {
      map s | s in decryptors :: decryptors[s].installed
    }

    ghost function Snapshot(): Keys
      reads this`ratchets, this`ssrcUsers, this`decryptors, this`encryptor, this`outboundRatchetSet
      reads decryptors.Values`installed, Encryptors()`installed
    {
      Keys(me, ratchets, ssrcUsers, Installed(),
           if encryptor == null then null else encryptor.installed, outboundRatchetSet)
    }

    ghost predicate LocalUserKnown()
      reads this`localUserID, this`session, this`protocolVersion
    {
      localUserID == me || (localUserID == "" && session == null && protocolVersion == 0)
    }

    ghost predicate Valid()
      reads this, allRatchets`open, allDecryptors`open, allEncryptors`open, allSessions`open
      reads decryptors.Values`installed, Encryptors()`installed
    {
      Conserved() && LocalUserKnown() && Grounded(Snapshot()) && OutboundCurrent(Snapshot())
    }

    // newDefaultDAVEController
    constructor (vc: Option<Connection>, ghost me: string)
      requires vc.Some? ==> vc.value.userID == me
      ensures Valid() && Snapshot() == NewKeys(me)
      ensures this.me == me && ratchets == map[] && decryptors == map[] && ssrcUsers == map[]
      ensures protocolVersion == 0 && session == null && encryptor == null && !outboundRatchetSet
      ensures localUserID == if vc.Some? then me else ""
      ensures allRatchets == {} && allDecryptors == {} && allEncryptors == {} && allSessions == {}
    {
      this.me := me;
      session, encryptor, protocolVersion := null, null, 0;
      ratchets, decryptors, ssrcUsers := map[], map[], map[];
      outboundRatchetSet, outboundSSRC := false, 0;
      allRatchets, allDecryptors, allEncryptors, allSessions := {}, {}, {}, {};
      if vc.Some? && vc.value.userID != "" {
        knownUsers, localUserID := {vc.value.userID}, vc.value.userID;
      } else {
        knownUsers, localUserID := {}, "";
      }
    }

    /** The loop of installRatchet over ssrcUsers. */
    method Retarget(userID: string, ratchet: KeyRatchet)
      requires DecryptorsOwned() && ratchet.open
      modifies decryptors.Values`installed
      ensures Installed() == Repoint(old(Installed()), ssrcUsers, userID, ratchet)
    {
      var todo := ssrcUsers.Keys;
      while todo != {}
        invariant todo <= ssrcUsers.Keys
        invariant forall s <- decryptors ::
          decryptors[s].installed == Aim(old(decryptors[s].installed), s, ssrcUsers - todo, userID, ratchet)
      {
        var s :| s in todo;
        todo := todo - {s};
        if ssrcUsers[s] == userID && s in decryptors {
          decryptors[s].TransitionToKeyRatchet(ratchet);
        }
      }
    }

    /** The first half of installRatchet: close the ratchet it replaces and store the new one. */
    method Replace(userID: string, ratchet: KeyRatchet)
      requires ratchet.open && ratchet.user == userID && ratchet in allRatchets
      requires RatchetsOwned(allRatchets - {ratchet}) && localUserID == me
      modifies this`ratchets, this`outboundRatchetSet, ratchets.Values`open
      ensures ratchets == old(ratchets)[userID := ratchet] && RatchetsOwned(allRatchets) && ratchet.open
      ensures outboundRatchetSet == (old(outboundRatchetSet) && userID != me)
    {
      if userID in ratchets {
        ratchets[userID].Close();
      }
      ratchets := ratchets[userID := ratchet];
      if userID == localUserID {
        outboundRatchetSet := false;
      }
    }

    // installRatchet: the ratchet has just been obtained and is not yet in the map
    method InstallRatchet(userID: string, ratchet: KeyRatchet)
      requires ratchet.open && ratchet.user == userID && ratchet in allRatchets
      requires RatchetsOwned(allRatchets - {ratchet}) && DecryptorsOwned() && localUserID == me
      modifies this`ratchets, this`outboundRatchetSet, ratchets.Values`open, decryptors.Values`installed
      ensures RatchetsOwned(allRatchets) && DecryptorsOwned() && ratchet.open
      ensures Snapshot() == old(Install(Snapshot(), userID, ratchet))
    {
      hide RatchetsOwned;
      Replace(userID, ratchet);
      Retarget(userID, ratchet);
    }

    /** session.GetKeyRatchet: libdave answers for the users in offer. */
    method GetKeyRatchet(userID: string, offer: set<string>) returns (kr: KeyRatchet?)
      requires RatchetsOwned(allRatchets)
      modifies this`allRatchets
      ensures kr != null <==> userID in offer
      ensures kr == null ==> allRatchets == old(allRatchets)
      ensures kr != null ==> fresh(kr) && kr.user == userID && kr.open
      ensures kr != null ==> allRatchets == old(allRatchets) + {kr} && RatchetsOwned(allRatchets - {kr})
    {
      kr := null;
      if userID in offer {
        var r := new KeyRatchet(userID);
        allRatchets := allRatchets + {r};
        assert allRatchets - {r} == old(allRatchets);
        kr := r;
      }
    }

    /** GetKeyRatchet, and installRatchet when it returned something. */
    method Obtain(userID: string, offer: set<string>) returns (kr: KeyRatchet?)
      requires Conserved() && localUserID == me
      modifies this`ratchets, this`outboundRatchetSet, this`allRatchets
      modifies ratchets.Values`open, decryptors.Values`installed
      ensures Conserved()
      ensures kr != null <==> userID in offer
      ensures kr == null ==> allRatchets == old(allRatchets)
      ensures kr != null ==> fresh(kr) && kr.open && allRatchets == old(allRatchets) + {kr}
      ensures Snapshot() == if kr == null then old(Snapshot()) else Install(old(Snapshot()), userID, kr)
    {
      hide Install, RatchetsOwned, DecryptorsOwned, EncryptorsOwned, SessionsOwned;
      kr := GetKeyRatchet(userID, offer);
      assert Snapshot() == old(Snapshot());
      if kr != null {
        InstallRatchet(userID, kr);
      }
    }

    method DropRatchet(userID: string)
      requires RatchetsOwned(allRatchets)
      modifies this`ratchets, ratchets.Values`open
      ensures ratchets == old(ratchets) - {userID} && RatchetsOwned(allRatchets)
    {
      if userID in ratchets {
        ratchets[userID].Close();
      }
      ratchets := ratchets - {userID};
    }

    method DropDecryptor(ssrc: nat)
      requires DecryptorsOwned()
      modifies this`decryptors, decryptors.Values`open
      ensures decryptors == old(decryptors) - {ssrc} && DecryptorsOwned()
    {
      if ssrc in decryptors {
        decryptors[ssrc].Close();
      }
      decryptors := decryptors - {ssrc};
    }

    /** The loop of ClientDisconnected over ssrcUsers, which deletes from the maps it looks at. */
    method DropDecryptors(userID: string)
      requires DecryptorsOwned()
      modifies this`ssrcUsers, this`decryptors, decryptors.Values`open
      ensures ssrcUsers == old(ssrcUsers) - UsersSSRCs(old(ssrcUsers), userID)
      ensures decryptors == old(decryptors) - UsersSSRCs(old(ssrcUsers), userID)
      ensures DecryptorsOwned() && Installed() == old(Installed()) - UsersSSRCs(old(ssrcUsers), userID)
    {
      hide DecryptorsOwned;
      var todo := ssrcUsers.Keys;
      while todo != {}
        invariant todo <= old(ssrcUsers).Keys
        invariant ssrcUsers == old(ssrcUsers) - (UsersSSRCs(old(ssrcUsers), userID) - todo)
        invariant decryptors == old(decryptors) - (UsersSSRCs(old(ssrcUsers), userID) - todo)
        invariant DecryptorsOwned()
      {
        var s :| s in todo;
        todo := todo - {s};
        if ssrcUsers[s] == userID {
          DropDecryptor(s);
          ssrcUsers := ssrcUsers - {s};
        }
      }
    }

    /** ClientDisconnected, for a user ID that is not empty, on the three maps. */
    method Forget(userID: string)
      requires Conserved()
      modifies this`ratchets, this`ssrcUsers, this`decryptors
      modifies ratchets.Values`open, decryptors.Values`open
      ensures Conserved() && Snapshot() == Disconnect(old(Snapshot()), userID)
    {
      hide RatchetsOwned, DecryptorsOwned, EncryptorsOwned, SessionsOwned, UsersSSRCs;
      DropRatchet(userID);
      DropDecryptors(userID);
    }

    method ClientDisconnected(userID: string)
      requires Valid()
      modifies this`knownUsers, this`ratchets, this`ssrcUsers, this`decryptors
      modifies ratchets.Values`open, decryptors.Values`open
      ensures Valid() && KeepsCurrent(old(Snapshot()), Snapshot())
      ensures Snapshot() == if userID == "" then old(Snapshot()) else Disconnect(old(Snapshot()), userID)
      ensures knownUsers == old(knownUsers) - if userID == "" then {} else {userID}
    {
      hide Grounded, Current, OutboundCurrent, Conserved, Disconnect, Snapshot;
      if userID != "" {
        DisconnectKeeps(Snapshot(), userID);
        knownUsers := knownUsers - {userID};
        Forget(userID);
      }
    }

    /** What the lemmas about runs of steps ask of the keys holds at the beginning of every call. */
    lemma ValidIsSound()
      requires Valid()
      ensures Sound(Snapshot())
    {
    }

    /** Which error ensureSession ends with. */
    ghost function SessionError(vc: Option<Connection>): Option<DaveError>
      reads this`session
    {
      if vc.None? then Some(NilConnection)
      else if session == null && ParseUint64(vc.value.channelID).None? then Some(InvalidChannel)
      else None
    }

    // ensureSession
    method EnsureSession(vc: Option<Connection>, version: int) returns (error: Option<DaveError>)
      requires Valid() && (vc.Some? ==> vc.value.userID == me)
      modifies this`knownUsers, this`localUserID, this`session, this`protocolVersion, this`allSessions
      modifies allSessions`version
      ensures Valid() && Snapshot() == old(Snapshot())
      ensures error == old(SessionError(vc))
      ensures error == Some(NilConnection) <==> vc.None?
      ensures error == Some(InvalidChannel) <==>
              vc.Some? && old(session) == null && ParseUint64(vc.value.channelID).None?
      ensures old(session) != null ==> session == old(session)
      ensures error.Some? ==> session == old(session) && protocolVersion == old(protocolVersion)
      ensures error.None? ==> session != null && localUserID == me
      ensures error.None? ==> protocolVersion == session.version == if version == 0 then 1 else version
    {
      hide RatchetsOwned, DecryptorsOwned, EncryptorsOwned, SessionsOwned, Grounded, OutboundCurrent;
      if vc.None? {
        return Some(NilConnection);
      }
      var c := vc.value;
      NoteLocalUser(c.userID);
      if session == null && ParseUint64(c.channelID).None? {
        return Some(InvalidChannel);
      }
      UseSession(if version == 0 then 1 else version);
      return None;
    }

    method NoteLocalUser(userID: string)
      requires userID == me
      modifies this`knownUsers, this`localUserID
      ensures localUserID == if me == "" then old(localUserID) else me
    {
      if userID != "" {
        knownUsers, localUserID := knownUsers + {userID}, userID;
      }
    }

    /** The session, created when it is first needed. */
    method TheSession(version: int)
      requires SessionsOwned()
      modifies this`session, this`allSessions
      ensures SessionsOwned() && session != null && session in allSessions
      ensures old(session) != null ==> session == old(session)
      ensures session in old(allSessions) || fresh(session)
    {
      if session == null {
        var s := new MlsSession(version);
        session, allSessions := s, allSessions + {s};
      }
    }

    /** The part of ensureSession that cannot fail: a session, created if there is none, at this version. */
    method UseSession(version: int)
      requires Conserved()
      modifies this`session, this`protocolVersion, this`allSessions, allSessions`version
      ensures Conserved() && Snapshot() == old(Snapshot())
      ensures session != null && session.version == version && protocolVersion == version
      ensures old(session) != null ==> session == old(session)
    {
      hide RatchetsOwned, DecryptorsOwned, EncryptorsOwned, SessionsOwned;
      TheSession(version);
      protocolVersion := version;
      session.version := version;
    }

    /** ensureSession at the current version, as every MLS message handler starts. */
    method EnsureCurrentSession(vc: Option<Connection>) returns (error: Option<DaveError>)
      requires Valid() && (vc.Some? ==> vc.value.userID == me)
      modifies this`knownUsers, this`localUserID, this`session, this`protocolVersion, this`allSessions
      modifies allSessions`version
      ensures Valid() && Snapshot() == old(Snapshot())
      ensures error == old(SessionError(vc))
      ensures old(session) != null ==> session == old(session)
      ensures error.Some? ==> session == old(session) && protocolVersion == old(protocolVersion)
      ensures error.None? ==> session != null && localUserID == me
      ensures error.None? ==> protocolVersion == (if old(protocolVersion) == 0 then 1 else old(protocolVersion))
    {
      error := EnsureSession(vc, if protocolVersion != 0 then protocolVersion else 1);
    }

    method ClientsConnected(userIDs: seq<string>)
      modifies this`knownUsers
      ensures knownUsers == old(knownUsers) + (set u | u in userIDs && u != "")
    {
      for i := 0 to |userIDs|
        invariant knownUsers == old(knownUsers) + (set u | u in userIDs[..i] && u != "")
      {
        assert userIDs[..i + 1] == userIDs[..i] + [userIDs[i]];
        if userIDs[i] != "" {
          knownUsers := knownUsers + {userIDs[i]};
        }
      }
      assert userIDs == userIDs[..|userIDs|];
    }

    ghost predicate InMode(passthrough: bool)
      reads this`decryptors, this`encryptor, decryptors.Values`passthrough, Encryptors()`passthrough
    {
      && (forall s <- decryptors :: decryptors[s].passthrough == passthrough)
      && (encryptor != null ==> encryptor.passthrough == passthrough)
    }

    method SetPassthrough(passthrough: bool)
      requires DecryptorsOwned()
      modifies decryptors.Values`passthrough, Encryptors()`passthrough
      ensures InMode(passthrough)
    {
      var todo := decryptors.Keys;
      while todo != {}
        invariant todo <= decryptors.Keys
        invariant forall s <- decryptors :: s !in todo ==> decryptors[s].passthrough == passthrough
      {
        var s :| s in todo;
        todo := todo - {s};
        decryptors[s].passthrough := passthrough;
      }
      if encryptor != null {
        encryptor.passthrough := passthrough;
      }
    }

    /** A transition to version 0 turns the call to plain relay; any other version ends it. */
    method PrepareTransition(vc: Option<Connection>, version: int) returns (ready: bool, error: Option<DaveError>)
      requires Valid() && (vc.Some? ==> vc.value.userID == me)
      modifies this`knownUsers, this`localUserID, this`session, this`protocolVersion, this`allSessions
      modifies allSessions`version, decryptors.Values`passthrough
      modifies Encryptors()`passthrough
      ensures Valid() && Snapshot() == old(Snapshot())
      ensures error == old(SessionError(vc)) && ready == error.None?
      ensures error.Some? ==> protocolVersion == old(protocolVersion)
      ensures error.None? ==> protocolVersion == version % 0x1_0000 && InMode(version == 0)
    {
      hide RatchetsOwned, DecryptorsOwned, EncryptorsOwned, SessionsOwned, Grounded, OutboundCurrent, Snapshot, InMode;
      error := EnsureSession(vc, version % 0x1_0000);
      ready := error.None?;
      if ready {
        protocolVersion := version % 0x1_0000;
        SetPassthrough(version == 0);
      }
    }

    method WantedUsers(roster: seq<nat>) returns (want: set<string>)
      ensures want == Wanted(roster, ssrcUsers) && "" !in want
    {
      want := {};
      for i := 0 to |roster|
        invariant want == Names(roster[..i])
      {
        assert roster[..i + 1][..i] == roster[..i];
        want := want + {FormatUint(roster[i])};
      }
      assert roster == roster[..|roster|];
      var todo := ssrcUsers.Values;
      while todo != {}
        invariant todo <= ssrcUsers.Values
        invariant want == Names(roster) + (ssrcUsers.Values - todo - {""})
      {
        var u :| u in todo;
        todo := todo - {u};
        if u != "" {
          want := want + {u};
        }
      }
    }

    /** One round of the loop of refreshRatchets. */
    method Refresh(userID: string, offer: set<string>, ghost k: Keys, ghost done: set<string>,
                   ghost former: set<KeyRatchet>)
      requires Valid() && localUserID == me && userID != "" && userID !in done && former <= allRatchets
      requires Refreshed(k, Snapshot(), done * offer, former)
      modifies this`ratchets, this`outboundRatchetSet, this`allRatchets, allRatchets`open, decryptors.Values`installed
      ensures Valid() && KeepsCurrent(old(Snapshot()), Snapshot())
      ensures Refreshed(k, Snapshot(), (done + {userID}) * offer, former)
      ensures allRatchets >= old(allRatchets) && fresh(allRatchets - old(allRatchets))
    {
      hide DecryptorsOwned, EncryptorsOwned, SessionsOwned, Grounded, OutboundCurrent, CurrentAt, Refreshed, Install;
      ghost var n := Snapshot();
      var kr := Obtain(userID, offer);
      if kr != null {
        InstallKeeps(n, userID, kr);
        assert kr !in former;
        RefreshedNext(k, n, done * offer, former, userID, kr);
        assert (done + {userID}) * offer == done * offer + {userID};
      } else {
        assert (done + {userID}) * offer == done * offer;
      }
    }

    /** The loop of refreshRatchets. */
    method RefreshAll(want: set<string>, offer: set<string>)
      requires Valid() && localUserID == me && "" !in want
      modifies this`ratchets, this`outboundRatchetSet, this`allRatchets, allRatchets`open, decryptors.Values`installed
      ensures Valid() && KeepsCurrent(old(Snapshot()), Snapshot())
      ensures Refreshed(old(Snapshot()), Snapshot(), want * offer, old(allRatchets))
      ensures allRatchets >= old(allRatchets) && fresh(allRatchets - old(allRatchets))
    {
      hide Valid, Snapshot, Refreshed, CurrentAt;
      ghost var k, former := Snapshot(), allRatchets;
      NothingRefreshed(k, want - want, offer, former);
      var todo := want;
      while todo != {}
        invariant todo <= want
        invariant Valid() && KeepsCurrent(k, Snapshot())
        invariant Refreshed(k, Snapshot(), (want - todo) * offer, former)
        invariant allRatchets >= former && fresh(allRatchets - former)
      {
        var u :| u in todo;
        Refresh(u, offer, k, want - todo, former);
        assert want - todo + {u} == want - (todo - {u});
        todo := todo - {u};
      }
      assert want - todo == want;
    }

    /** Whether this user's ratchet is one obtained since then, or what it was. */
    twostate predicate RenewedIf(renewed: bool, user: string)
      reads this`ratchets
    {
      if renewed then user in ratchets && ratchets[user] !in old(allRatchets)
      else if user in old(ratchets) then user in ratchets && ratchets[user] == old(ratchets)[user]
      else user !in ratchets
    }

    method RefreshRatchets(roster: seq<nat>, offer: set<string>)
      requires Valid() && localUserID == me
      modifies this`ratchets, this`outboundRatchetSet, this`allRatchets, allRatchets`open, decryptors.Values`installed
      ensures Valid() && KeepsCurrent(old(Snapshot()), Snapshot())
      ensures Refreshed(old(Snapshot()), Snapshot(), Wanted(roster, ssrcUsers) * offer, old(allRatchets))
      ensures allRatchets >= old(allRatchets) && fresh(allRatchets - old(allRatchets))
      ensures forall user :: RenewedIf(Due(roster, ssrcUsers, offer, user), user)
    {
      var want := WantedUsers(roster);
      assert Valid() && Snapshot() == old(Snapshot());
      WantedExactly(roster, ssrcUsers, offer);
      hide Valid, Refreshed, KeepsCurrent, Wanted, Due;
      RefreshAll(want, offer);
      RefreshedIf(old(Snapshot()), Snapshot(), want * offer, old(allRatchets));
    }

    /** ensureOutboundRatchet, after a refresh that gave these users a ratchet. */
    method EnsureOutbound(vc: Connection, offer: set<string>, ghost k: Keys, ghost users: set<string>,
                          ghost former: set<KeyRatchet>)
      requires Valid() && localUserID == me && vc.userID == me && session != null && former <= allRatchets
      requires Refreshed(k, Snapshot(), users, former)
      modifies this`ratchets, this`outboundRatchetSet, this`allRatchets, allRatchets`open, decryptors.Values`installed
      ensures Valid() && KeepsCurrent(old(Snapshot()), Snapshot())
      ensures Refreshed(k, Snapshot(), users + MissingSelf(k) * offer, former)
      ensures allRatchets >= old(allRatchets) && fresh(allRatchets - old(allRatchets))
    {
      if vc.userID == "" || vc.userID in ratchets {
        assert users + MissingSelf(k) * offer == users;
        return;
      }
      ghost var n := Snapshot();
      var kr := Obtain(vc.userID, offer);
      if kr != null {
        InstallKeeps(n, me, kr);
        RefreshedNext(k, n, users, former, me, kr);
        assert MissingSelf(k) * offer == {me};
      } else {
        assert users + MissingSelf(k) * offer == users;
      }
    }

    /** What a usable commit or welcome does: refresh for its roster, if it has one, then look after ourselves. */
    method Adopt(vc: Connection, result: MlsResult, offer: set<string>)
      requires Valid() && localUserID == me && vc.userID == me && session != null
      modifies this`ratchets, this`outboundRatchetSet, this`allRatchets, allRatchets`open, decryptors.Values`installed
      ensures Valid() && KeepsCurrent(old(Snapshot()), Snapshot())
      ensures Refreshed(old(Snapshot()), Snapshot(), Renewed(old(Snapshot()), result, offer), old(allRatchets))
      ensures result.Applied? ==>
        forall user :: Due(result.roster, ssrcUsers, offer, user) ==> RenewedIf(true, user)
    {
      hide Conserved, Grounded, OutboundCurrent, CurrentAt, Refreshed, Wanted, MissingSelf, Due;
      ghost var k := Snapshot();
      ghost var former := allRatchets;
      ghost var users := {};
      NothingRefreshed(k, {}, {}, former);
      if result.Applied? {
        WantedExactly(result.roster, ssrcUsers, offer);
        users := Wanted(result.roster, ssrcUsers) * offer;
        RefreshRatchets(result.roster, offer);
      }
      assert users == (if result.Applied? then Wanted(result.roster, k.ssrcUsers) else {}) * offer;
      EnsureOutbound(vc, offer, k, users, former);
      RefreshedIf(k, Snapshot(), users + MissingSelf(k) * offer, former);
    }

    method HandleMLSCommit(vc: Option<Connection>, empty: bool, result: MlsResult, offer: set<string>)
      returns (reply: Reply)
      requires Valid() && (vc.Some? ==> vc.value.userID == me)
      modifies this`knownUsers, this`localUserID, this`session, this`protocolVersion
      modifies this`allSessions, allSessions`version
      modifies this`ratchets, this`outboundRatchetSet, this`allRatchets, allRatchets`open, decryptors.Values`installed
      ensures Valid() && KeepsCurrent(old(Snapshot()), Snapshot())
      ensures reply == CommitReply(empty, old(SessionError(vc)), result)
      ensures reply.ready <==> !empty && old(SessionError(vc)).None? && (result.Ignored? || result.Applied?)
      ensures reply.invalidSent <==> !empty && old(SessionError(vc)).None? && (result == NoResult || result == Failed)
      ensures reply.error.None? <==> empty || reply.ready
      ensures reply.error.Some? && !reply.invalidSent ==> reply.error == old(SessionError(vc))
      ensures Refreshed(old(Snapshot()), Snapshot(),
                        if reply.ready then Renewed(old(Snapshot()), result, offer) else {}, old(allRatchets))
      ensures reply.ready && result.Applied? ==>
        forall user :: Due(result.roster, ssrcUsers, offer, user) ==> RenewedIf(true, user)
    {
      hide Renewed, Due, CurrentAt, Grounded, OutboundCurrent;
      if empty {
        return Reply(false, None, false);
      }
      var error := EnsureCurrentSession(vc);
      if error.Some? {
        return Reply(false, error, false);
      }
      if result == NoResult {
        return Reply(false, Some(NilResult), true);
      }
      if result == Failed {
        return Reply(false, Some(Rejected), true);
      }
      Adopt(vc.value, result, offer);
      return Reply(true, None, false);
    }

    /** A welcome either yields a roster or nothing at all. */
    method HandleMLSWelcome(vc: Option<Connection>, empty: bool, roster: Option<seq<nat>>, offer: set<string>)
      returns (reply: Reply)
      requires Valid() && (vc.Some? ==> vc.value.userID == me)
      modifies this`knownUsers, this`localUserID, this`session, this`protocolVersion
      modifies this`allSessions, allSessions`version
      modifies this`ratchets, this`outboundRatchetSet, this`allRatchets, allRatchets`open, decryptors.Values`installed
      ensures Valid() && KeepsCurrent(old(Snapshot()), Snapshot())
      ensures reply == CommitReply(empty, old(SessionError(vc)), WelcomeResult(roster))
      ensures reply.ready <==> !empty && old(SessionError(vc)).None? && roster.Some?
      ensures reply.invalidSent <==> !empty && old(SessionError(vc)).None? && roster.None?
      ensures reply.error.None? <==> empty || reply.ready
      ensures reply.error.Some? && !reply.invalidSent ==> reply.error == old(SessionError(vc))
      ensures Refreshed(old(Snapshot()), Snapshot(),
                        if reply.ready then Renewed(old(Snapshot()), WelcomeResult(roster), offer) else {},
                        old(allRatchets))
      ensures reply.ready && roster.Some? ==>
        forall user :: Due(roster.value, ssrcUsers, offer, user) ==> RenewedIf(true, user)
    {
      hide Renewed, Due, CurrentAt, Grounded, OutboundCurrent;
      if empty {
        return Reply(false, None, false);
      }
      var error := EnsureCurrentSession(vc);
      if error.Some? {
        return Reply(false, error, false);
      }
      if roster.None? {
        return Reply(false, Some(NilResult), true);
      }
      Adopt(vc.value, WelcomeResult(roster), offer);
      return Reply(true, None, false);
    }

    /** The encryptor, created when it is first needed. */
    method TheEncryptor() returns (enc: Encryptor)
      requires Conserved()
      modifies this`encryptor, this`allEncryptors
      ensures Conserved() && encryptor == enc && enc.open
      ensures old(encryptor) != null ==> enc == old(encryptor)
      ensures old(encryptor) == null ==> fresh(enc) && !enc.passthrough && enc.installed == null
    {
      hide RatchetsOwned, DecryptorsOwned, SessionsOwned;
      if encryptor == null {
        var e := new Encryptor();
        e.passthrough := false;
        encryptor, allEncryptors := e, allEncryptors + {e};
        enc := e;
      } else {
        enc := encryptor;
      }
    }

    method PointEncryptor(enc: Encryptor, kr: KeyRatchet)
      requires encryptor == enc && enc.open && kr.open && (outboundRatchetSet ==> enc.installed == kr)
      modifies this`outboundRatchetSet, enc`installed
      ensures Snapshot() == Point(old(Snapshot()), kr)
    {
      if !outboundRatchetSet {
        outboundRatchetSet := true;
        enc.SetKeyRatchet(kr);
      }
    }

    /** The end of EncryptOpus: point the encryptor if that is due, announce the SSRC, encrypt. */
    method Seal(kr: KeyRatchet, ssrc: nat) returns (frame: Frame)
      requires Conserved() && OutboundCurrent(Snapshot()) && me in ratchets && ratchets[me] == kr
      modifies this`encryptor, this`allEncryptors, this`outboundRatchetSet, this`outboundSSRC, Encryptors()`installed
      ensures Conserved() && Snapshot() == Point(old(Snapshot()), kr) && outboundSSRC == ssrc
      ensures encryptor != null && frame == Keyed(encryptor.installed) && encryptor.installed == kr && kr.open
    {
      assert kr.open && (outboundRatchetSet ==> Snapshot().outbound == kr);
      hide RatchetsOwned, DecryptorsOwned, EncryptorsOwned, SessionsOwned, OutboundCurrent;
      var enc := TheEncryptor();
      PointEncryptor(enc, kr);
      outboundSSRC := ssrc;
      return Keyed(enc.installed);
    }

    /** The users EncryptOpus has to ask libdave about. */
    ghost function Asked(user: string): set<string>
      reads this`session, this`ratchets
    {
      if session != null && user != "" && user !in ratchets then {user} else {}
    }

    /** The local user's ratchet: the entry in ratchets, else whatever libdave answers. */
    method OutboundRatchet(user: string, offer: set<string>) returns (kr: KeyRatchet?)
      requires Valid() && localUserID == me == user
      modifies this`ratchets, this`outboundRatchetSet, this`allRatchets, allRatchets`open, decryptors.Values`installed
      ensures Valid() && KeepsCurrent(old(Snapshot()), Snapshot())
      ensures kr != null <==> user in old(ratchets) || user in old(Asked(user)) * offer
      ensures kr != null ==> user in ratchets && ratchets[user] == kr
      ensures ratchets.Keys == old(ratchets).Keys + if kr != null then {user} else {}
      ensures user in old(ratchets) ==> ratchets == old(ratchets)
      ensures Snapshot() == Run(old(Snapshot()), Obtaining(old(Snapshot()), Snapshot(), user))
    {
      ghost var k := Snapshot();
      kr := if user in ratchets then ratchets[user] else null;
      if kr == null && session != null && user != "" {
        kr := Obtain(user, offer);
        if kr != null {
          InstallKeeps(k, user, kr);
        }
      }
      hide Run, Install;
      Obtained(k, Snapshot(), user);
    }

    /** EncryptOpus while encryption is on. */
    method Encrypt(user: string, ssrc: nat, offer: set<string>) returns (frame: Frame)
      requires Valid() && localUserID == me == user
      modifies this`encryptor, this`allEncryptors, this`outboundRatchetSet, this`outboundSSRC, Encryptors()`installed
      modifies this`ratchets, this`allRatchets, allRatchets`open, decryptors.Values`installed
      ensures Valid() && KeepsCurrent(old(Snapshot()), Snapshot())
      ensures Snapshot() == Run(old(Snapshot()), Obtaining(old(Snapshot()), Snapshot(), user) +
                                if frame.Keyed? then [PointStep] else [])
      ensures ratchets.Keys == old(ratchets).Keys + if frame.Keyed? then {user} else {}
      ensures if user in old(ratchets) || user in old(Asked(user)) * offer then frame.Keyed?
              else frame == Refused(NoRatchet)
      ensures frame.Keyed? ==> frame.ratchet != null && frame.ratchet.open
      ensures frame.Keyed? ==> user in ratchets && frame.ratchet == ratchets[user]
      ensures frame.Keyed? ==> encryptor != null && encryptor.open && encryptor.installed == frame.ratchet
      ensures user in old(ratchets) ==> ratchets == old(ratchets)
    {
      hide Grounded, OutboundCurrent, CurrentAt, Run, Obtaining, RatchetsOwned, DecryptorsOwned, SessionsOwned;
      ghost var k := Snapshot();
      var kr := OutboundRatchet(user, offer);
      ghost var m := Snapshot();
      if kr == null {
        assert Obtaining(k, m, user) + [] == Obtaining(k, m, user);
        return Refused(NoRatchet);
      }
      PointKeeps(m, kr);
      frame := Seal(kr, ssrc);
      ObtainedThen(k, m, Snapshot(), user, PointStep);
    }

    method EncryptOpus(vc: Option<Connection>, packet: Option<nat>, offer: set<string>) returns (frame: Frame)
      requires Valid() && (vc.Some? ==> vc.value.userID == me)
      modifies this`encryptor, this`allEncryptors, this`outboundRatchetSet, this`outboundSSRC, Encryptors()`installed
      modifies this`ratchets, this`allRatchets, allRatchets`open, decryptors.Values`installed
      ensures Valid() && KeepsCurrent(old(Snapshot()), Snapshot())
      ensures Snapshot() == Run(old(Snapshot()), Obtaining(old(Snapshot()), Snapshot(), me) +
                                if frame.Keyed? then [PointStep] else [])
      ensures ratchets.Keys == old(ratchets).Keys + if frame.Keyed? then {me} else {}
      ensures frame.Plain? <==> packet.Some? && protocolVersion == 0
      ensures frame == Refused(NilPacket) <==> packet.None?
      ensures packet.Some? && protocolVersion != 0 ==>
        if me in old(ratchets) || (old(session) != null && me != "" && me in offer) then frame.Keyed?
        else frame == Refused(NoRatchet)
      ensures frame.Keyed? ==> frame.ratchet != null && frame.ratchet.open
      ensures frame.Keyed? ==> me in ratchets && frame.ratchet == ratchets[me]
      ensures frame.Keyed? ==> encryptor != null && encryptor.open && encryptor.installed == frame.ratchet
      ensures me in old(ratchets) ==> ratchets == old(ratchets)
    {
      if packet.None? {
        return Refused(NilPacket);
      }
      var user := if localUserID == "" && vc.Some? then vc.value.userID else localUserID;
      if protocolVersion == 0 {
        return Plain;
      }
      hide Conserved, Grounded, OutboundCurrent, KeepsCurrent, Run, Obtaining;
      frame := Encrypt(user, packet.value, offer);
    }

    method AddDecryptor(ssrc: nat, kr: KeyRatchet)
      requires DecryptorsOwned() && kr.open && ssrc !in decryptors
      modifies this`decryptors, this`allDecryptors
      ensures DecryptorsOwned() && decryptors.Keys == old(decryptors).Keys + {ssrc}
      ensures forall s <- old(decryptors) :: decryptors[s] == old(decryptors)[s]
      ensures fresh(decryptors[ssrc]) && decryptors[ssrc].installed == kr
    {
      var dec := new Decryptor(ssrc);
      dec.TransitionToKeyRatchet(kr);
      decryptors, allDecryptors := decryptors[ssrc := dec], allDecryptors + {dec};
    }

    /** A new decryptor for an SSRC that has none, pointed at kr. */
    method NewDecryptor(ssrc: nat, kr: KeyRatchet)
      requires Conserved() && kr.open && ssrc !in decryptors
      modifies this`decryptors, this`allDecryptors
      ensures Conserved() && Snapshot() == Mint(old(Snapshot()), ssrc, kr)
      ensures decryptors.Keys == old(decryptors).Keys + {ssrc}
    {
      hide RatchetsOwned, DecryptorsOwned, EncryptorsOwned, SessionsOwned;
      AddDecryptor(ssrc, kr);
    }

    /** The ratchet of a user: the entry in ratchets, else whatever libdave answers. */
    method RatchetFor(userID: string, offer: set<string>) returns (kr: KeyRatchet?)
      requires Valid() && localUserID == me && session != null && userID != ""
      modifies this`ratchets, this`outboundRatchetSet, this`allRatchets, allRatchets`open, decryptors.Values`installed
      ensures Valid() && KeepsCurrent(old(Snapshot()), Snapshot())
      ensures kr != null <==> userID in old(ratchets) || userID in offer
      ensures kr != null ==> kr.open && userID in ratchets && ratchets[userID] == kr
      ensures kr == null || userID in old(ratchets) ==> Snapshot() == old(Snapshot())
      ensures kr == null ==> userID !in ratchets
      ensures Snapshot() == Run(old(Snapshot()), Obtaining(old(Snapshot()), Snapshot(), userID))
    {
      ghost var k := Snapshot();
      kr := if userID in ratchets then ratchets[userID] else null;
      if kr == null {
        kr := Obtain(userID, offer);
        if kr != null {
          InstallKeeps(k, userID, kr);
        }
      }
      hide Run, Install;
      Obtained(k, Snapshot(), userID);
    }

    /** A decryptor for an SSRC that has none, if its user is known and has a ratchet. */
    method MintDecryptor(ssrc: nat, offer: set<string>)
      requires Valid() && localUserID == me && session != null && ssrc !in decryptors && ssrc in ssrcUsers
      modifies this`decryptors, this`allDecryptors
      modifies this`ratchets, this`outboundRatchetSet, this`allRatchets, allRatchets`open, decryptors.Values`installed
      ensures Valid() && KeepsCurrent(old(Snapshot()), Snapshot())
      ensures decryptors.Keys == old(decryptors).Keys +
        if ssrcUsers[ssrc] in old(ratchets) || ssrcUsers[ssrc] in offer then {ssrc} else {}
      ensures CurrentAt(Snapshot(), ssrc)
      ensures Snapshot() == Run(old(Snapshot()), Minting(old(Snapshot()), Snapshot(), ssrc))
    {
      assert ssrcUsers[ssrc] != "";
      hide Conserved, Grounded, OutboundCurrent, Install, Run, Obtaining;
      ghost var k := Snapshot();
      var kr := RatchetFor(ssrcUsers[ssrc], offer);
      ghost var m := Snapshot();
      if kr != null {
        MintKeeps(Snapshot(), ssrc, kr);
        NewDecryptor(ssrc, kr);
      }
      ObtainedThen(k, m, Snapshot(), ssrcUsers[ssrc], MintStep(ssrc));
    }

    /** A decryptor that is current decrypts under an open ratchet. */
    lemma CurrentIsOpen(ssrc: nat)
      requires Conserved() && CurrentAt(Snapshot(), ssrc) && ssrc in decryptors
      ensures decryptors[ssrc].open && ssrc in ssrcUsers && ssrcUsers[ssrc] in ratchets
      ensures decryptors[ssrc].installed == ratchets[ssrcUsers[ssrc]] && ratchets[ssrcUsers[ssrc]].open
    {
    }

    /** An SSRC of a known user, without a decryptor, while there is a session. */
    ghost predicate NeedsDecryptor(ssrc: nat)
      reads this`session, this`decryptors, this`ssrcUsers
    {
      session != null && ssrc !in decryptors && ssrc in ssrcUsers
    }

    /** A decryptor for this SSRC, if it has one or can get one. */
    method EnsureDecryptor(ssrc: nat, offer: set<string>)
      requires Valid()
      modifies this`decryptors, this`allDecryptors
      modifies this`ratchets, this`outboundRatchetSet, this`allRatchets, allRatchets`open, decryptors.Values`installed
      ensures Valid() && KeepsCurrent(old(Snapshot()), Snapshot())
      ensures Snapshot() ==
              if old(NeedsDecryptor(ssrc)) then Run(old(Snapshot()), Minting(old(Snapshot()), Snapshot(), ssrc))
              else old(Snapshot())
      ensures ssrc in decryptors <==>
        || ssrc in old(decryptors)
        || (session != null && ssrc in ssrcUsers && (ssrcUsers[ssrc] in old(ratchets) || ssrcUsers[ssrc] in offer))
    {
      hide Conserved, Grounded, OutboundCurrent, CurrentAt, Run, Obtaining;
      if ssrc !in decryptors && session != null && ssrc in ssrcUsers {
        MintDecryptor(ssrc, offer);
      }
    }

    lemma DecryptorsAreOpen(ssrc: nat)
      requires Conserved() && ssrc in decryptors
      ensures decryptors[ssrc].open
    {
    }

    method DecryptOpus(packet: Option<nat>, offer: set<string>) returns (frame: Frame)
      requires Valid()
      modifies this`decryptors, this`allDecryptors
      modifies this`ratchets, this`outboundRatchetSet, this`allRatchets, allRatchets`open, decryptors.Values`installed
      ensures Valid() && KeepsCurrent(old(Snapshot()), Snapshot())
      ensures Snapshot() ==
              if packet.Some? && protocolVersion != 0 && old(NeedsDecryptor(packet.value))
              then Run(old(Snapshot()), Minting(old(Snapshot()), Snapshot(), packet.value)) else old(Snapshot())
      ensures frame.Plain? <==> packet.Some? && protocolVersion == 0
      ensures frame == Refused(NilPacket) <==> packet.None?
      ensures packet.Some? && protocolVersion != 0 ==>
        var s := packet.value;
        if s in old(decryptors)
          || (session != null && s in ssrcUsers && (ssrcUsers[s] in old(ratchets) || ssrcUsers[s] in offer))
        then frame.Keyed? else frame == Refused(NoDecryptor)
      ensures frame.Keyed? ==> packet.value in decryptors && decryptors[packet.value].open
      ensures frame.Keyed? ==> frame.ratchet == decryptors[packet.value].installed
      ensures frame.Keyed? && old(CurrentAt(Snapshot(), packet.value)) ==>
        && frame.ratchet != null && frame.ratchet.open
        && packet.value in ssrcUsers && ssrcUsers[packet.value] in ratchets
        && frame.ratchet == ratchets[ssrcUsers[packet.value]]
    {
      if packet.None? {
        return Refused(NilPacket);
      }
      if protocolVersion == 0 {
        return Plain;
      }
      hide Conserved, Snapshot, CurrentAt, Minting, Run, NeedsDecryptor;
      EnsureDecryptor(packet.value, offer);
      if packet.value !in decryptors {
        return Refused(NoDecryptor);
      }
      DecryptorsAreOpen(packet.value);
      if old(CurrentAt(Snapshot(), packet.value)) {
        CurrentIsOpen(packet.value);
      }
      return Keyed(decryptors[packet.value].installed);
    }

    /** The two map entries every accepted speaking update makes. */
    method NoteSpeaker(userID: string, ssrc: nat)
      requires Valid() && userID != ""
      modifies this`ssrcUsers, this`knownUsers
      ensures Valid() && Snapshot() == Map(old(Snapshot()), ssrc, userID)
      ensures knownUsers == old(knownUsers) + {userID}
      ensures old(Current(Snapshot())) ==> (Current(Snapshot()) <==> !old(Remaps(Snapshot(), ssrc, userID)))
      ensures forall s: nat :: s != ssrc ==> (CurrentAt(Snapshot(), s) <==> old(CurrentAt(Snapshot(), s)))
    {
      hide CurrentAt, OutboundCurrent, EncryptorsOwned, SessionsOwned, DecryptorsOwned;
      MapKeepsExactlyWhen(Snapshot(), ssrc, userID);
      ssrcUsers := ssrcUsers[ssrc := userID];
      knownUsers := knownUsers + {userID};
    }

    /** The keys after a speaking update: the SSRC gets its user and, if that was due, a decryptor. */
    ghost predicate Spoken(k: Keys, n: Keys, ssrc: nat, user: string)
      reads this`session
    {
      var m := Map(k, ssrc, user);
      n == if ssrc in k.installed || session == null then m else Run(m, Minting(m, n, ssrc))
    }

    /** A speaking update with a user and an SSRC. */
    method Speak(ssrc: nat, userID: string, offer: set<string>)
      requires Valid() && userID != ""
      modifies this`ssrcUsers, this`knownUsers, this`decryptors, this`allDecryptors
      modifies this`ratchets, this`outboundRatchetSet, this`allRatchets, allRatchets`open, decryptors.Values`installed
      ensures Valid() && Spoken(old(Snapshot()), Snapshot(), ssrc, userID)
      ensures ssrcUsers == old(ssrcUsers)[ssrc := userID] && knownUsers == old(knownUsers) + {userID}
      ensures decryptors.Keys == old(decryptors).Keys +
        if session != null && (userID in old(ratchets) || userID in offer) then {ssrc} else {}
      ensures old(Current(Snapshot())) ==> (Current(Snapshot()) <==> !old(Remaps(Snapshot(), ssrc, userID)))
      ensures CurrentAt(Snapshot(), ssrc) <==> old(Mends(Snapshot(), MapStep(ssrc, userID), ssrc))
      ensures forall s: nat :: old(CurrentAt(Snapshot(), s)) && s != ssrc ==> CurrentAt(Snapshot(), s)
    {
      NoteSpeaker(userID, ssrc);
      hide Conserved, Grounded, OutboundCurrent, Run, Obtaining;
      if ssrc in decryptors || session == null {
        return;
      }
      MintDecryptor(ssrc, offer);
    }

    /** A speaking update breaks currency exactly when it hands an SSRC with a live decryptor to another user. */
    method HandleSpeakingUpdate(update: Option<SpeakingUpdate>, offer: set<string>)
      requires Valid()
      modifies this`ssrcUsers, this`knownUsers, this`decryptors, this`allDecryptors
      modifies this`ratchets, this`outboundRatchetSet, this`allRatchets, allRatchets`open, decryptors.Values`installed
      ensures Valid()
      ensures update.None? || update.value.ssrc == 0 || update.value.userID == "" ==>
        Snapshot() == old(Snapshot()) && knownUsers == old(knownUsers)
      ensures update.Some? && update.value.ssrc != 0 && update.value.userID != "" ==>
        var s, user := update.value.ssrc % 0x1_0000_0000, update.value.userID;
        && ssrcUsers == old(ssrcUsers)[s := user] && knownUsers == old(knownUsers) + {user}
        && decryptors.Keys == old(decryptors).Keys +
          if session != null && (user in old(ratchets) || user in offer) then {s} else {}
      ensures !Unusable(update) ==> Spoken(old(Snapshot()), Snapshot(), Ssrc(update), update.value.userID)
      ensures old(Current(Snapshot())) ==>
        (Current(Snapshot()) <==> Unusable(update) || !old(Remaps(Snapshot(), Ssrc(update), update.value.userID)))
      ensures !Unusable(update) ==>
        (CurrentAt(Snapshot(), Ssrc(update)) <==>
        old(Mends(Snapshot(), MapStep(Ssrc(update), update.value.userID), Ssrc(update))))
      ensures forall s: nat :: old(CurrentAt(Snapshot(), s)) && (Unusable(update) || s != Ssrc(update)) ==>
        CurrentAt(Snapshot(), s)
    {
      hide Valid, Snapshot, Current, CurrentAt, Spoken, Mends, Remaps;
      if update.Some? && update.value.ssrc != 0 && update.value.userID != "" {
        Speak(update.value.ssrc % 0x1_0000_0000, update.value.userID, offer);
      }
    }

    method CloseDecryptors()
      requires DecryptorsOwned()
      modifies this`decryptors, decryptors.Values`open
      ensures DecryptorsOwned() && decryptors == map[]
    {
      var todo := decryptors.Keys;
      while todo != {}
        invariant todo == decryptors.Keys && decryptors.Values <= old(decryptors.Values)
        invariant DecryptorsOwned()
      {
        var s :| s in todo;
        todo := todo - {s};
        decryptors[s].Close();
        decryptors := decryptors - {s};
      }
    }

    method CloseRatchets()
      requires RatchetsOwned(allRatchets)
      modifies this`ratchets, ratchets.Values`open
      ensures RatchetsOwned(allRatchets) && ratchets == map[]
    {
      var todo := ratchets.Keys;
      while todo != {}
        invariant todo == ratchets.Keys && ratchets.Values <= old(ratchets.Values)
        invariant RatchetsOwned(allRatchets)
      {
        var u :| u in todo;
        todo := todo - {u};
        ratchets[u].Close();
        ratchets := ratchets - {u};
      }
    }

    method CloseSession()
      requires SessionsOwned()
      modifies this`session, allSessions`open
      ensures SessionsOwned() && session == null
    {
      if session != null {
        session.open := false;
        session := null;
      }
    }

    method CloseEncryptor()
      requires EncryptorsOwned()
      modifies this`encryptor, Encryptors()`open
      ensures EncryptorsOwned() && encryptor == null
    {
      if encryptor != null {
        encryptor.Close();
        encryptor := null;
      }
    }

    lemma NothingOpen(k: Keys)
      requires Conserved() && Grounded(k) && k.ssrcUsers == ssrcUsers
      requires ratchets == map[] && decryptors == map[] && encryptor == null && session == null
      requires k.me == me && k.pointed == outboundRatchetSet
      ensures Snapshot() == Apply(k, CloseStep)
      ensures Grounded(Snapshot()) && Current(Snapshot()) && OutboundCurrent(Snapshot()) && AllClosed()
    {
    }

    /** Nothing this controller ever got from libdave is still open. */
    ghost predicate AllClosed()
      reads this`allRatchets, this`allDecryptors, this`allEncryptors, this`allSessions
      reads allRatchets`open, allDecryptors`open, allEncryptors`open, allSessions`open
    {
      && (forall r <- allRatchets :: !r.open)
      && (forall d <- allDecryptors :: !d.open)
      && (forall e <- allEncryptors :: !e.open)
      && (forall s <- allSessions :: !s.open)
    }

    method CloseMedia()
      requires Conserved()
      modifies this`decryptors, this`ratchets, decryptors.Values`open, ratchets.Values`open
      ensures Conserved() && ratchets == map[] && decryptors == map[]
    {
      hide RatchetsOwned, DecryptorsOwned, EncryptorsOwned, SessionsOwned;
      CloseDecryptors();
      CloseRatchets();
    }

    method CloseAll()
      requires Conserved()
      modifies this`decryptors, this`ratchets, this`session, this`encryptor
      modifies decryptors.Values`open, ratchets.Values`open, allSessions`open, Encryptors()`open
      ensures Conserved() && ratchets == map[] && decryptors == map[] && encryptor == null && session == null
    {
      hide RatchetsOwned, DecryptorsOwned, EncryptorsOwned, SessionsOwned;
      CloseMedia();
      CloseSession();
      CloseEncryptor();
    }

    method Close()
      requires Valid()
      modifies this`decryptors, this`ratchets, this`session, this`encryptor
      modifies decryptors.Values`open, ratchets.Values`open, allSessions`open, Encryptors()`open
      ensures Valid() && Snapshot() == Apply(old(Snapshot()), CloseStep)
      ensures Current(Snapshot()) && AllClosed()
    {
      hide Conserved, Grounded, Current, OutboundCurrent, AllClosed;
      ghost var k := Snapshot();
      CloseAll();
      NothingOpen(k);
    }
  }
}
