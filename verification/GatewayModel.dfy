/**
 The gateway connection of a session as values: what Open and CloseWithCode do while they hold the session lock, and
 the goroutines that call them. Goroutines are interleaved between reading and checking a message, handling it, closing,
 forgetting the session and opening again; each of these is one step.
 */
module GatewayModel {
  import opened Wrappers

  /** A dispatch (Op 0); a READY brings the session's ID and resume URL. */
  datatype Dispatch = Other(sequence: int) | Ready(sequence: int, sessionID: string, resumeURL: string)

  /** The gateway messages; an invalid-session message says whether to resume, if it can be read. */
  datatype Event = Op0(d: Dispatch) | Op7 | Op9(resumable: Option<bool>) | Quiet

  datatype Packet = Identify(url: string) | Resume(url: string, sessionID: string, sequence: int)

  /**
   How far an Open gets: the dial, the Hello, the identify or resume packet, the first dispatch. A dispatch in the place
   of the Hello is still handled before Open gives up.
   */
  datatype Attempt =
    | NoDial
    | NoHello
    | WrongHello(early: Dispatch)
    | NotSent
    | NoFirst
    | Established(first: Dispatch)

  datatype OpenResult = Opened | AlreadyOpen | Failed

  /** Sockets and listening channels are numbered in the order they were made. */
  datatype Core = Core(
    wsConn: Option<nat>,
    listening: Option<nat>,
    dialled: nat,
    openSockets: set<nat>,
    closes: seq<nat>,        // how often each channel was closed
    socketOf: seq<nat>,      // the socket each channel was made for
    sequence: int,
    sessionID: string,
    resumeURL: string,
    gateway: string,
    dataReady: bool,
    sent: seq<Packet>)

  const START := Core(None, None, 0, {}, [], [], 0, "", "", "", false, [])

  predicate CanResume(c: Core) {
    c.sequence != 0 && c.sessionID != "" && c.resumeURL != ""
  }

  predicate NeedsLookup(c: Core) {
    !CanResume(c) && c.gateway == ""
  }

  /** The core with a gateway address, where Open needs one; the REST lookup may fail. */
  function Located(c: Core, lookup: Option<string>): Core {
    if NeedsLookup(c) && lookup.Some? then c.(gateway := lookup.value) else c
  }

  function Target(c: Core): string {
    if CanResume(c) then c.resumeURL else c.gateway
  }

  /** The packet that opens the conversation on a new socket. */
  function Greeting(c: Core): Packet {
    if c.sessionID == "" && c.sequence == 0 then Identify(Target(c)) else Resume(Target(c), c.sessionID, c.sequence)
  }

  function Dispatched(c: Core, d: Dispatch): Core {
    if d.Ready? then c.(sequence := d.sequence, sessionID := d.sessionID, resumeURL := d.resumeURL)
    else c.(sequence := d.sequence)
  }

  /** A dialled socket on which the handshake failed is closed again. */
  function Abandoned(c: Core): Core {
    c.(dialled := c.dialled + 1)
  }

  function Connected(c: Core, first: Dispatch): Core {
    Dispatched(
      c.(wsConn := Some(c.dialled), dialled := c.dialled + 1, openSockets := c.openSockets + {c.dialled},
         listening := Some(|c.closes|), closes := c.closes + [0], socketOf := c.socketOf + [c.dialled]),
      first)
  }

  function Greeted(c: Core): Core {
    c.(sent := c.sent + [Greeting(c)])
  }

  /** The part of Open that has a gateway address to dial. */
  function Dialled(l: Core, a: Attempt): (Core, OpenResult) {
    match a
    case NoDial => (l.(gateway := ""), Failed)
    case NoHello => (Abandoned(l), Failed)
    case WrongHello(early) => (Abandoned(Dispatched(l, early)), Failed)
    case NotSent => (Abandoned(l), Failed)
    case NoFirst => (Abandoned(Greeted(l)), Failed)
    case Established(first) => (Connected(Greeted(l), first), Opened)
  }

  /** Open. */
  function Open(c: Core, lookup: Option<string>, a: Attempt): (Core, OpenResult) {
    if c.wsConn.Some? then (c, AlreadyOpen)
    else if NeedsLookup(c) && lookup.None? then (c, Failed)
    else Dialled(Located(c, lookup), a)
  }

  /** What an Open leaves besides the connection: the cached gateway, the dialled sockets, the packets sent. */
  lemma OpenLeaves(c: Core, lookup: Option<string>, a: Attempt)
    ensures var (n, result) := Open(c, lookup, a);
      if c.wsConn.Some? then n == c && result == AlreadyOpen
      else if !CanResume(c) && c.gateway == "" && lookup.None? then n == c && result == Failed
      else
        && (result == Opened <==> a.Established?) && result != AlreadyOpen
        && n.gateway == (if a.NoDial? then "" else if CanResume(c) || c.gateway != "" then c.gateway else lookup.value)
        && n.dialled == c.dialled + (if a.NoDial? then 0 else 1)
        && |n.sent| == |c.sent| + (if a.NoFirst? || a.Established? then 1 else 0) && n.sent[..|c.sent|] == c.sent
        && n.dataReady == c.dataReady
        && (match OpenBrings(c, lookup, a)
            case None => n.sequence == c.sequence && n.sessionID == c.sessionID && n.resumeURL == c.resumeURL
            case Some(Other(q)) => n.sequence == q && n.sessionID == c.sessionID && n.resumeURL == c.resumeURL
            case Some(Ready(q, id, url)) => n.sequence == q && n.sessionID == id && n.resumeURL == url)
  {
  }

  function OneMore(closes: seq<nat>, ch: nat): seq<nat> {
    if ch < |closes| then closes[ch := closes[ch] + 1] else closes
  }

  /** CloseWithCode. */
  function Close(c: Core): Core {
    c.(dataReady := false,
       closes := if c.listening.Some? then OneMore(c.closes, c.listening.value) else c.closes,
       listening := None,
       openSockets := c.openSockets - (if c.wsConn.Some? then {c.wsConn.value} else {}),
       wsConn := None)
  }

  /** What a non-resumable invalid-session message does to the session's data. */
  function Forget(c: Core): Core {
    c.(resumeURL := "", sessionID := "", sequence := 0)
  }

  /**
   Every socket ever dialled but the current one is closed, every channel but the current one was closed exactly once,
   there is a current channel just when there is a current socket, and it is that socket's.
   */
  ghost predicate Sound(c: Core) {
    && (c.wsConn.Some? <==> c.listening.Some?)
    && |c.closes| == |c.socketOf|
    && (forall i :: 0 <= i < |c.socketOf| ==> c.socketOf[i] < c.dialled)
    && (forall i, j :: 0 <= i < j < |c.socketOf| ==> c.socketOf[i] != c.socketOf[j])
    && c.openSockets == (if c.wsConn.Some? then {c.wsConn.value} else {})
    && (c.listening.Some? ==> c.listening.value < |c.closes| && c.wsConn == Some(c.socketOf[c.listening.value]))
    && (forall i :: 0 <= i < |c.closes| ==> c.closes[i] == if c.listening == Some(i) then 0 else 1)
  }

  /** From c to n no channel was made, or one with two goroutines for it. */
  ghost predicate Grew(c: Core, n: Core) {
    if c.wsConn.None? && n.wsConn.Some? then
      n.socketOf == c.socketOf + [n.wsConn.value] && n.listening == Some(|c.socketOf|)
    else n.socketOf == c.socketOf
  }

  lemma EstablishedKeepsSound(c: Core, first: Dispatch)
    requires Sound(c) && c.wsConn.None?
    ensures var n := Connected(c, first);
      && Sound(n) && n.wsConn == Some(c.dialled) && n.listening == Some(|c.socketOf|)
      && n.socketOf == c.socketOf + [c.dialled] && n.closes == c.closes + [0]
  {
  }

  lemma AbandonedKeepsSound(c: Core)
    requires Sound(c)
    ensures Sound(Abandoned(c))
  {
  }

  lemma OpenKeepsSound(c: Core, lookup: Option<string>, a: Attempt)
    requires Sound(c)
    ensures var (n, result) := Open(c, lookup, a);
      && Sound(n) && Grew(c, n)
      && (result == Opened <==> c.wsConn.None? && n.wsConn.Some?)
      && (result == AlreadyOpen <==> c.wsConn.Some?)
      && (result != Opened ==> n.wsConn == c.wsConn && n.listening == c.listening && n.closes == c.closes)
  {
    hide Connected, Greeting, CanResume, Sound;
    if c.wsConn.None? && !(NeedsLookup(c) && lookup.None?) {
      var l := Located(c, lookup);
      SameSockets(c, l);
      match a
      case NoDial => SameSockets(l, l.(gateway := ""));
      case WrongHello(early) =>
        SameSockets(l, Dispatched(l, early));
        AbandonedKeepsSound(Dispatched(l, early));
      case Established(first) =>
        SameSockets(l, Greeted(l));
        EstablishedKeepsSound(Greeted(l), first);
      case NoFirst =>
        SameSockets(l, Greeted(l));
        AbandonedKeepsSound(Greeted(l));
      case _ => AbandonedKeepsSound(l);
    }
  }

  /** Soundness is about sockets and channels only. */
  lemma SameSockets(c: Core, n: Core)
    requires Sound(c) && n.wsConn == c.wsConn && n.listening == c.listening && n.dialled == c.dialled
    requires n.openSockets == c.openSockets && n.closes == c.closes && n.socketOf == c.socketOf
    ensures Sound(n)
  {
  }

  lemma CloseKeepsSound(c: Core)
    requires Sound(c)
    ensures Sound(Close(c)) && Grew(c, Close(c))
    ensures Close(c).wsConn.None? && Close(c).openSockets == {} && !Close(c).dataReady
    ensures forall i :: 0 <= i < |c.closes| ==> Close(c).closes[i] == 1
  {
  }

  predicate IsClosed(c: Core, ch: nat) {
    ch < |c.closes| && c.closes[ch] > 0
  }

  /** What a goroutine does next, and after that. */
  datatype Todo =
    | Done
    | Read                       // the next message of the socket
    | Store(d: Dispatch)         // store the sequence of a dispatch that passed the channel check, and handle it
    | Beat                       // send a heartbeat
    | MarkReady(next: Todo)      // DataReady = true, under the lock
    | Shut(next: Todo)           // CloseWithCode
    | Drop(next: Todo)           // forget the session's data
    | Retry(next: Todo)          // one round of the loop of reconnect

  datatype Kind = Listener | Heart

  /** A goroutine started by Open for a socket and a channel. */
  datatype Task = Task(kind: Kind, socket: nat, ch: nat, todo: Todo)

  /** What happens to a goroutine at one of its steps. */
  datatype Input = Input(message: Option<Event>, beats: bool, stops: bool, lookup: Option<string>, attempt: Attempt)

  datatype Machine = Machine(core: Core, tasks: seq<Task>, reconnects: bool)

  datatype Move = Turn(i: nat, input: Input) | UserOpen(lookup: Option<string>, attempt: Attempt) | UserClose

  /** What listen goes on to do with a message, unless its channel is closed. */
  function OnEvent(e: Event): Todo {
    match e
    case Op0(d) => Store(d)
    case Op7 => Shut(Retry(Read))
    case Op9(resumable) =>
      if resumable.None? then Shut(Read)
      else if resumable.value then Shut(Retry(Read))
      else Shut(Drop(Retry(Read)))
    case Quiet => Read
  }

  function TaskStep(c: Core, t: Task, x: Input, reconnects: bool): (Core, Todo)
  {
    match t.todo
    case Done => (c, Done)
    case Read =>
      if x.message.None? then (c, if c.wsConn == Some(t.socket) then Shut(Retry(Done)) else Done)
      else if IsClosed(c, t.ch) then (c, Done)
      else (c, OnEvent(x.message.value))
    case Store(d) => (Dispatched(c, d), Read)
    case Beat => (c, if x.beats then MarkReady(Beat) else Shut(Retry(Done)))
    case MarkReady(next) => (c.(dataReady := true), if IsClosed(c, t.ch) && x.stops then Done else next)
    case Shut(next) => (Close(c), next)
    case Drop(next) => (Forget(c), next)
    case Retry(next) =>
      if !reconnects then (c, next)
      else
        var (n, result) := Open(c, x.lookup, x.attempt);
        (n, if result == Failed then t.todo else next)
  }

  /** The two goroutines Open starts. */
  function Spawned(before: Core, after: Core): seq<Task> {
    if before.wsConn.None? && after.wsConn.Some? && after.listening.Some? then
      [Task(Heart, after.wsConn.value, after.listening.value, Beat),
       Task(Listener, after.wsConn.value, after.listening.value, Read)]
    else []
  }

  function Step(m: Machine, x: Move): Machine {
    match x
    case Turn(i, input) =>
      if i >= |m.tasks| then m
      else
        var (n, todo) := TaskStep(m.core, m.tasks[i], input, m.reconnects);
        m.(core := n, tasks := m.tasks[i := m.tasks[i].(todo := todo)] + Spawned(m.core, n))
    case UserOpen(lookup, attempt) =>
      var n := Open(m.core, lookup, attempt).0;
      m.(core := n, tasks := m.tasks + Spawned(m.core, n))
    case UserClose => m.(core := Close(m.core))
  }

  /** Every goroutine has a channel of its own kind, made for its socket. */
  ghost predicate TasksPaired(m: Machine) {
    && (forall i :: 0 <= i < |m.tasks| ==>
      m.tasks[i].ch < |m.core.socketOf| && m.core.socketOf[m.tasks[i].ch] == m.tasks[i].socket)
    && (forall i, j :: 0 <= i < j < |m.tasks| ==> m.tasks[i].kind != m.tasks[j].kind || m.tasks[i].ch != m.tasks[j].ch)
  }

  ghost predicate Good(m: Machine) {
    Sound(m.core) && TasksPaired(m)
  }

  lemma TaskStepKeeps(c: Core, t: Task, x: Input, reconnects: bool)
    requires Sound(c)
    ensures var n := TaskStep(c, t, x, reconnects).0; Sound(n) && Grew(c, n)
  {
    hide Open, Close, Sound;
    var n := TaskStep(c, t, x, reconnects).0;
    match t.todo
    case Retry(next) => OpenKeepsSound(c, x.lookup, x.attempt);
    case Shut(next) => CloseKeepsSound(c);
    case _ => SameSockets(c, n);
  }

  lemma SpawnKeepsPaired(m: Machine, tasks: seq<Task>, n: Core)
    requires Good(m) && Sound(n) && Grew(m.core, n)
    requires |tasks| == |m.tasks|
    requires forall i :: 0 <= i < |tasks| ==>
      tasks[i].kind == m.tasks[i].kind && tasks[i].ch == m.tasks[i].ch && tasks[i].socket == m.tasks[i].socket
    ensures TasksPaired(m.(core := n, tasks := tasks + Spawned(m.core, n)))
  {
    var r := m.(core := n, tasks := tasks + Spawned(m.core, n));
    forall i, j | 0 <= i < j < |r.tasks|
      ensures r.tasks[i].kind != r.tasks[j].kind || r.tasks[i].ch != r.tasks[j].ch
    {
      if j < |tasks| {
        assert m.tasks[i].kind != m.tasks[j].kind || m.tasks[i].ch != m.tasks[j].ch;
      }
    }
  }

  lemma StepKeepsGood(m: Machine, x: Move)
    requires Good(m)
    ensures Good(Step(m, x))
  {
    match x
    case Turn(i, input) =>
      if i < |m.tasks| {
        var (n, todo) := TaskStep(m.core, m.tasks[i], input, m.reconnects);
        TaskStepKeeps(m.core, m.tasks[i], input, m.reconnects);
        SpawnKeepsPaired(m, m.tasks[i := m.tasks[i].(todo := todo)], n);
      }
    case UserOpen(lookup, attempt) =>
      OpenKeepsSound(m.core, lookup, attempt);
      SpawnKeepsPaired(m, m.tasks, Open(m.core, lookup, attempt).0);
    case UserClose => CloseKeepsSound(m.core);
  }

  function Run(m: Machine, xs: seq<Move>): Machine {
    if xs == [] then m else Step(Run(m, xs[..|xs| - 1]), xs[|xs| - 1])
  }

  /** Under every interleaving of Open, CloseWithCode, listen, heartbeat and reconnect. */
  lemma {:induction false} RunKeepsSound(reconnects: bool, xs: seq<Move>)
    ensures Good(Run(Machine(START, [], reconnects), xs))
  {
    if xs != [] {
      RunKeepsSound(reconnects, xs[..|xs| - 1]);
      StepKeepsGood(Run(Machine(START, [], reconnects), xs[..|xs| - 1]), xs[|xs| - 1]);
    }
  }

  /**
   A goroutine whose channel is still open was started for the current socket, so only its messages pass the check of
   listen. A message that has passed it is handled later, when this may no longer be so.
   */
  lemma EventsAreCurrent(m: Machine, i: nat)
    requires Good(m) && i < |m.tasks| && !IsClosed(m.core, m.tasks[i].ch)
    ensures m.core.wsConn == Some(m.tasks[i].socket) && m.core.listening == Some(m.tasks[i].ch)
  {
  }

  /** Conversely the current socket is read only through the current channel. */
  lemma CurrentSocketHasOpenChannel(m: Machine, i: nat)
    requires Good(m) && i < |m.tasks| && m.core.wsConn == Some(m.tasks[i].socket)
    ensures !IsClosed(m.core, m.tasks[i].ch)
  {
    var ch := m.core.listening.value;
    assert m.core.socketOf[ch] == m.core.socketOf[m.tasks[i].ch];
  }

  /** DataReady means connected, as far as a step can tell. */
  predicate ReadyHasSocket(c: Core) {
    c.dataReady ==> c.wsConn.Some?
  }

  predicate MarksLate(m: Machine, x: Move) {
    x.Turn? && x.i < |m.tasks| && m.tasks[x.i].todo.MarkReady? && m.core.wsConn.None?
  }

  /** The one step that reports a closed session as ready: a heartbeat written before a close and marked after it. */
  lemma StepKeepsReadyExactlyWhen(m: Machine, x: Move)
    requires Good(m) && ReadyHasSocket(m.core)
    ensures ReadyHasSocket(Step(m, x).core) <==> !MarksLate(m, x)
  {
    hide Sound, Greeting;
    match x
    case Turn(i, input) =>
    case UserOpen(lookup, attempt) =>
    case UserClose =>
  }

  lemma RunNext(m: Machine, xs: seq<Move>, n: nat)
    requires n < |xs|
    ensures Run(m, xs[..n + 1]) == Step(Run(m, xs[..n]), xs[n])
  {
    assert xs[..n + 1][..n] == xs[..n];
  }

  const FIRST := UserOpen(Some("default"), Established(Ready(1, "id", "url")))

  /** Connected for the first time. */
  const FRESH := Machine(
    Core(Some(0), Some(0), 1, {0}, [0], [0], 1, "id", "url", "default", false, [Identify("default")]),
    [Task(Heart, 0, 0, Beat), Task(Listener, 0, 0, Read)],
    true)

  lemma FirstConnects(xs: seq<Move>)
    requires |xs| > 0 && xs[0] == FIRST
    ensures Run(Machine(START, [], true), xs[..1]) == FRESH
  {
    var m := Machine(START, [], true);
    RunNext(m, xs, 0);
    assert Step(m, FIRST) == FRESH;
  }

  /** The listener goes on with what it was about to do. */
  const GO_ON := Input(None, true, false, None, NoDial)

  /** A heartbeat is written, the session closed, and then the heartbeat marks it ready. */
  const LATE_MARK: seq<Move> := [FIRST, Turn(0, GO_ON), UserClose, Turn(0, GO_ON)]

  lemma LateMarkReportsClosedSessionReady()
    ensures var c := Run(Machine(START, [], true), LATE_MARK).core; c.dataReady && c.wsConn.None?
  {
    hide Run, Greeting, Open;
    var m := Machine(START, [], true);
    FirstConnects(LATE_MARK);
    RunNext(m, LATE_MARK, 1);
    RunNext(m, LATE_MARK, 2);
    RunNext(m, LATE_MARK, 3);
    assert LATE_MARK[..4] == LATE_MARK;
  }

  predicate NoSession(c: Core) {
    c.sessionID == "" && c.sequence == 0
  }

  /** A packet that starts a session at the default gateway, or resumes a complete one at its own address. */
  predicate FitsSession(c: Core, p: Packet) {
    || p == Identify(c.gateway)
    || (p == Resume(c.resumeURL, c.sessionID, c.sequence) && c.sessionID != "" && c.resumeURL != "" && c.sequence != 0)
  }

  /** Open greets properly exactly if ID and sequence are both unset or ID, URL and sequence are all set. */
  lemma GreetingFitsExactlyWhen(c: Core)
    ensures FitsSession(c, Greeting(c)) <==> NoSession(c) || CanResume(c)
  {
  }

  /** The dispatch an Open handles, if it gets that far. */
  function OpenBrings(c: Core, lookup: Option<string>, a: Attempt): Option<Dispatch> {
    if c.wsConn.Some? || (NeedsLookup(c) && lookup.None?) then None
    else
      match a
      case WrongHello(early) => Some(early)
      case Established(first) => Some(first)
      case _ => None
  }

  /** The three session fields are all unset or all set, and set while there is a connection. */
  predicate Held(c: Core) {
    && ((c.sessionID == "" && c.resumeURL == "" && c.sequence == 0) || CanResume(c))
    && (c.wsConn.Some? ==> CanResume(c))
  }

  /** The dispatch a step of the machine handles, if it handles one. */
  function Handles(m: Machine, x: Move): Option<Dispatch> {
    match x
    case Turn(i, input) =>
      if i >= |m.tasks| then None
      else if m.tasks[i].todo.Store? then Some(m.tasks[i].todo.d)
      else if m.tasks[i].todo.Retry? && m.reconnects then OpenBrings(m.core, input.lookup, input.attempt)
      else None
    case UserOpen(lookup, attempt) => OpenBrings(m.core, lookup, attempt)
    case UserClose => None
  }

  /** What the server sends: positive sequence numbers, and a READY that names its session. */
  predicate Expected(d: Dispatch) {
    d.sequence > 0 && (d.Ready? ==> d.sessionID != "" && d.resumeURL != "")
  }

  /** The goroutine or caller that takes this step is inside Open. */
  predicate Opens(m: Machine, x: Move) {
    x.UserOpen? || (x.Turn? && x.i < |m.tasks| && m.tasks[x.i].todo.Retry?)
  }

  /** The dispatch of the step is an expected one, and that of an Open which starts a new session is a READY. */
  predicate ExpectedAt(m: Machine, x: Move) {
    var d := Handles(m, x);
    d.Some? ==> Expected(d.value) && (Opens(m, x) && !CanResume(m.core) ==> d.value.Ready?)
  }

  /** A non-resumable invalid session is forgotten when somebody has already connected again. */
  predicate DropsLate(m: Machine, x: Move) {
    x.Turn? && x.i < |m.tasks| && m.tasks[x.i].todo.Drop? && m.core.wsConn.Some?
  }

  /** The sequence of a dispatch is stored when its session has already been forgotten. */
  predicate StoresStale(m: Machine, x: Move) {
    && x.Turn? && x.i < |m.tasks| && m.tasks[x.i].todo.Store? && m.tasks[x.i].todo.d.Other?
    && !CanResume(m.core)
  }

  /** Such a dispatch passed the check of listen when its channel was open, and the channel was closed since. */
  lemma StaleStoreAfterClose(m: Machine, x: Move)
    requires Good(m) && Held(m.core) && StoresStale(m, x)
    ensures IsClosed(m.core, m.tasks[x.i].ch)
  {
    if !IsClosed(m.core, m.tasks[x.i].ch) {
      EventsAreCurrent(m, x.i);
    }
  }

  lemma OpenKeepsHeld(c: Core, lookup: Option<string>, a: Attempt)
    requires Held(c)
    requires var d := OpenBrings(c, lookup, a); d.Some? ==> Expected(d.value) && (CanResume(c) || d.value.Ready?)
    ensures Held(Open(c, lookup, a).0)
  {
    hide Greeting;
  }

  /** Of all steps of all interleavings only a late forget and a stale store break up the three session fields. */
  lemma StepKeepsHeldExactlyWhen(m: Machine, x: Move)
    requires Good(m) && Held(m.core) && ExpectedAt(m, x)
    ensures Held(Step(m, x).core) <==> !DropsLate(m, x) && !StoresStale(m, x)
  {
    hide Good, Open, Spawned, OneMore;
    match x
    case Turn(i, input) =>
      if i < |m.tasks| && m.tasks[i].todo.Retry? && m.reconnects {
        OpenKeepsHeld(m.core, input.lookup, input.attempt);
      }
    case UserOpen(lookup, attempt) => OpenKeepsHeld(m.core, lookup, attempt);
    case UserClose =>
  }

  /** Every dispatch of the run is an expected one. */
  ghost predicate AllExpected(m: Machine, xs: seq<Move>) {
    xs != [] ==> AllExpected(m, xs[..|xs| - 1]) && ExpectedAt(Run(m, xs[..|xs| - 1]), xs[|xs| - 1])
  }

  /** No step of the run forgets late or stores a stale sequence. */
  ghost predicate NeverLate(m: Machine, xs: seq<Move>) {
    xs != [] ==>
      && NeverLate(m, xs[..|xs| - 1])
      && var n, x := Run(m, xs[..|xs| - 1]), xs[|xs| - 1]; !DropsLate(n, x) && !StoresStale(n, x)
  }

  /** Over every interleaving without a late forget or a stale store the fields stay together. */
  lemma {:induction false} RunKeepsHeld(reconnects: bool, xs: seq<Move>)
    requires var m := Machine(START, [], reconnects); AllExpected(m, xs) && NeverLate(m, xs)
    ensures var c := Run(Machine(START, [], reconnects), xs).core; Held(c) && FitsSession(c, Greeting(c))
  {
    var m := Machine(START, [], reconnects);
    if xs != [] {
      RunKeepsHeld(reconnects, xs[..|xs| - 1]);
      RunKeepsSound(reconnects, xs[..|xs| - 1]);
      StepKeepsHeldExactlyWhen(Run(m, xs[..|xs| - 1]), xs[|xs| - 1]);
    }
    GreetingFitsExactlyWhen(Run(m, xs).core);
  }

  /** What the server and the client agreed on, by the messages that went over the line. */
  datatype Info = Nothing | Known(sessionID: string, resumeURL: string, sequence: int)

  function Learned(i: Info, d: Dispatch): Info {
    match d
    case Ready(sequence, sessionID, resumeURL) => Known(sessionID, resumeURL, sequence)
    case Other(sequence) => if i.Nothing? then Nothing else i.(sequence := sequence)
  }

  /** Sequence numbers are positive, a READY names its session, and it is the first dispatch of a session. */
  predicate Regular(i: Info, d: Dispatch) {
    match d
    case Ready(sequence, sessionID, resumeURL) => sequence > 0 && sessionID != "" && resumeURL != ""
    case Other(sequence) => sequence > 0 && i.Known?
  }

  /** One event, one Open or one CloseWithCode, each as a single step. */
  datatype Happening = Heard(e: Event) | Tried(lookup: Option<string>, attempt: Attempt) | Closed

  function Hear(c: Core, e: Event): Core {
    match e
    case Op0(d) => Dispatched(c, d)
    case Op7 => Close(c)
    case Op9(resumable) => if resumable == Some(false) then Forget(Close(c)) else Close(c)
    case Quiet => c
  }

  /** How many steps a goroutine has left before it reads or reconnects. */
  function Ahead(todo: Todo): nat {
    match todo
    case Store(_) => 1
    case Shut(next) => 1 + Ahead(next)
    case Drop(next) => 1 + Ahead(next)
    case _ => 0
  }

  /** The steps of a goroutine up to its next reading or reconnecting, with nobody in between. */
  function Undivided(c: Core, t: Task, reconnects: bool): (Core, Todo)
    decreases Ahead(t.todo)
  {
    if Ahead(t.todo) == 0 then (c, t.todo)
    else
      var (n, todo) := TaskStep(c, t, Input(None, false, false, None, NoDial), reconnects);
      Undivided(n, t.(todo := todo), reconnects)
  }

  /** A message as one step is the steps of the listener that reads it, as long as nobody comes in between. */
  lemma HearIsUndivided(c: Core, t: Task, x: Input, reconnects: bool)
    requires t.todo.Read? && !IsClosed(c, t.ch) && x.message.Some?
    ensures var (n, todo) := TaskStep(c, t, x, reconnects);
      var (m, last) := Undivided(n, t.(todo := todo), reconnects);
      && m == Hear(c, x.message.value)
      && (last == Retry(Read) <==> x.message.value.Op7? || (x.message.value.Op9? && x.message.value.resumable.Some?))
      && (last.Retry? || last == Read)
  {
    hide Close, Forget, Dispatched, IsClosed;
    if x.message == Some(Op9(Some(false))) {
      var dropping := t.(todo := Drop(Retry(Read)));
      assert Undivided(Close(c), dropping, reconnects) == (Forget(Close(c)), Retry(Read));
    }
  }

  /** A reconnect request and an invalid session leave no socket open and no connection, whatever follows. */
  lemma HearCloses(c: Core, e: Event)
    requires Sound(c) && (e.Op7? || e.Op9?)
    ensures var n := Hear(c, e);
      && Sound(n) && n.openSockets == {} && n.wsConn.None? && n.listening.None? && n.dialled == c.dialled
      && (c.listening.Some? ==> n.closes[c.listening.value] == 1)
  {
    CloseKeepsSound(c);
    SameSockets(Close(c), Hear(c, e));
  }

  /** A dispatch and any other message leave the connection as it is. */
  lemma HearKeepsConnection(c: Core, e: Event)
    requires e.Op0? || e.Quiet?
    ensures var n := Hear(c, e);
      && n.wsConn == c.wsConn && n.listening == c.listening && n.openSockets == c.openSockets && n.closes == c.closes
      && n.sequence == if e.Op0? then e.d.sequence else c.sequence
  {
  }

  function Happen(c: Core, h: Happening): Core {
    match h
    case Heard(e) => Hear(c, e)
    case Tried(lookup, attempt) => Open(c, lookup, attempt).0
    case Closed => Close(c)
  }

  /** The dispatch this step brings, if it brings one. */
  function Brought(c: Core, h: Happening): Option<Dispatch> {
    match h
    case Heard(Op0(d)) => Some(d)
    case Tried(lookup, attempt) => OpenBrings(c, lookup, attempt)
    case _ => None
  }

  function Update(i: Info, c: Core, h: Happening): Info {
    if Brought(c, h).Some? then Learned(i, Brought(c, h).value)
    else if h == Heard(Op9(Some(false))) then Nothing
    else i
  }

  function History(hs: seq<Happening>): (Core, Info) {
    if hs == [] then (START, Nothing)
    else
      var (c, i) := History(hs[..|hs| - 1]);
      (Happen(c, hs[|hs| - 1]), Update(i, c, hs[|hs| - 1]))
  }

  ghost predicate AllRegular(hs: seq<Happening>) {
    hs != [] ==>
      && AllRegular(hs[..|hs| - 1])
      && var (c, i) := History(hs[..|hs| - 1]);
        var d := Brought(c, hs[|hs| - 1]);
        d.Some? ==> Regular(i, d.value)
  }

  /** The three session fields say what the history says. */
  predicate Agrees(c: Core, i: Info) {
    match i
    case Nothing => c.sessionID == "" && c.resumeURL == "" && c.sequence == 0
    case Known(sessionID, resumeURL, sequence) =>
      && c.sessionID == sessionID && c.resumeURL == resumeURL && c.sequence == sequence
      && sessionID != "" && resumeURL != "" && sequence > 0
  }

  lemma HappenKeepsAgreement(c: Core, i: Info, h: Happening)
    requires Agrees(c, i) && (Brought(c, h).Some? ==> Regular(i, Brought(c, h).value))
    ensures Agrees(Happen(c, h), Update(i, c, h))
  {
    hide OneMore;
    match h
    case Heard(e) =>
    case Tried(lookup, attempt) =>
    case Closed =>
  }

  /** Session ID, resume URL and sequence are set together and cleared together, over every run. */
  lemma {:induction false} HistoryAgrees(hs: seq<Happening>)
    requires AllRegular(hs)
    ensures Agrees(History(hs).0, History(hs).1)
  {
    if hs != [] {
      HistoryAgrees(hs[..|hs| - 1]);
      HappenKeepsAgreement(History(hs[..|hs| - 1]).0, History(hs[..|hs| - 1]).1, hs[|hs| - 1]);
    }
  }

  /**
   An Open that gets to say something resumes the latest READY's session at its last sequence, and identifies at the
   default gateway exactly if there was no READY or the session was declared invalid for good after it.
   */
  lemma OpenGreetsByHistory(hs: seq<Happening>, lookup: Option<string>, a: Attempt)
    requires AllRegular(hs) && (a.NoFirst? || a.Established?)
    requires var c := History(hs).0; c.wsConn.None? && (NeedsLookup(c) ==> lookup.Some?)
    ensures var (c, i) := History(hs);
      var n := Open(c, lookup, a).0;
      && |n.sent| == |c.sent| + 1 && n.sent[..|c.sent|] == c.sent
      && n.sent[|c.sent|] ==
        if i.Known? then Resume(i.resumeURL, i.sessionID, i.sequence)
        else Identify(Located(c, lookup).gateway)
  {
    HistoryAgrees(hs);
  }

  /** A READY, then an invalid-session message whose two halves are split by an Open that resumes. */
  const SPLIT: seq<Move> := [
    FIRST,
    Turn(1, GO_ON.(message := Some(Op9(Some(false))))),
    Turn(1, GO_ON),
    UserOpen(None, Established(Other(2))),
    Turn(1, GO_ON),
    Turn(3, GO_ON.(message := Some(Op0(Other(3))))),
    Turn(3, GO_ON)]

  /** The listener has closed the connection and is about to forget the session. */
  ghost predicate BetweenHalves(m: Machine) {
    && m.tasks == [Task(Heart, 0, 0, Beat), Task(Listener, 0, 0, Drop(Retry(Read)))] && m.reconnects
    && m.core.wsConn.None? && m.core.closes == [1] && m.core.gateway == "default"
    && m.core.sequence == 1 && m.core.sessionID == "id" && m.core.resumeURL == "url"
  }

  lemma SplitFirstHalf()
    ensures BetweenHalves(Run(Machine(START, [], true), SPLIT[..3]))
  {
    hide Run, Greeting, Open;
    var m := Machine(START, [], true);
    FirstConnects(SPLIT);
    RunNext(m, SPLIT, 1);
    RunNext(m, SPLIT, 2);
  }

  /** Split that way, the client is left with a sequence but no session, and its next greeting fits neither form. */
  lemma SplitInvalidSessionMixesSessions()
    ensures var c := Run(Machine(START, [], true), SPLIT).core;
      c.sessionID == "" && c.sequence == 3 && !FitsSession(c, Greeting(c))
  {
    hide Run;
    var m := Machine(START, [], true);
    SplitFirstHalf();
    RunNext(m, SPLIT, 3);
    var n := Run(m, SPLIT[..4]);
    assert n.tasks[3].todo == Read && n.tasks[1].todo == Drop(Retry(Read));
    assert n.core.listening == Some(1) && n.core.closes == [1, 0];
    RunNext(m, SPLIT, 4);
    RunNext(m, SPLIT, 5);
    RunNext(m, SPLIT, 6);
    assert SPLIT[..7] == SPLIT;
  }

  /** A dispatch passes the check, the session is closed, resumed and forgotten, and then its sequence is stored. */
  const STALE_STORE: seq<Move> := [
    FIRST,
    Turn(1, GO_ON.(message := Some(Op0(Other(5))))),
    UserClose,
    UserOpen(None, Established(Other(2))),
    Turn(3, GO_ON.(message := Some(Op9(Some(false))))),
    Turn(3, GO_ON),
    Turn(3, GO_ON),
    Turn(1, GO_ON)]

  /** Resumed, while the listener of the first connection still holds its dispatch. */
  ghost predicate HoldsDispatch(m: Machine) {
    && m.tasks == [Task(Heart, 0, 0, Beat), Task(Listener, 0, 0, Store(Other(5))),
                   Task(Heart, 1, 1, Beat), Task(Listener, 1, 1, Read)] && m.reconnects
    && m.core.wsConn == Some(1) && m.core.listening == Some(1) && m.core.closes == [1, 0]
    && m.core.gateway == "default"
  }

  lemma StaleFirstHalf()
    ensures HoldsDispatch(Run(Machine(START, [], true), STALE_STORE[..4]))
  {
    hide Run, Greeting;
    var m := Machine(START, [], true);
    FirstConnects(STALE_STORE);
    RunNext(m, STALE_STORE, 1);
    RunNext(m, STALE_STORE, 2);
    RunNext(m, STALE_STORE, 3);
  }

  /** No forget of this run comes late, and yet it ends with a sequence and no session. */
  lemma StaleStoreMixesSessions()
    ensures var m := Machine(START, [], true);
      && !DropsLate(Run(m, STALE_STORE[..6]), STALE_STORE[6])
      && var c := Run(m, STALE_STORE).core;
        c.sessionID == "" && c.sequence == 5 && !FitsSession(c, Greeting(c))
  {
    hide Run;
    var m := Machine(START, [], true);
    StaleFirstHalf();
    RunNext(m, STALE_STORE, 4);
    RunNext(m, STALE_STORE, 5);
    RunNext(m, STALE_STORE, 6);
    RunNext(m, STALE_STORE, 7);
    assert STALE_STORE[..8] == STALE_STORE;
  }
}
