/** The session object behind GatewayModel: real sockets and channels, one method at a time under the session lock. */
module Gateway {
  import opened Wrappers
  import opened GatewayModel

  class Socket {
    ghost const number: nat
    var open: bool

    constructor (ghost number: nat)
      ensures open && this.number == number
    {
      this.number, open := number, true;
    }

    method Close()
      modifies this`open
      ensures !open
    {
      open := false;
    }
  }

  /** A Go channel that is only ever closed; closing it twice would panic. */
  class Channel {
    ghost const number: nat
    var closes: nat

    constructor (ghost number: nat)
      ensures closes == 0 && this.number == number
    {
      this.number, closes := number, 0;
    }

    method Close()
      requires closes == 0
      modifies this`closes
      ensures closes == 1
    {
      closes := closes + 1;
    }
  }

  /** The wait before retry number i, in seconds. */
  function Backoff(i: nat): (w: nat)
    ensures 1 <= w <= 600
  {
    if i == 0 then 1 else if 2 * Backoff(i - 1) > 600 then 600 else 2 * Backoff(i - 1)
  }

  function Pow2(i: nat): nat {
    if i == 0 then 1 else 2 * Pow2(i - 1)
  }

  /** The waits double from one second up to 512 and stay at ten minutes from then on. */
  lemma {:induction false} BackoffDoublesToTenMinutes(i: nat)
    ensures Backoff(i) == if i < 10 then Pow2(i) else 600
  {
    if i > 10 {
      BackoffDoublesToTenMinutes(i - 1);
    } else {
      assert Pow2(0) == 1 && Pow2(1) == 2 && Pow2(2) == 4 && Pow2(3) == 8 && Pow2(4) == 16;
      assert Pow2(5) == 32 && Pow2(6) == 64 && Pow2(7) == 128 && Pow2(8) == 256 && Pow2(9) == 512;
      assert Backoff(1) == 2 && Backoff(2) == 4 && Backoff(3) == 8 && Backoff(4) == 16 && Backoff(5) == 32;
      assert Backoff(6) == 64 && Backoff(7) == 128 && Backoff(8) == 256 && Backoff(9) == 512;
    }
  }

  /** What the world does to one Open. */
  datatype Try = Try(lookup: Option<string>, attempt: Attempt)

  /** The loop of reconnect: open until it works or somebody else's connection is there. */
  function Retried(c: Core, tries: seq<Try>): Core
    decreases |tries|
  {
    if tries == [] then c
    else
      var (n, result) := Open(c, tries[0].lookup, tries[0].attempt);
      if result == Failed then Retried(n, tries[1..]) else n
  }

  /** How many rounds of the loop fail and are followed by a wait. */
  function Failures(c: Core, tries: seq<Try>): nat
    decreases |tries|
  {
    if tries == [] then 0
    else
      var (n, result) := Open(c, tries[0].lookup, tries[0].attempt);
      if result == Failed then 1 + Failures(n, tries[1..]) else 0
  }

  /** After i failed rounds from c the core is n, and the rest of the tries lies ahead. */
  ghost predicate Retrying(c: Core, tries: seq<Try>, i: nat, n: Core) {
    && i <= |tries|
    && Retried(c, tries) == Retried(n, tries[i..])
    && Failures(c, tries) == i + Failures(n, tries[i..])
  }

  lemma RetryingStarts(c: Core, tries: seq<Try>)
    ensures Retrying(c, tries, 0, c)
  {
    assert tries[0..] == tries;
  }

  lemma RetryingGoesOn(c: Core, tries: seq<Try>, i: nat, n: Core)
    requires Retrying(c, tries, i, n) && i < |tries|
    ensures var (next, result) := Open(n, tries[i].lookup, tries[i].attempt);
      if result == Failed then Retrying(c, tries, i + 1, next)
      else Retried(c, tries) == next && Failures(c, tries) == i
  {
    assert tries[i..][1..] == tries[i + 1..];
  }

  lemma RetryingEnds(c: Core, tries: seq<Try>, n: Core)
    requires Retrying(c, tries, |tries|, n)
    ensures Retried(c, tries) == n && Failures(c, tries) == |tries|
  {
  }

  lemma {:induction false} RetriedKeepsSound(c: Core, tries: seq<Try>)
    requires Sound(c)
    ensures Sound(Retried(c, tries))
    ensures Failures(c, tries) < |tries| ==> Retried(c, tries).wsConn.Some?
    ensures Failures(c, tries) <= |tries|
    decreases |tries|
  {
    if tries != [] {
      var (n, result) := Open(c, tries[0].lookup, tries[0].attempt);
      OpenKeepsSound(c, tries[0].lookup, tries[0].attempt);
      if result == Failed {
        RetriedKeepsSound(n, tries[1..]);
      }
    }
  }

  /** A try that connects whatever the session holds. */
  predicate Works(t: Try) {
    t.lookup.Some? && t.attempt.Established?
  }

  /** Only sockets dialled in the loop are open after it, and if one of its tries works it ends connected. */
  lemma {:induction false} RetriedConnects(c: Core, tries: seq<Try>)
    requires Sound(c) && c.wsConn.None?
    ensures var n := Retried(c, tries);
      && n.dialled >= c.dialled && (forall i <- n.openSockets :: i >= c.dialled)
      && ((exists i :: 0 <= i < |tries| && Works(tries[i])) ==> n.wsConn.Some? && n.openSockets == {n.wsConn.value})
    decreases |tries|
  {
    if tries != [] {
      var (n, result) := Open(c, tries[0].lookup, tries[0].attempt);
      OpenKeepsSound(c, tries[0].lookup, tries[0].attempt);
      OpenLeaves(c, tries[0].lookup, tries[0].attempt);
      if result == Failed {
        RetriedConnects(n, tries[1..]);
        if i :| 0 <= i < |tries| && Works(tries[i]) {
          assert i > 0 && tries[1..][i - 1] == tries[i];
        }
      }
    }
  }

  /** The whole handling of one event when nobody else takes the lock meanwhile. */
  function Handled(c: Core, e: Event, reconnects: bool, tries: seq<Try>): Core {
    var n := Hear(c, e);
    if reconnects && (e.Op7? || (e.Op9? && e.resumable.Some?)) then Retried(n, tries) else n
  }

  /** The messages after which a session is to be moved to a new connection. */
  predicate Moves(e: Event) {
    e.Op7? || (e.Op9? && e.resumable.Some?)
  }

  /**
   A reconnect request or an invalid session ends the connection for good, and with reconnecting on and a try that
   works there is a new one.
   */
  lemma HandledMoves(c: Core, e: Event, reconnects: bool, tries: seq<Try>)
    requires Sound(c) && (e.Op7? || e.Op9?)
    ensures var n := Handled(c, e, reconnects, tries);
      && c.openSockets !! n.openSockets && (forall i <- n.openSockets :: i >= c.dialled)
      && (!reconnects || !Moves(e) ==> n.wsConn.None?)
      && (reconnects && Moves(e) && (exists i :: 0 <= i < |tries| && Works(tries[i])) ==>
        n.wsConn.Some? && n.wsConn.value >= c.dialled && n.openSockets == {n.wsConn.value})
  {
    HearCloses(c, e);
    RetriedConnects(Hear(c, e), tries);
    hide Hear, Retried;
  }

  class Session {
    const reconnects: bool
    var wsConn: Socket?
    var listening: Channel?
    var sequence: int
    var sessionID: string
    var resumeURL: string
    var gateway: string
    var dataReady: bool

    /** Everything that was dialled, made and said. */
    ghost var sockets: seq<Socket>
    ghost var channels: seq<Channel>
    ghost var socketOf: seq<nat>
    ghost var sent: seq<Packet>

    ghost predicate Numbered()
      reads this`wsConn, this`listening, this`sockets, this`channels
    {
      && (forall i :: 0 <= i < |sockets| ==> sockets[i].number == i)
      && (forall i :: 0 <= i < |channels| ==> channels[i].number == i)
      && (wsConn != null ==> wsConn.number < |sockets| && sockets[wsConn.number] == wsConn)
      && (listening != null ==> listening.number < |channels| && channels[listening.number] == listening)
    }

    ghost function Closes(): seq<nat>
      reads this`channels, channels
    {
      var cs := channels;
      seq(|cs|, i requires 0 <= i < |cs| reads cs => cs[i].closes)
    }

    ghost function OpenSockets(): set<nat>
      reads this`sockets, sockets`open
    {
      set i | 0 <= i < |sockets| && sockets[i].open
    }

    ghost function Snapshot(): Core
      reads this, sockets`open, channels
    {
      Core(if wsConn == null then None else Some(wsConn.number),
           if listening == null then None else Some(listening.number),
           |sockets|, OpenSockets(), Closes(), socketOf,
           sequence, sessionID, resumeURL, gateway, dataReady, sent)
    }

    ghost predicate Valid()
      reads this, sockets`open, channels
    {
      Numbered() && Sound(Snapshot())
    }

    constructor (reconnects: bool)
      ensures Valid() && Snapshot() == START && this.reconnects == reconnects
    {
      this.reconnects := reconnects;
      wsConn, listening, sequence, sessionID, resumeURL, gateway, dataReady := null, null, 0, "", "", "", false;
      sockets, channels, socketOf, sent := [], [], [], [];
    }

    method CloseWithCode()
      requires Valid()
      modifies this`dataReady, this`listening, this`wsConn, sockets`open, channels`closes
      ensures Valid() && Snapshot() == Close(old(Snapshot()))
    {
      hide Sound, OneMore;
      CurrentUnclosed();
      CloseKeepsSound(Snapshot());
      dataReady := false;
      CloseBoth();
    }

    /** The current channel has not been closed yet. */
    lemma CurrentUnclosed()
      requires Valid()
      ensures listening != null ==> Closes()[listening.number] == 0
    {
    }

    method CloseBoth()
      requires Numbered() && (listening != null ==> Closes()[listening.number] == 0)
      modifies this`listening, this`wsConn, sockets`open, channels`closes
      ensures Numbered() && wsConn == null && listening == null
      ensures Closes() ==
        if old(listening) == null then old(Closes()) else OneMore(old(Closes()), old(listening).number)
      ensures OpenSockets() == old(OpenSockets()) - if old(wsConn) == null then {} else {old(wsConn).number}
    {
      CloseChannel();
      CloseSocket();
    }

    method CloseChannel()
      requires Numbered() && (listening != null ==> Closes()[listening.number] == 0)
      modifies this`listening, channels`closes
      ensures Numbered() && listening == null
      ensures Closes() ==
        if old(listening) == null then old(Closes()) else OneMore(old(Closes()), old(listening).number)
    {
      if listening != null {
        listening.Close();
        listening := null;
      }
    }

    ghost function Current(): set<Socket>
      reads this`wsConn
    {
      if wsConn == null then {} else {wsConn}
    }

    method CloseSocket()
      requires Numbered()
      modifies this`wsConn, Current()`open
      ensures Numbered() && wsConn == null
      ensures OpenSockets() == old(OpenSockets()) - if old(wsConn) == null then {} else {old(wsConn).number}
    {
      if wsConn != null {
        wsConn.Close();
        wsConn := null;
      }
    }

    /** The gateway address Open dials, unless it has to look one up and cannot. */
    method Locate(lookup: Option<string>) returns (url: Option<string>)
      modifies this`gateway
      ensures Snapshot() == Located(old(Snapshot()), lookup)
      ensures url == if old(NeedsLookup(Snapshot())) && lookup.None? then None else Some(Target(Snapshot()))
    {
      if sequence != 0 && sessionID != "" && resumeURL != "" {
        return Some(resumeURL);
      }
      if gateway == "" {
        if lookup.None? {
          return None;
        }
        gateway := lookup.value;
      }
      return Some(gateway);
    }

    method Dial()
      requires Numbered() && wsConn == null
      modifies this`wsConn, this`sockets
      ensures Numbered() && wsConn != null && fresh(wsConn) && wsConn.number == old(|sockets|)
      ensures sockets == old(sockets) + [wsConn] && OpenSockets() == old(OpenSockets()) + {old(|sockets|)}
    {
      var ws := new Socket(|sockets|);
      wsConn, sockets := ws, sockets + [ws];
    }

    /** The identify or resume packet. */
    method Greet(url: string)
      modifies this`sent
      ensures sent == old(sent) +
        [if sessionID == "" && sequence == 0 then Identify(url) else Resume(url, sessionID, sequence)]
    {
      if sessionID == "" && sequence == 0 {
        sent := sent + [Identify(url)];
      } else {
        sent := sent + [Resume(url, sessionID, sequence)];
      }
    }

    method OnDispatch(d: Dispatch)
      modifies this`sequence, this`sessionID, this`resumeURL
      ensures Snapshot() == Dispatched(old(Snapshot()), d)
    {
      sequence := d.sequence;
      if d.Ready? {
        sessionID := d.sessionID;
        resumeURL := d.resumeURL;
      }
    }

    method StartListening()
      requires Numbered() && wsConn != null && listening == null
      modifies this`listening, this`channels, this`socketOf
      ensures Numbered() && listening != null && fresh(listening) && listening.number == old(|channels|)
      ensures channels == old(channels) + [listening]
      ensures Closes() == old(Closes()) + [0] && socketOf == old(socketOf) + [wsConn.number]
    {
      var ch := new Channel(|channels|);
      listening, channels, socketOf := ch, channels + [ch], socketOf + [wsConn.number];
      assert Closes() == old(Closes()) + [0];
    }

    /** A dial that works and a handshake that fails, before or after our packet went out. */
    method Abandon(url: string, said: bool)
      requires Numbered() && wsConn == null && url == Target(Snapshot())
      modifies this`wsConn, this`sockets, this`sent
      ensures Numbered() && Snapshot() == Abandoned(if said then Greeted(old(Snapshot())) else old(Snapshot()))
    {
      hide Numbered, CanResume;
      Dial();
      if said {
        Greet(url);
      }
      CloseSocket();
    }

    /** A dial that works, and a dispatch where the Hello should be: it is handled, then Open hangs up. */
    method Misgreet(early: Dispatch)
      requires Numbered() && wsConn == null
      modifies this`wsConn, this`sockets, this`sequence, this`sessionID, this`resumeURL
      ensures Numbered() && Snapshot() == Abandoned(Dispatched(old(Snapshot()), early))
    {
      hide Numbered;
      Dial();
      OnDispatch(early);
      CloseSocket();
    }

    method Connect(url: string, first: Dispatch)
      requires Numbered() && wsConn == null && listening == null && url == Target(Snapshot())
      modifies this`wsConn, this`sockets, this`sent, this`sequence, this`sessionID, this`resumeURL
      modifies this`listening, this`channels, this`socketOf
      ensures Numbered() && Snapshot() == Connected(Greeted(old(Snapshot())), first)
    {
      hide Numbered, CanResume;
      Dial();
      Greet(url);
      OnDispatch(first);
      StartListening();
    }

    /** The part of Open that has a gateway address to dial. */
    method DialAt(url: string, a: Attempt) returns (result: OpenResult)
      requires Numbered() && wsConn == null && listening == null && url == Target(Snapshot())
      modifies this
      ensures Numbered() && (Snapshot(), result) == Dialled(old(Snapshot()), a)
    {
      hide Numbered, CanResume;
      match a
      case NoDial =>
        gateway := "";
        result := Failed;
      case WrongHello(early) =>
        Misgreet(early);
        result := Failed;
      case Established(first) =>
        Connect(url, first);
        result := Opened;
      case _ =>
        Abandon(url, a.NoFirst?);
        result := Failed;
    }

    method Open(lookup: Option<string>, a: Attempt) returns (result: OpenResult)
      requires Valid()
      modifies this
      ensures Valid() && (Snapshot(), result) == GatewayModel.Open(old(Snapshot()), lookup, a)
    {
      OpenKeepsSound(Snapshot(), lookup, a);
      assert wsConn == null ==> listening == null;
      hide Sound, Dialled, CanResume;
      if wsConn != null {
        return AlreadyOpen;
      }
      var url := Locate(lookup);
      if url.None? {
        return Failed;
      }
      result := DialAt(url.value, a);
    }

    /** reconnect: the waits between its rounds double up to ten minutes. */
    method Reconnect(tries: seq<Try>) returns (waits: seq<nat>)
      requires Valid()
      modifies this
      ensures Valid()
      ensures Snapshot() == if reconnects then Retried(old(Snapshot()), tries) else old(Snapshot())
      ensures |waits| == if reconnects then Failures(old(Snapshot()), tries) else 0
      ensures forall i :: 0 <= i < |waits| ==> waits[i] == Backoff(i)
    {
      hide Sound, Numbered, Snapshot, GatewayModel.Open, Retrying;
      waits := [];
      if !reconnects {
        return;
      }
      ghost var c := Snapshot();
      RetryingStarts(c, tries);
      var wait := 1;
      for i := 0 to |tries|
        invariant Valid() && wait == Backoff(i) && |waits| == i
        invariant forall k :: 0 <= k < |waits| ==> waits[k] == Backoff(k)
        invariant Retrying(c, tries, i, Snapshot())
      {
        RetryingGoesOn(c, tries, i, Snapshot());
        var result := Open(tries[i].lookup, tries[i].attempt);
        if result != Failed {
          return;
        }
        waits := waits + [wait];
        wait := wait * 2;
        if wait > 600 {
          wait := 600;
        }
      }
      RetryingEnds(c, tries, Snapshot());
    }

    /** onEvent as the model's step. */
    method React(e: Event, tries: seq<Try>) returns (waits: seq<nat>)
      requires Valid()
      modifies this, sockets`open, channels`closes
      ensures Valid() && Snapshot() == Handled(old(Snapshot()), e, reconnects, tries)
      ensures forall i :: 0 <= i < |waits| ==> waits[i] == Backoff(i)
    {
      hide GatewayModel.Open, Retried, GatewayModel.Close, Numbered;
      waits := [];
      match e
      case Op0(d) =>
        ghost var c := Snapshot();
        OnDispatch(d);
        SameSockets(c, Snapshot());
      case Op7 =>
        CloseWithCode();
        waits := Reconnect(tries);
      case Op9(resumable) =>
        CloseWithCode();
        if resumable.None? {
          return;
        }
        if !resumable.value {
          DropSession();
        }
        waits := Reconnect(tries);
      case Quiet =>
    }

    /** onEvent, for the messages that reach past the heartbeat: a dispatch, a reconnect request, an invalid session. */
    method OnEvent(e: Event, tries: seq<Try>) returns (waits: seq<nat>)
      requires Valid()
      modifies this, sockets`open, channels`closes
      ensures Valid() && Snapshot() == Handled(old(Snapshot()), e, reconnects, tries)
      ensures forall i :: 0 <= i < |waits| ==> waits[i] == Backoff(i)
      ensures e.Op7? || e.Op9? ==> old(OpenSockets()) !! OpenSockets()
      ensures reconnects && Moves(e) && (exists i :: 0 <= i < |tries| && Works(tries[i])) ==>
        wsConn != null && wsConn.open && wsConn.number >= old(|sockets|)
    {
      hide Sound, Handled, Closes, Works;
      ghost var c := Snapshot();
      if e.Op7? || e.Op9? {
        HandledMoves(c, e, reconnects, tries);
      }
      waits := React(e, tries);
    }

    method DropSession()
      requires Valid()
      modifies this`resumeURL, this`sessionID, this`sequence
      ensures Valid() && Snapshot() == Forget(old(Snapshot()))
    {
      SameSockets(Snapshot(), Forget(Snapshot()));
      resumeURL := "";
      sessionID := "";
      sequence := 0;
    }
  }
}
