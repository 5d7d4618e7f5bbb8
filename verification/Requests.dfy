/**
 One REST call: take the bucket, send, give the bucket back, and perhaps start over. The server and the network are a
 script of what happens to each attempt.
 */
module Requests {
  import opened Wrappers
  import opened RateLimit

  const STATUS_OK := 200
  const STATUS_CREATED := 201
  const STATUS_NO_CONTENT := 204
  const STATUS_TOO_MANY_REQUESTS := 429
  const STATUS_INTERNAL_ERROR := 500
  const STATUS_BAD_GATEWAY := 502
  const STATUS_UNAVAILABLE := 503
  const STATUS_GATEWAY_TIMEOUT := 504

  /**
   What becomes of one attempt: the request cannot be built, the transport fails, or a reply arrives. A reply has a
   body that can be read or not, and that holds a retry time or not.
   */
  datatype Attempt =
    | Unbuildable
    | Unreachable
    | Reply(status: int, headers: Headers, readable: bool, retryAfter: Option<int>)

  datatype Outcome =
    | Success
    | BuildFailed
    | SendFailed
    | BadHeaders(error: HeaderError)
    | Unreadable
    | RetriesExceeded(status: int)
    | BadRateLimitBody
    | RateLimited
    | RestError(status: int)

  datatype Config = Config(maxRestRetries: int, retryOnRateLimit: bool)

  datatype Event = Sent(reply: Attempt) | GaveBack | Slept(d: int) | Took

  predicate IsSuccess(status: int) {
    status == STATUS_OK || status == STATUS_CREATED || status == STATUS_NO_CONTENT
  }

  predicate IsServerError(status: int) {
    || status == STATUS_INTERNAL_ERROR || status == STATUS_UNAVAILABLE
    || status == STATUS_GATEWAY_TIMEOUT || status == STATUS_BAD_GATEWAY
  }

  /** Whether this reply is a rate-limit reply the code answers by waiting and sending again. */
  predicate Waits(a: Attempt, cfg: Config) {
    a.Reply? && a.readable && a.status == STATUS_TOO_MANY_REQUESTS && a.retryAfter.Some? && cfg.retryOnRateLimit
  }

  predicate Retries(a: Attempt, cfg: Config, sequence: int) {
    a.Reply? && a.readable && IsServerError(a.status) && sequence < cfg.maxRestRetries
  }

  /** What Release complains about: nothing on a bucket with a custom limit, which does not look at headers. */
  function HeaderComplaint(custom: bool, h: Headers): Option<HeaderError> {
    if custom then None
    else if h.resetAfter.Malformed? then Some(BadResetAfter)
    else if h.resetAfter.Absent? && !h.reset.Absent? && !h.date.Number? then Some(BadDate)
    else if h.resetAfter.Absent? && h.reset.Malformed? then Some(BadReset)
    else if h.remaining.Malformed? then Some(BadRemaining)
    else if h.remaining.Number? && !(-0x8000_0000 <= h.remaining.value < 0x8000_0000) then Some(BadRemaining)
    else None
  }

  /** The complaint does not depend on the bucket's counters or on the clock. */
  lemma ComplaintIsSettled(c: Counters, custom: Option<CustomLimit>, h: Headers, t1: int, t2: int, t3: int)
    ensures Settled(c, custom, Some(h), t1, t2, t3).error == HeaderComplaint(custom.Some?, h)
  {
  }

  /** The outcome when an attempt ends the call. */
  function Final(a: Attempt, custom: bool): Outcome {
    match a
    case Unbuildable => BuildFailed
    case Unreachable => SendFailed
    case Reply(status, headers, readable, retryAfter) =>
      if HeaderComplaint(custom, headers).Some? then BadHeaders(HeaderComplaint(custom, headers).value)
      else if !readable then Unreadable
      else if IsSuccess(status) then Success
      else if IsServerError(status) then RetriesExceeded(status)
      else if status == STATUS_TOO_MANY_REQUESTS then if retryAfter.None? then BadRateLimitBody else RateLimited
      else RestError(status)
  }

  predicate Goes(a: Attempt, cfg: Config, sequence: int, custom: bool) {
    a.Reply? && HeaderComplaint(custom, a.headers).None? && (Waits(a, cfg) || Retries(a, cfg, sequence))
  }

  /** What each readable reply leads to, status by status: another attempt, success, or which error. */
  lemma StatusDecides(a: Attempt, cfg: Config, sequence: int, custom: bool)
    requires a.Reply? && a.readable && HeaderComplaint(custom, a.headers).None?
    ensures a.status in {200, 201, 204} ==> !Goes(a, cfg, sequence, custom) && Final(a, custom) == Success
    ensures a.status in {500, 502, 503, 504} ==>
      && (Goes(a, cfg, sequence, custom) <==> sequence < cfg.maxRestRetries)
      && Final(a, custom) == RetriesExceeded(a.status)
    ensures a.status == 429 ==>
      && (Goes(a, cfg, sequence, custom) <==> a.retryAfter.Some? && cfg.retryOnRateLimit)
      && Final(a, custom) == (if a.retryAfter.Some? then RateLimited else BadRateLimitBody)
    ensures a.status !in {200, 201, 204, 429, 500, 502, 503, 504} ==>
      !Goes(a, cfg, sequence, custom) && Final(a, custom) == RestError(a.status)
  {
  }

  /** What an attempt leads to that yields no readable reply with usable headers. */
  lemma FailureDecides(a: Attempt, custom: bool)
    ensures a == Unbuildable ==> Final(a, custom) == BuildFailed
    ensures a == Unreachable ==> Final(a, custom) == SendFailed
    ensures a.Reply? && HeaderComplaint(custom, a.headers).Some? ==>
      Final(a, custom) == BadHeaders(HeaderComplaint(custom, a.headers).value)
    ensures a.Reply? && HeaderComplaint(custom, a.headers).None? && !a.readable ==> Final(a, custom) == Unreadable
  {
  }

  /** No other attempt is followed by another one. */
  lemma OnlyRepliesGo(a: Attempt, cfg: Config, sequence: int, custom: bool)
    requires Goes(a, cfg, sequence, custom)
    ensures a.Reply? && a.readable && HeaderComplaint(custom, a.headers).None?
    ensures a.status in {429, 500, 502, 503, 504}
  {
  }

  /** The events of an attempt up to the release of the bucket. */
  function Opening(a: Attempt): seq<Event> {
    if a.Unbuildable? then [GaveBack] else [Sent(a), GaveBack]
  }

  /** The events between an attempt that is not final and the next one. */
  function Between(a: Attempt, cfg: Config): seq<Event> {
    if Waits(a, cfg) then [Slept(a.retryAfter.value), Took] else [Took]
  }

  /** The sequence number of the attempt after this one: waiting out a rate limit costs no retry. */
  function Next(a: Attempt, cfg: Config, sequence: int): int {
    if Waits(a, cfg) then sequence else sequence + 1
  }

  /**
   RequestWithLockedBucket as a function of the script: what happens, and how it ends. A script that runs out stands
   for a network that stays silent.
   */
  function Call(script: seq<Attempt>, sequence: int, cfg: Config, custom: bool): (seq<Event>, Outcome) {
    if script == [] then (Opening(Unreachable), SendFailed)
    else if !Goes(script[0], cfg, sequence, custom) then (Opening(script[0]), Final(script[0], custom))
    else
      var rest := Call(script[1..], Next(script[0], cfg, sequence), cfg, custom);
      (Opening(script[0]) + Between(script[0], cfg) + rest.0, rest.1)
  }

  /** Who holds the bucket after these events: None if somebody took it twice or gave it back twice. */
  function Held(log: seq<Event>, held: bool): Option<bool> {
    if log == [] then Some(held)
    else match log[0]
      case Took => if held then None else Held(log[1..], true)
      case GaveBack => if held then Held(log[1..], false) else None
      case Sent(_) => if held then Held(log[1..], held) else None
      case Slept(_) => if held then None else Held(log[1..], held)
  }

  function Sends(log: seq<Event>): nat {
    if log == [] then 0 else (if log[0].Sent? then 1 else 0) + Sends(log[1..])
  }

  predicate IsRateLimited(e: Event) {
    e.Sent? && e.reply.Reply? && e.reply.status == STATUS_TOO_MANY_REQUESTS
  }

  /** How many of the requests sent were answered with status 429. */
  function RateLimitReplies(log: seq<Event>): nat {
    if log == [] then 0 else (if IsRateLimited(log[0]) then 1 else 0) + RateLimitReplies(log[1..])
  }

  lemma {:induction false} LogJoins(a: seq<Event>, b: seq<Event>, held: bool)
    requires Held(a, held).Some?
    ensures Held(a + b, held) == Held(b, Held(a, held).value)
    ensures Sends(a + b) == Sends(a) + Sends(b)
    ensures Takes(a + b) == Takes(a) + Takes(b)
    ensures RateLimitReplies(a + b) == RateLimitReplies(a) + RateLimitReplies(b)
  {
    if a == [] {
      assert a + b == b;
    } else {
      assert (a + b)[1..] == a[1..] + b;
      var next := if a[0].Took? then true else if a[0].GaveBack? then false else held;
      LogJoins(a[1..], b, next);
    }
  }

  function Takes(log: seq<Event>): nat {
    if log == [] then 0 else (if log[0].Took? then 1 else 0) + Takes(log[1..])
  }

  lemma OpeningEvents(a: Attempt)
    ensures Held(Opening(a), true) == Some(false) && Takes(Opening(a)) == 0 && Asleep(Opening(a)) == 0
    ensures Sends(Opening(a)) == if a.Unbuildable? then 0 else 1
    ensures RateLimitReplies(Opening(a)) == if a.Reply? && a.status == STATUS_TOO_MANY_REQUESTS then 1 else 0
  {
    assert [Sent(a), GaveBack][1..] == [GaveBack] && [GaveBack][1..] == [];
  }

  lemma BetweenEvents(a: Attempt, cfg: Config)
    ensures Held(Between(a, cfg), false) == Some(true) && Takes(Between(a, cfg)) == 1
    ensures Sends(Between(a, cfg)) == 0 && RateLimitReplies(Between(a, cfg)) == 0
  {
    if Waits(a, cfg) {
      assert [Slept(a.retryAfter.value), Took][1..] == [Took];
    }
    assert [Took][1..] == [];
  }

  /** How one round that is not the last adds to the counts. */
  lemma RoundEvents(a: Attempt, cfg: Config, rest: seq<Event>)
    ensures var log := Opening(a) + Between(a, cfg) + rest;
      && Held(log, true) == Held(rest, true)
      && Sends(log) == (if a.Unbuildable? then 0 else 1) + Sends(rest)
      && Takes(log) == 1 + Takes(rest)
      && RateLimitReplies(log) ==
        (if a.Reply? && a.status == STATUS_TOO_MANY_REQUESTS then 1 else 0) + RateLimitReplies(rest)
  {
    OpeningEvents(a);
    BetweenEvents(a, cfg);
    LogJoins(Opening(a), Between(a, cfg), true);
    LogJoins(Opening(a) + Between(a, cfg), rest, true);
  }

  /** The bucket is held while sending and free while sleeping, takes and gives alternate, and it ends up free. */
  lemma {:induction false} BucketAlternates(script: seq<Attempt>, sequence: int, cfg: Config, custom: bool)
    ensures Held(Call(script, sequence, cfg, custom).0, true) == Some(false)
  {
    if script == [] {
      OpeningEvents(Unreachable);
    } else {
      OpeningEvents(script[0]);
      if Goes(script[0], cfg, sequence, custom) {
        var next := Next(script[0], cfg, sequence);
        BucketAlternates(script[1..], next, cfg, custom);
        RoundEvents(script[0], cfg, Call(script[1..], next, cfg, custom).0);
      }
    }
  }

  /** One request, one more per retry still allowed, and one per rate-limit reply. */
  lemma {:induction false} SendsBounded(script: seq<Attempt>, sequence: int, cfg: Config, custom: bool)
    ensures var log := Call(script, sequence, cfg, custom).0;
      Sends(log) <= 1 + Max(0, cfg.maxRestRetries - sequence) + RateLimitReplies(log)
  {
    if script == [] {
      OpeningEvents(Unreachable);
    } else {
      OpeningEvents(script[0]);
      if Goes(script[0], cfg, sequence, custom) {
        var next := Next(script[0], cfg, sequence);
        SendsBounded(script[1..], next, cfg, custom);
        RoundEvents(script[0], cfg, Call(script[1..], next, cfg, custom).0);
      }
    }
  }

  /** How many of these attempts were answered with something else than a rate limit. */
  function Failures(script: seq<Attempt>): nat {
    if script == [] then 0
    else (if script[0].Reply? && script[0].status == 429 then 0 else 1) + Failures(script[1..])
  }

  /**
   The first n attempts ask for another one and the next does not and decides the outcome. Only the failures before an
   attempt count as retries.
   */
  ghost predicate EndsAt(script: seq<Attempt>, n: nat, sequence: int, cfg: Config, custom: bool, outcome: Outcome) {
    && n <= |script|
    && (forall i :: 0 <= i < n ==> Goes(script[i], cfg, sequence + Failures(script[..i]), custom))
    && if n == |script| then outcome == SendFailed
       else
         && !Goes(script[n], cfg, sequence + Failures(script[..n]), custom)
         && outcome == Final(script[n], custom)
  }

  lemma EndsLater(script: seq<Attempt>, n: nat, sequence: int, cfg: Config, custom: bool, outcome: Outcome)
    requires script != [] && Goes(script[0], cfg, sequence, custom)
    requires EndsAt(script[1..], n, Next(script[0], cfg, sequence), cfg, custom, outcome)
    ensures EndsAt(script, n + 1, sequence, cfg, custom, outcome)
  {
    forall i | 0 < i <= n + 1
      ensures sequence + Failures(script[..i]) == Next(script[0], cfg, sequence) + Failures(script[1..][..i - 1])
    {
      assert script[..i][1..] == script[1..][..i - 1];
    }
    assert Failures(script[..0]) == 0;
    hide Final, Failures;
    assert forall i :: 0 < i <= n ==> Goes(script[1..][i - 1], cfg, sequence + Failures(script[..i]), custom);
  }

  /** Every attempt that asks for another is followed by one, and the one that does not ask decides the outcome. */
  lemma {:induction false} LastAttemptDecides(script: seq<Attempt>, sequence: int, cfg: Config, custom: bool)
    ensures var (log, outcome) := Call(script, sequence, cfg, custom);
      EndsAt(script, Takes(log), sequence, cfg, custom, outcome)
  {
    if script == [] {
      OpeningEvents(Unreachable);
    } else {
      OpeningEvents(script[0]);
      if Goes(script[0], cfg, sequence, custom) {
        var next := Next(script[0], cfg, sequence);
        LastAttemptDecides(script[1..], next, cfg, custom);
        var (rest, outcome) := Call(script[1..], next, cfg, custom);
        RoundEvents(script[0], cfg, rest);
        EndsLater(script, Takes(rest), sequence, cfg, custom, outcome);
      }
    }
  }

  /** What went over the line, in order. */
  function Requested(log: seq<Event>): seq<Attempt> {
    if log == [] then [] else (if log[0].Sent? then [log[0].reply] else []) + Requested(log[1..])
  }

  lemma {:induction false} RequestedJoins(a: seq<Event>, b: seq<Event>)
    ensures Requested(a + b) == Requested(a) + Requested(b)
  {
    if a == [] {
      assert a + b == b;
    } else {
      RequestedJoins(a[1..], b);
      assert (a + b)[1..] == a[1..] + b;
    }
  }

  lemma RoundRequests(a: Attempt, cfg: Config, rest: seq<Event>)
    ensures Requested(Opening(a)) == if a.Unbuildable? then [] else [a]
    ensures Requested(Opening(a) + Between(a, cfg) + rest) == Requested(Opening(a)) + Requested(rest)
  {
    RequestedJoins(Opening(a) + Between(a, cfg), rest);
    RequestedJoins(Opening(a), Between(a, cfg));
    assert [Sent(a), GaveBack][1..] == [GaveBack] && [GaveBack][1..] == [];
    if Waits(a, cfg) {
      assert [Slept(a.retryAfter.value), Took][1..] == [Took];
    }
    assert [Took][1..] == [];
  }

  /** The requests of the first n attempts and of the last one, unless that cannot be built. */
  function Outgoing(script: seq<Attempt>, n: nat): seq<Attempt>
    requires n <= |script|
  {
    script[..n] + if n == |script| then [Unreachable] else if script[n].Unbuildable? then [] else [script[n]]
  }

  lemma OutgoingLater(script: seq<Attempt>, n: nat)
    requires n < |script|
    ensures Outgoing(script, n + 1) == [script[0]] + Outgoing(script[1..], n)
  {
    assert script[..n + 1] == [script[0]] + script[1..][..n];
  }

  /** One request goes out for each attempt, in order, except for one that cannot be built. */
  lemma {:induction false} EveryAttemptIsSent(script: seq<Attempt>, sequence: int, cfg: Config, custom: bool)
    ensures var log := Call(script, sequence, cfg, custom).0;
      Takes(log) <= |script| && Requested(log) == Outgoing(script, Takes(log))
  {
    if script == [] {
      OpeningEvents(Unreachable);
      RoundRequests(Unreachable, Config(0, false), []);
    } else {
      OpeningEvents(script[0]);
      var next := Next(script[0], cfg, sequence);
      var rest := Call(script[1..], next, cfg, custom).0;
      RoundRequests(script[0], cfg, rest);
      if Goes(script[0], cfg, sequence, custom) {
        EveryAttemptIsSent(script[1..], next, cfg, custom);
        RoundEvents(script[0], cfg, rest);
        OutgoingLater(script, Takes(rest));
        hide Outgoing, Between, Opening, Requested;
      }
    }
  }

  /** The time the sleeps of a log were meant to take. */
  function Asleep(log: seq<Event>): nat {
    if log == [] then 0 else (if log[0].Slept? then Max(0, log[0].d) else 0) + Asleep(log[1..])
  }

  lemma {:induction false} AsleepJoins(a: seq<Event>, b: seq<Event>)
    ensures Asleep(a + b) == Asleep(a) + Asleep(b)
  {
    if a == [] {
      assert a + b == b;
    } else {
      AsleepJoins(a[1..], b);
      assert (a + b)[1..] == a[1..] + b;
    }
  }

  /** The time a reply asks the client to stay quiet. */
  function Asked(a: Attempt): nat {
    if a.Reply? && a.status == 429 && a.retryAfter.Some? then Max(0, a.retryAfter.value) else 0
  }

  lemma RoundSleeps(a: Attempt, cfg: Config, sequence: int, custom: bool, rest: seq<Event>)
    requires Goes(a, cfg, sequence, custom)
    ensures Asleep(Opening(a) + Between(a, cfg) + rest) == Asked(a) + Asleep(rest)
  {
    AsleepJoins(Opening(a) + Between(a, cfg), rest);
    AsleepJoins(Opening(a), Between(a, cfg));
    OpeningEvents(a);
    if Waits(a, cfg) {
      assert [Slept(a.retryAfter.value), Took][1..] == [Took];
    }
    assert [Took][1..] == [];
  }

  /** The uses of a bucket within some time, one after the other, each one allowed by the bucket at its moment. */
  ghost predicate Orderly(c: Counters, custom: Option<CustomLimit>, us: seq<Use>, from: int, to: int) {
    && Possible(c, custom, us)
    && (forall i :: 0 <= i < |us| ==> from <= Start(us[i]) && Start(us[i]) <= End(us[i]) && End(us[i]) <= to)
    && (forall i, j :: 0 <= i < j < |us| ==> End(us[i]) <= Start(us[j]))
  }

  /** A release for each attempt, and a grant between any two of them. */
  ghost predicate ReleasesFirst(us: seq<Use>, attempts: nat) {
    |us| == 2 * attempts - 1 && forall i :: 0 <= i < |us| ==> (us[i].Return? <==> i % 2 == 0)
  }

  /** A release is given the headers of its reply, and the grant after it waits as long as the reply asks. */
  ghost predicate HonoursAt(us: seq<Use>, script: seq<Attempt>, i: nat)
    requires i < |us|
  {
    match us[i]
    case Return(headers, _, _, _) =>
      headers == if i / 2 < |script| && script[i / 2].Reply? then Some(script[i / 2].headers) else None
    case Grant(first, _, _, _) =>
      i > 0 && i / 2 < |script| && first >= End(us[i - 1]) + Asked(script[i / 2])
  }

  ghost predicate Honours(us: seq<Use>, script: seq<Attempt>) {
    forall i :: 0 <= i < |us| ==> HonoursAt(us, script, i)
  }

  lemma OrderlyAfter(c: Counters, custom: Option<CustomLimit>, u: Use, us: seq<Use>, from: int, mid: int, to: int)
    requires Possible(c, custom, [u]) && from <= Start(u) <= End(u) <= mid <= to
    requires Orderly(After(c, custom, u), custom, us, mid, to)
    ensures Orderly(c, custom, [u] + us, from, to)
  {
    hide After, Possible;
    UsesJoin(c, custom, u, us);
  }

  lemma FirstUse(c: Counters, custom: Option<CustomLimit>, u: Use)
    requires u.Grant? ==> MayReturn(c, u.global, u.first, u.second, u.at)
    requires u.Return? ==> u.t1 <= u.t2 <= u.t3
    ensures Possible(c, custom, [u]) && Used(c, custom, [u]) == After(c, custom, u)
  {
    assert [u][..0] == [] && Used(c, custom, []) == c;
  }

  /** A last attempt has one use, its release. */
  lemma LastUse(c: Counters, custom: Option<CustomLimit>, u: Use, script: seq<Attempt>, from: int, to: int)
    requires u.Return? && from <= u.t1 <= u.t2 <= u.t3 <= to
    requires u.headers == if script != [] && script[0].Reply? then Some(script[0].headers) else None
    ensures Orderly(c, custom, [u], from, to) && ReleasesFirst([u], 1) && Honours([u], script)
  {
    FirstUse(c, custom, u);
  }

  /** An attempt that is followed by others has a release, a grant that waits, and then the uses of the others. */
  lemma RoundUses(u: Use, g: Use, us: seq<Use>, script: seq<Attempt>, attempts: nat)
    requires script != [] && u.Return? && g.Grant? && ReleasesFirst(us, attempts) && Honours(us, script[1..])
    requires u.headers == if script[0].Reply? then Some(script[0].headers) else None
    requires g.first >= End(u) + Asked(script[0])
    ensures ReleasesFirst([u, g] + us, attempts + 1) && Honours([u, g] + us, script)
  {
    var r := [u, g] + us;
    forall i | 0 <= i < |r|
      ensures HonoursAt(r, script, i)
    {
      if i >= 2 {
        assert HonoursAt(us, script[1..], i - 2) && i / 2 - 1 == (i - 2) / 2;
      }
    }
  }

  /** RequestWithLockedBucket: whatever the server does, the call follows Call and returns with the bucket free. */
  method RequestWithLockedBucket(limiter: RateLimiter, bucket: Bucket, script: seq<Attempt>, sequence: int, cfg: Config,
                                 clock: Clock)
    returns (outcome: Outcome, ghost log: seq<Event>, ghost uses: seq<Use>)
    requires bucket.locked
    modifies bucket, bucket.global, clock
    ensures !bucket.locked && (log, outcome) == Call(script, sequence, cfg, bucket.custom.Some?)
    ensures clock.now >= old(clock.now) + Asleep(log)
    ensures ReleasesFirst(uses, 1 + Takes(log)) && Honours(uses, script)
    ensures Orderly(old(bucket.State()), bucket.custom, uses, old(clock.now), clock.now)
    ensures bucket.State() == Used(old(bucket.State()), bucket.custom, uses)
    decreases |script|
  {
    var attempt := if script == [] then Unreachable else script[0];
    ghost var before := bucket.State();
    ghost var t1, t2, t3;
    var error;
    OpeningEvents(attempt);
    if !attempt.Reply? {
      error, t1, t2, t3 := bucket.Release(None, clock);
      uses := [Return(None, t1, t2, t3)];
      LastUse(before, bucket.custom, uses[0], script, old(clock.now), clock.now);
      return if attempt.Unbuildable? then BuildFailed else SendFailed, Opening(attempt), uses;
    }
    error, t1, t2, t3 := bucket.Release(Some(attempt.headers), clock);
    ComplaintIsSettled(before, bucket.custom, attempt.headers, t1, t2, t3);
    log, uses := Opening(attempt), [Return(Some(attempt.headers), t1, t2, t3)];
    LastUse(before, bucket.custom, uses[0], script, old(clock.now), clock.now);
    if error.Some? {
      return BadHeaders(error.value), log, uses;
    }
    if !attempt.readable {
      return Unreadable, log, uses;
    }
    if IsSuccess(attempt.status) {
      return Success, log, uses;
    }
    if IsServerError(attempt.status) {
      if sequence >= cfg.maxRestRetries {
        return RetriesExceeded(attempt.status), log, uses;
      }
      outcome, log, uses := Again(limiter, bucket, script, sequence, cfg, clock, before, uses[0], old(clock.now));
    } else if attempt.status == STATUS_TOO_MANY_REQUESTS {
      if attempt.retryAfter.None? {
        return BadRateLimitBody, log, uses;
      }
      if !cfg.retryOnRateLimit {
        return RateLimited, log, uses;
      }
      clock.Sleep(attempt.retryAfter.value);
      outcome, log, uses := Again(limiter, bucket, script, sequence, cfg, clock, before, uses[0], old(clock.now));
    } else {
      return RestError(attempt.status), log, uses;
    }
  }

  /** Take the bucket again and make the next attempt; u is the release of the one before, which began in before. */
  method Again(limiter: RateLimiter, bucket: Bucket, script: seq<Attempt>, sequence: int, cfg: Config, clock: Clock,
               ghost before: Counters, ghost u: Use, ghost from: int)
    returns (outcome: Outcome, ghost log: seq<Event>, ghost uses: seq<Use>)
    requires !bucket.locked && script != [] && Goes(script[0], cfg, sequence, bucket.custom.Some?)
    requires u.Return? && from <= u.t1 <= u.t2 <= u.t3 && clock.now >= u.t3 + Asked(script[0])
    requires u.headers == Some(script[0].headers) && bucket.State() == After(before, bucket.custom, u)
    modifies bucket, bucket.global, clock
    ensures !bucket.locked && (log, outcome) == Call(script, sequence, cfg, bucket.custom.Some?)
    ensures clock.now >= u.t3 + Asleep(log)
    ensures ReleasesFirst(uses, 1 + Takes(log)) && Honours(uses, script)
    ensures Orderly(before, bucket.custom, uses, from, clock.now)
    ensures bucket.State() == Used(before, bucket.custom, uses)
    decreases |script|, 0
  {
    hide Possible, Used, ReleasesFirst, Honours, Orderly;
    ghost var c := bucket.State();
    ghost var first, second := limiter.LockBucketObject(bucket, clock);
    ghost var g := Grant(first, second, clock.now, limiter.global.until);
    ghost var mid := clock.now;
    outcome, log, uses :=
      RequestWithLockedBucket(limiter, bucket, script[1..], Next(script[0], cfg, sequence), cfg, clock);
    RoundUses(u, g, uses, script, 1 + Takes(log));
    FirstUse(c, bucket.custom, g);
    FirstUse(before, bucket.custom, u);
    OrderlyAfter(c, bucket.custom, g, uses, u.t3, mid, clock.now);
    OrderlyAfter(before, bucket.custom, u, [g] + uses, from, u.t3, clock.now);
    UsesJoin(c, bucket.custom, g, uses);
    UsesJoin(before, bucket.custom, u, [g] + uses);
    assert [u] + ([g] + uses) == [u, g] + uses;
    uses := [u, g] + uses;
    RoundEvents(script[0], cfg, log);
    RoundSleeps(script[0], cfg, sequence, bucket.custom.Some?, log);
    log := Opening(script[0]) + Between(script[0], cfg) + log;
  }

  /** strings.SplitN(url, "?", 2)[0]. */
  function BeforeQuery(url: string): (r: string)
    ensures '?' !in r && r <= url
    ensures |r| < |url| ==> url[|r|] == '?'
  {
    if url == "" || url[0] == '?' then "" else [url[0]] + BeforeQuery(url[1..])
  }

  /** The key of the bucket a request takes. */
  function BucketKey(bucketID: string, url: string): string {
    if bucketID == "" then BeforeQuery(url) else bucketID
  }

  /** The bucket under a key, if there is one yet. */
  ghost function BucketAt(limiter: RateLimiter, key: string): set<Bucket>
    reads limiter`buckets
  {
    if key in limiter.buckets then {limiter.buckets[key]} else {}
  }

  /** RequestRaw: any call on a route whose bucket is free leaves it free and sends no more than its share. */
  method RequestRaw(limiter: RateLimiter, bucketID: string, url: string, script: seq<Attempt>, sequence: int,
                    cfg: Config, clock: Clock)
    returns (outcome: Outcome, ghost log: seq<Event>, bucket: Bucket, ghost uses: seq<Use>)
    requires limiter.Valid() && (forall b <- BucketAt(limiter, BucketKey(bucketID, url)) :: !b.locked)
    modifies limiter`buckets, BucketAt(limiter, BucketKey(bucketID, url)), limiter.global, clock
    ensures limiter.Valid() && !bucket.locked && bucket.key == BucketKey(bucketID, url)
    ensures bucket.key == if bucketID != "" then bucketID else BeforeQuery(url)
    ensures limiter.buckets == old(limiter.buckets)[bucket.key := bucket]
    ensures bucket.key in old(limiter.buckets) ==> bucket == old(limiter.buckets)[bucket.key]
    ensures (log, outcome) == Call(script, sequence, cfg, bucket.custom.Some?)
    ensures Sends(log) <= 1 + Max(0, cfg.maxRestRetries - sequence) + RateLimitReplies(log)
    ensures clock.now >= old(clock.now) + Asleep(log)
    ensures uses != [] && uses[0].Grant? && ReleasesFirst(uses[1..], 1 + Takes(log)) && Honours(uses[1..], script)
    ensures var c := if bucket.key in old(limiter.buckets) then old(limiter.buckets[bucket.key].State()) else FRESH;
      && Orderly(c, bucket.custom, uses, old(clock.now), clock.now)
      && bucket.State() == Used(c, bucket.custom, uses)
  {
    hide Possible, Used, ReleasesFirst, Honours, Orderly;
    bucket := limiter.GetBucket(BucketKey(bucketID, url));
    ghost var c := bucket.State();
    ghost var first, second := limiter.LockBucketObject(bucket, clock);
    ghost var g := Grant(first, second, clock.now, limiter.global.until);
    ghost var mid := clock.now;
    outcome, log, uses := RequestWithLockedBucket(limiter, bucket, script, sequence, cfg, clock);
    SendsBounded(script, sequence, cfg, bucket.custom.Some?);
    FirstUse(c, bucket.custom, g);
    OrderlyAfter(c, bucket.custom, g, uses, old(clock.now), mid, clock.now);
    UsesJoin(c, bucket.custom, g, uses);
    assert ([g] + uses)[1..] == uses;
    uses := [g] + uses;
  }
}
