/**
 The REST rate limiter: one bucket per route, a mutex and a countdown in each, one global stop for all. Times are
 nanoseconds of one clock that never goes back; header numbers are reals.
 */
module RateLimit {
  import opened Wrappers

  const MILLISECOND := 1_000_000
  const SECOND := 1000 * MILLISECOND

  /** The zero time.Time, long before any clock reading. */
  const ZERO_TIME := -62_135_596_800 * SECOND

  /** The longest time.Duration, in nanoseconds. */
  const MAX_DURATION := 0x7FFF_FFFF_FFFF_FFFF

  datatype CustomLimit = CustomLimit(suffix: string, requests: int, reset: int)

  /** The limits NewRatelimiter sets up. */
  const CUSTOM_LIMITS := [CustomLimit("//reactions//", 1, 200 * MILLISECOND)]

  datatype Counters = Counters(remaining: int, reset: int, lastReset: int)

  /** A response header holding a number: missing, unreadable, or read. */
  datatype Field<T> = Absent | Malformed | Number(value: T)

  /** The headers Release looks at; date is the parsed Date header in nanoseconds. */
  datatype Headers = Headers(
    remaining: Field<int>, reset: Field<real>, resetAfter: Field<real>, global: bool, date: Field<int>)

  datatype HeaderError = BadResetAfter | BadDate | BadReset | BadRemaining

  /** What Release does: new counters, perhaps a new global stop, perhaps an error. */
  datatype Released = Released(counters: Counters, global: Option<int>, error: Option<HeaderError>)

  predicate HasSuffix(s: string, suffix: string) {
    |suffix| <= |s| && s[|s| - |suffix|..] == suffix
  }

  /** The first custom limit whose suffix fits, as GetBucket looks it up. */
  function CustomFor(key: string, limits: seq<CustomLimit>): Option<CustomLimit> {
    if limits == [] then None
    else if HasSuffix(key, limits[0].suffix) then Some(limits[0])
    else CustomFor(key, limits[1..])
  }

  function Max(a: int, b: int): int {
    if a < b then b else a
  }

  /** Truncation toward zero. */
  function Trunc(x: real): int {
    if x >= 0.0 then x.Floor else -((-x).Floor)
  }

  /** A number of seconds in nanoseconds, kept to the millisecond as the code does. */
  function Nanos(x: real): int {
    Trunc(x) * SECOND + Trunc((x - Trunc(x) as real) * 1000.0) * MILLISECOND
  }

  /** Whole milliseconds, and less than one of them off, toward zero. */
  lemma NanosIsTruncated(x: real)
    ensures Nanos(x) % 1_000_000 == 0
    ensures x >= 0.0 ==> 0.0 <= x * 1_000_000_000.0 - Nanos(x) as real < 1_000_000.0
    ensures x <= 0.0 ==> -1_000_000.0 < x * 1_000_000_000.0 - Nanos(x) as real <= 0.0
  {
    var whole, millis := Trunc(x), Trunc((x - Trunc(x) as real) * 1000.0);
    assert Nanos(x) == (1000 * whole + millis) * 1_000_000;
  }

  /** GetWaitTime with the two clock readings it may make. */
  function WaitTime(c: Counters, minRemaining: int, global: int, first: int, second: int): int {
    if c.remaining < minRemaining && c.reset > first then c.reset - second
    else if second < global then global - second
    else 0
  }

  /** Nobody waits but for the reset of an exhausted bucket or for the global stop, and then exactly until it. */
  lemma WaitHasCause(c: Counters, minRemaining: int, global: int, first: int, second: int)
    requires first <= second && WaitTime(c, minRemaining, global, first, second) > 0
    ensures var end := second + WaitTime(c, minRemaining, global, first, second);
      (c.remaining < minRemaining && end == c.reset) || end == global
  {
  }

  /** LockBucketObject may return at this time, having read the clock twice before. */
  ghost predicate MayReturn(c: Counters, global: int, first: int, second: int, at: int) {
    first <= second <= at && at >= second + WaitTime(c, 1, global, first, second)
  }

  /** A grant to an exhausted bucket never comes before its reset time. */
  lemma GrantWaitsForReset(c: Counters, global: int, first: int, second: int, at: int)
    requires MayReturn(c, global, first, second, at) && c.remaining < 1
    ensures at >= c.reset
  {
    if c.reset > first {
      assert WaitTime(c, 1, global, first, second) == c.reset - second;
    }
  }

  /**
   The global stop is honoured by every grant exactly unless the bucket waits for a reset of its own that comes before
   the global one: in that case the code never looks at the global stop.
   */
  lemma GlobalHonouredExactlyWhen(c: Counters, global: int, first: int, second: int)
    requires first <= second
    ensures (forall at :: MayReturn(c, global, first, second, at) ==> at >= global)
      <==> !(c.remaining < 1 && c.reset > first && c.reset < global && second < global)
  {
    var at := Max(second, second + WaitTime(c, 1, global, first, second));
    assert MayReturn(c, global, first, second, at);
  }

  /** A bucket whose own reset is near lets a call through long before the global stop is over. */
  lemma GrantDuringGlobalStop()
    ensures var c, global := Counters(0, 10, ZERO_TIME), 100; MayReturn(c, global, 0, 0, 10) && 10 < global
  {
    assert WaitTime(Counters(0, 10, ZERO_TIME), 1, 100, 0, 0) == 10;
  }

  function Granted(c: Counters): Counters {
    c.(remaining := c.remaining - 1)
  }

  /** Release on a bucket with a custom limit, with the three clock readings it may make. */
  function CustomReleased(c: Counters, rl: CustomLimit, t1: int, t2: int, t3: int): Counters {
    var d := if t1 - c.lastReset >= rl.reset then c.(remaining := rl.requests - 1, lastReset := t2) else c;
    if d.remaining < 1 then d.(reset := t3 + rl.reset) else d
  }

  /** The remaining-header part of Release, after the times. */
  function RemainingRead(c: Counters, global: Option<int>, h: Headers): Released {
    match h.remaining
    case Absent => Released(c, global, None)
    case Malformed => Released(c, global, Some(BadRemaining))
    case Number(n) =>
      if -0x8000_0000 <= n < 0x8000_0000 then Released(c.(remaining := n), global, None)
      else Released(c, global, Some(BadRemaining))
  }

  /** Release on a bucket without custom limit, with the one clock reading it may make. */
  function HeadersReleased(c: Counters, h: Headers, now: int): Released {
    match h.resetAfter
    case Malformed => Released(c, None, Some(BadResetAfter))
    case Number(after) =>
      if h.global then RemainingRead(c, Some(now + Nanos(after)), h)
      else RemainingRead(c.(reset := now + Nanos(after)), None, h)
    case Absent =>
      if h.reset.Absent? then RemainingRead(c, None, h)
      else if !h.date.Number? then Released(c, None, Some(BadDate))
      else if h.reset.Malformed? then Released(c, None, Some(BadReset))
      else
        var delta := Nanos(h.reset.value) - h.date.value + 250 * MILLISECOND;
        RemainingRead(c.(reset := now + delta), None, h)
  }

  function Settled(c: Counters, custom: Option<CustomLimit>, headers: Option<Headers>, t1: int, t2: int,
                   t3: int): Released
  {
    match custom
    case Some(rl) => Released(CustomReleased(c, rl, t1, t2, t3), None, None)
    case None =>
      match headers
      case None => Released(c, None, None)
      case Some(h) => HeadersReleased(c, h, t1)
  }

  /** One use of a bucket by some goroutine: a LockBucketObject that returned, or a Release. */
  datatype Use =
    | Grant(first: int, second: int, at: int, global: int)
    | Return(headers: Option<Headers>, t1: int, t2: int, t3: int)

  function After(c: Counters, custom: Option<CustomLimit>, u: Use): Counters {
    match u
    case Grant(_, _, _, _) => Granted(c)
    case Return(h, t1, t2, t3) => Settled(c, custom, h, t1, t2, t3).counters
  }

  /** The bucket after a sequence of uses. */
  function Used(c: Counters, custom: Option<CustomLimit>, us: seq<Use>): Counters {
    if us == [] then c else After(Used(c, custom, us[..|us| - 1]), custom, us[|us| - 1])
  }

  /** Every grant of the sequence is one the bucket may make at that point, whatever the global stop then is. */
  ghost predicate Possible(c: Counters, custom: Option<CustomLimit>, us: seq<Use>) {
    us != [] ==>
      && Possible(c, custom, us[..|us| - 1])
      && match us[|us| - 1]
        case Grant(first, second, at, global) => MayReturn(Used(c, custom, us[..|us| - 1]), global, first, second, at)
        case Return(_, t1, t2, t3) => t1 <= t2 <= t3
  }

  /** A use that comes first, and the others after it. */
  lemma {:induction false} UsesJoin(c: Counters, custom: Option<CustomLimit>, u: Use, us: seq<Use>)
    ensures Used(c, custom, [u] + us) == Used(After(c, custom, u), custom, us)
    ensures Possible(c, custom, [u] + us) <==> Possible(c, custom, [u]) && Possible(After(c, custom, u), custom, us)
  {
    assert [u][..0] == [] && Used(c, custom, []) == c;
    if us == [] {
      assert [u] + us == [u];
    } else {
      UsesJoin(c, custom, u, us[..|us| - 1]);
      assert ([u] + us)[..|us|] == [u] + us[..|us| - 1];
    }
  }

  /** No release of the sequence gives calls back or moves the reset before this time. */
  ghost predicate Tame(c: Counters, custom: Option<CustomLimit>, us: seq<Use>, time: int) {
    us != [] ==>
      && Tame(c, custom, us[..|us| - 1], time)
      && var before, after := Used(c, custom, us[..|us| - 1]), Used(c, custom, us);
        us[|us| - 1].Return? ==> after.remaining <= before.remaining && after.reset >= time
  }

  function GrantsBefore(us: seq<Use>, time: int): nat {
    if us == [] then 0
    else GrantsBefore(us[..|us| - 1], time) + if us[|us| - 1].Grant? && us[|us| - 1].at < time then 1 else 0
  }

  function Grants(us: seq<Use>): nat {
    if us == [] then 0 else Grants(us[..|us| - 1]) + if us[|us| - 1].Grant? then 1 else 0
  }

  /** A bucket with r calls left and reset time T returns at most r times before T. */
  lemma {:induction false} BudgetHolds(c: Counters, custom: Option<CustomLimit>, us: seq<Use>)
    requires Possible(c, custom, us) && Tame(c, custom, us, c.reset)
    ensures GrantsBefore(us, c.reset) <= Max(0, c.remaining)
    ensures Used(c, custom, us).reset >= c.reset
    ensures Used(c, custom, us).remaining <= c.remaining - Grants(us)
    ensures GrantsBefore(us, c.reset) <= Grants(us)
  {
    if us != [] {
      var front, u := us[..|us| - 1], us[|us| - 1];
      BudgetHolds(c, custom, front);
      var b := Used(c, custom, front);
      if u.Grant? && b.remaining < 1 {
        GrantWaitsForReset(b, u.global, u.first, u.second, u.at);
      }
    }
  }

  /** The counters of a bucket nobody has used yet. */
  const FRESH := Counters(1, ZERO_TIME, ZERO_TIME)

  function Start(u: Use): int {
    if u.Grant? then u.first else u.t1
  }

  function End(u: Use): int {
    if u.Grant? then u.at else u.t3
  }

  /**
   The bucket is held by one goroutine at a time: grants and releases take turns, a grant first, and each begins after
   the end of the one before.
   */
  ghost predicate TakesTurns(us: seq<Use>) {
    us != [] ==>
      && TakesTurns(us[..|us| - 1])
      && (us[|us| - 1].Grant? <==> |us| % 2 == 1)
      && Start(us[|us| - 1]) >= if |us| == 1 then 0 else End(us[|us| - 2])
  }

  /** After a release on a bucket with a one-call custom limit, the next call is due one period later. */
  lemma {:induction false} CustomSpacing(rl: CustomLimit, us: seq<Use>)
    requires rl.requests == 1 && rl.reset <= MAX_DURATION
    requires Possible(FRESH, Some(rl), us) && TakesTurns(us)
    ensures var c := Used(FRESH, Some(rl), us);
      us != [] ==> c.remaining < 1 && (us[|us| - 1].Return? ==> c.reset == us[|us| - 1].t3 + rl.reset)
  {
    if us != [] {
      CustomSpacing(rl, us[..|us| - 1]);
    }
  }

  /** On a bucket with a one-call custom limit a later grant comes a full period after the release before it. */
  lemma CustomGrantsAreSpaced(rl: CustomLimit, us: seq<Use>, i: nat)
    requires rl.requests == 1 && rl.reset <= MAX_DURATION
    requires Possible(FRESH, Some(rl), us) && TakesTurns(us)
    requires 0 < i < |us| && us[i].Grant?
    ensures us[i - 1].Return? && us[i].at >= us[i - 1].t3 + rl.reset
  {
    PossiblePrefix(FRESH, Some(rl), us, i + 1);
    PossiblePrefix(FRESH, Some(rl), us, i);
    assert us[..i + 1][..i] == us[..i];
    CustomSpacing(rl, us[..i]);
    GrantWaitsForReset(Used(FRESH, Some(rl), us[..i]), us[i].global, us[i].first, us[i].second, us[i].at);
  }

  /** The routes with a custom limit are the ones that end in the reactions suffix: one call per 200 ms. */
  lemma OnlyReactionsAreCustom(key: string)
    ensures CustomFor(key, CUSTOM_LIMITS).Some? <==> exists route: string :: key == route + "//reactions//"
    ensures CustomFor(key, CUSTOM_LIMITS).Some? ==>
      CustomFor(key, CUSTOM_LIMITS).value == CustomLimit("//reactions//", 1, 200_000_000)
  {
    assert CUSTOM_LIMITS[0].suffix == "//reactions//" && |"//reactions//"| == 13;
    assert CustomFor(key, CUSTOM_LIMITS[1..]).None?;
    if HasSuffix(key, "//reactions//") {
      assert key == key[..|key| - 13] + "//reactions//";
    }
    if route: string :| key == route + "//reactions//" {
      assert key[|key| - 13..] == "//reactions//";
    }
  }

  /** The bucket of any route ending in the reactions suffix: at least 200 ms from a release to the next grant. */
  lemma ReactionGrantsAreSpaced(route: string, us: seq<Use>, i: nat)
    requires var custom := CustomFor(route + "//reactions//", CUSTOM_LIMITS); Possible(FRESH, custom, us)
    requires TakesTurns(us) && 0 < i < |us| && us[i].Grant?
    ensures us[i - 1].Return? && us[i].at - us[i - 1].t3 >= 200_000_000
  {
    OnlyReactionsAreCustom(route + "//reactions//");
    CustomGrantsAreSpaced(CUSTOM_LIMITS[0], us, i);
  }

  lemma {:induction false} PossiblePrefix(c: Counters, custom: Option<CustomLimit>, us: seq<Use>, n: nat)
    requires Possible(c, custom, us) && TakesTurns(us) && n <= |us|
    ensures Possible(c, custom, us[..n]) && TakesTurns(us[..n])
  {
    if n < |us| {
      PossiblePrefix(c, custom, us[..|us| - 1], n);
      assert us[..|us| - 1][..n] == us[..n];
    } else {
      assert us[..n] == us;
    }
  }

  /** Wall clock: any two readings are in order, and sleeping takes at least the time asked for. */
  class Clock {
    var now: int

    constructor (now: int)
      ensures this.now == now
    {
      this.now := now;
    }

    method Now() returns (t: int)
      modifies this
      ensures t == now >= old(now)
    {
      var later :| later >= now;
      now := later;
      return now;
    }

    method Sleep(d: int)
      modifies this
      ensures now >= old(now) && now >= old(now) + d
    {
      var later :| later >= now && later >= now + d;
      now := later;
    }
  }

  /** The global stop time, one cell that every bucket of a limiter points at. */
  class Cell {
    var until: int

    constructor ()
      ensures until == 0
    {
      until := 0;
    }
  }

  class Bucket {
    const key: string
    const custom: Option<CustomLimit>
    const global: Cell
    var locked: bool
    var remaining: int
    var reset: int
    var lastReset: int

    function State(): Counters
      reads this`remaining, this`reset, this`lastReset
    {
      Counters(remaining, reset, lastReset)
    }

    constructor (key: string, custom: Option<CustomLimit>, global: Cell)
      ensures this.key == key && this.custom == custom && this.global == global
      ensures !locked && State() == FRESH
      ensures remaining == 1 && reset == lastReset == -62_135_596_800_000_000_000
    {
      this.key, this.custom, this.global := key, custom, global;
      locked, remaining, reset, lastReset := false, 1, ZERO_TIME, ZERO_TIME;
    }

    /** Release for a bucket with a custom limit. */
    method ReleaseCustom(clock: Clock) returns (ghost t1: int, ghost t2: int, ghost t3: int)
      requires custom.Some?
      modifies this`remaining, this`reset, this`lastReset, clock
      ensures old(clock.now) <= t1 <= t2 <= t3 <= clock.now
      ensures State() == CustomReleased(old(State()), custom.value, t1, t2, t3)
      ensures if t1 - old(lastReset) >= custom.value.reset
              then remaining == custom.value.requests - 1 && lastReset == t2
              else remaining == old(remaining) && lastReset == old(lastReset)
      ensures reset == if remaining < 1 then t3 + custom.value.reset else old(reset)
    {
      var rl := custom.value;
      var now := clock.Now();
      t1, t2, t3 := now, now, now;
      if now - lastReset >= rl.reset {
        remaining := rl.requests - 1;
        lastReset := clock.Now();
        t2, t3 := lastReset, lastReset;
      }
      if remaining < 1 {
        now := clock.Now();
        t3 := now;
        reset := now + rl.reset;
      }
    }

    /** The reset-time headers; false when they end Release with an error. */
    method ReadTimes(h: Headers, clock: Clock)
      returns (error: Option<HeaderError>, ghost now: int, ghost stop: Option<int>)
      modifies this`reset, global, clock
      ensures old(clock.now) <= now <= clock.now
      ensures global.until == if stop.Some? then stop.value else old(global.until)
      ensures HeadersReleased(old(State()), h, now) ==
        if error.Some? then Released(State(), stop, error) else RemainingRead(State(), stop, h)
    {
      error, stop := None, None;
      now := clock.now;
      if !h.resetAfter.Absent? {
        if h.resetAfter.Malformed? {
          return Some(BadResetAfter), now, None;
        }
        var t := clock.Now();
        now := t;
        var resetAt := t + Nanos(h.resetAfter.value);
        if h.global {
          global.until := resetAt;
          stop := Some(resetAt);
        } else {
          reset := resetAt;
        }
      } else if !h.reset.Absent? {
        if !h.date.Number? {
          return Some(BadDate), now, None;
        }
        if h.reset.Malformed? {
          return Some(BadReset), now, None;
        }
        var delta := Nanos(h.reset.value) - h.date.value + 250 * MILLISECOND;
        var t := clock.Now();
        now := t;
        reset := t + delta;
      }
    }

    /** Release unlocks on every path and leaves what the function Release says. */
    method Release(headers: Option<Headers>, clock: Clock)
      returns (error: Option<HeaderError>, ghost t1: int, ghost t2: int, ghost t3: int)
      requires locked
      modifies this`locked, this`remaining, this`reset, this`lastReset, global, clock
      ensures !locked && old(clock.now) <= t1 <= t2 <= t3 <= clock.now
      ensures var r := Settled(old(State()), custom, headers, t1, t2, t3);
        && State() == r.counters && error == r.error
        && global.until == if r.global.Some? then r.global.value else old(global.until)
      ensures custom.None? && headers.None? ==>
        error.None? && State() == old(State()) && global.until == old(global.until)
      ensures custom.None? && headers.Some? ==>
        var h := headers.value;
        && lastReset == old(lastReset)
        && (error == Some(BadResetAfter) <==> h.resetAfter.Malformed?)
        && (error == Some(BadDate) <==> h.resetAfter.Absent? && !h.reset.Absent? && !h.date.Number?)
        && (error == Some(BadReset) <==> h.resetAfter.Absent? && h.reset.Malformed? && h.date.Number?)
        && (error == None ==> !h.remaining.Malformed?)
        && (error == Some(BadRemaining) ==>
          h.remaining.Malformed? || (h.remaining.Number? && !(-0x8000_0000 <= h.remaining.value < 0x8000_0000)))
      // Reset-After sets the bucket's reset, or with Global the global stop alone
      ensures custom.None? && headers.Some? && headers.value.resetAfter.Number? ==>
        var end := t1 + Nanos(headers.value.resetAfter.value);
        if headers.value.global then global.until == end && reset == old(reset)
        else reset == end && global.until == old(global.until)
      // Reset is told in the server's time and used without Reset-After only
      ensures custom.None? && headers.Some? && headers.value.resetAfter.Absent? ==>
        && global.until == old(global.until)
        && (headers.value.reset.Absent? ==> reset == old(reset))
        && (headers.value.reset.Number? && headers.value.date.Number? ==>
          reset == t1 + Nanos(headers.value.reset.value) - headers.value.date.value + 250_000_000)
      // an error leaves what it did not get to as it was
      ensures custom.None? && headers.Some? && error.Some? ==>
        remaining == old(remaining) && (error.value != BadRemaining ==> reset == old(reset))
      ensures custom.None? && headers.Some? && error.None? ==>
        match headers.value.remaining
        case Number(n) => remaining == n && -0x8000_0000 <= n < 0x8000_0000
        case Absent => remaining == old(remaining)
        case Malformed => false
    {
      locked := false;
      error, t1, t2, t3 := None, clock.now, clock.now, clock.now;
      if custom.Some? {
        t1, t2, t3 := ReleaseCustom(clock);
        return;
      }
      if headers.None? {
        return;
      }
      ghost var stop: Option<int>;
      error, t1, stop := ReadTimes(headers.value, clock);
      t2, t3 := t1, t1;
      if error.None? && !headers.value.remaining.Absent? {
        match headers.value.remaining
        case Number(n) =>
          if -0x8000_0000 <= n < 0x8000_0000 {
            remaining := n;
          } else {
            error := Some(BadRemaining);
          }
        case _ => error := Some(BadRemaining);
      }
    }
  }

  class RateLimiter {
    const global: Cell
    const limits: seq<CustomLimit>
    var buckets: map<string, Bucket>

    /** Every bucket sits under its own key, with the limit of its suffix and the limiter's global stop. */
    ghost predicate Valid()
      reads this
    {
      forall k <- buckets ::
        buckets[k].key == k && buckets[k].custom == CustomFor(k, limits) && buckets[k].global == global
    }

    // NewRatelimiter
    constructor ()
      ensures Valid() && buckets == map[] && limits == CUSTOM_LIMITS && fresh(global) && global.until == 0
    {
      global := new Cell();
      limits, buckets := CUSTOM_LIMITS, map[];
    }

    /** One bucket object per key for the life of the limiter. */
    method GetBucket(key: string) returns (b: Bucket)
      requires Valid()
      modifies this`buckets
      ensures Valid() && buckets == old(buckets)[key := b]
      ensures b.key == key && b.custom == CustomFor(key, limits) && b.global == global
      ensures key in old(buckets) ==> b == old(buckets)[key]
      ensures key !in old(buckets) ==> fresh(b) && b.State() == FRESH && !b.locked
    {
      if key in buckets {
        return buckets[key];
      }
      var custom := None;
      for i := 0 to |limits|
        invariant CustomFor(key, limits) == CustomFor(key, limits[i..]) && custom.None?
      {
        if HasSuffix(key, limits[i].suffix) {
          custom := Some(limits[i]);
          break;
        }
      }
      b := new Bucket(key, custom, global);
      buckets := buckets[key := b];
    }

    method GetWaitTime(b: Bucket, minRemaining: int, clock: Clock)
      returns (wait: int, ghost first: int, ghost second: int)
      modifies clock
      ensures old(clock.now) <= first <= second == clock.now
      ensures wait == WaitTime(b.State(), minRemaining, global.until, first, second)
    {
      first := clock.now;
      if b.remaining < minRemaining {
        var t := clock.Now();
        first := t;
        if b.reset > t {
          t := clock.Now();
          return b.reset - t, first, t;
        }
      }
      var sleepTo := global.until;
      var now := clock.Now();
      return if now < sleepTo then sleepTo - now else 0, first, now;
    }

    /** LockBucketObject: the caller holds the bucket, one call is spent, and the time is one the rules allow. */
    method LockBucketObject(b: Bucket, clock: Clock) returns (ghost first: int, ghost second: int)
      requires !b.locked
      modifies b`locked, b`remaining, clock
      ensures b.locked && b.State() == Granted(old(b.State()))
      ensures old(clock.now) <= first && MayReturn(old(b.State()), global.until, first, second, clock.now)
    {
      b.locked := true;
      var wait;
      wait, first, second := GetWaitTime(b, 1, clock);
      if wait > 0 {
        clock.Sleep(wait);
      }
      b.remaining := b.remaining - 1;
    }
  }
}
