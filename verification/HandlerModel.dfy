/**
 Event handler registration and dispatch as values. A handler instance is identified by the step that registered it, so
 a run of steps says by itself which handlers ought to fire.
 */
module HandlerModel {
  import opened Wrappers

  const INTERFACE := "__INTERFACE__"

  datatype Step = Add(t: string) | AddOnce(t: string) | Remove(id: nat) | Fire(t: string)

  /** The two handler maps, and the event type each removal function remembers. */
  datatype Registry = Registry(
    handlers: map<string, seq<nat>>,
    onceHandlers: map<string, seq<nat>>,
    types: map<nat, string>)

  const EMPTY := Registry(map[], map[], map[])

  function At(m: map<string, seq<nat>>, t: string): seq<nat> {
    if t in m then m[t] else []
  }

  function Append(m: map<string, seq<nat>>, t: string, id: nat): map<string, seq<nat>> {
    m[t := At(m, t) + [id]]
  }

  function Minus(s: seq<nat>, id: nat): seq<nat> {
    if s == [] then []
    else if s[|s| - 1] == id then Minus(s[..|s| - 1], id)
    else Minus(s[..|s| - 1], id) + [s[|s| - 1]]
  }

  /** One half of removeEventHandlerInstance. */
  function Dropped(m: map<string, seq<nat>>, t: string, id: nat): map<string, seq<nat>> {
    if id in At(m, t) then m[t := Minus(At(m, t), id)] else m
  }

  /** handle: whom it calls, in order. */
  function Called(r: Registry, t: string): seq<nat> {
    At(r.handlers, t) + At(r.onceHandlers, t)
  }

  function Handled(r: Registry, t: string): Registry {
    if At(r.onceHandlers, t) != [] then r.(onceHandlers := r.onceHandlers[t := []]) else r
  }

  /** handleEvent: the interface handlers, then the handlers of the type. */
  function Fired(r: Registry, t: string): seq<nat> {
    Called(r, INTERFACE) + Called(Handled(r, INTERFACE), t)
  }

  /** The registry after the step with this number. */
  function Apply(r: Registry, n: nat, x: Step): Registry {
    match x
    case Add(t) => r.(handlers := Append(r.handlers, t, n), types := r.types[n := t])
    case AddOnce(t) => r.(onceHandlers := Append(r.onceHandlers, t, n), types := r.types[n := t])
    case Remove(id) =>
      if id !in r.types then r
      else
        var t := r.types[id];
        r.(handlers := Dropped(r.handlers, t, id), onceHandlers := Dropped(r.onceHandlers, t, id))
    case Fire(t) => Handled(Handled(r, INTERFACE), t)
  }

  function Run(xs: seq<Step>): Registry {
    if xs == [] then EMPTY else Apply(Run(xs[..|xs| - 1]), |xs| - 1, xs[|xs| - 1])
  }

  /** Step p registered a permanent handler for t and nobody has removed it since. */
  ghost predicate Live(xs: seq<Step>, t: string, p: nat) {
    p < |xs| && xs[p] == Add(t) && forall q :: p < q < |xs| ==> xs[q] != Remove(p)
  }

  /** An event that runs the handlers of t. */
  predicate Runs(x: Step, t: string) {
    x.Fire? && (t == INTERFACE || x.t == t)
  }

  /** Step p registered a once-handler for t, and it was neither removed nor due since. */
  ghost predicate Pending(xs: seq<Step>, t: string, p: nat) {
    p < |xs| && xs[p] == AddOnce(t) && forall q :: p < q < |xs| ==> xs[q] != Remove(p) && !Runs(xs[q], t)
  }

  /** The live handlers of t among the first n registrations, oldest first. */
  ghost function LiveUpTo(xs: seq<Step>, t: string, n: nat): seq<nat> {
    if n == 0 then []
    else if Live(xs, t, n - 1) then LiveUpTo(xs, t, n - 1) + [n - 1]
    else LiveUpTo(xs, t, n - 1)
  }

  ghost function PendingUpTo(xs: seq<Step>, t: string, n: nat): seq<nat> {
    if n == 0 then []
    else if Pending(xs, t, n - 1) then PendingUpTo(xs, t, n - 1) + [n - 1]
    else PendingUpTo(xs, t, n - 1)
  }

  ghost function AllLive(xs: seq<Step>, t: string): seq<nat> {
    LiveUpTo(xs, t, |xs|)
  }

  ghost function AllPending(xs: seq<Step>, t: string): seq<nat> {
    PendingUpTo(xs, t, |xs|)
  }

  lemma {:induction false} LiveMembers(xs: seq<Step>, t: string, n: nat)
    ensures forall p: nat :: p in LiveUpTo(xs, t, n) <==> p < n && Live(xs, t, p)
    ensures forall i, j :: 0 <= i < j < |LiveUpTo(xs, t, n)| ==> LiveUpTo(xs, t, n)[i] < LiveUpTo(xs, t, n)[j]
  {
    if n > 0 {
      LiveMembers(xs, t, n - 1);
      var s := LiveUpTo(xs, t, n - 1);
      assert forall i :: 0 <= i < |s| ==> s[i] in s;
    }
  }

  lemma {:induction false} PendingMembers(xs: seq<Step>, t: string, n: nat)
    ensures forall p: nat :: p in PendingUpTo(xs, t, n) <==> p < n && Pending(xs, t, p)
    ensures forall i, j :: 0 <= i < j < |PendingUpTo(xs, t, n)| ==> PendingUpTo(xs, t, n)[i] < PendingUpTo(xs, t, n)[j]
  {
    if n > 0 {
      PendingMembers(xs, t, n - 1);
      var s := PendingUpTo(xs, t, n - 1);
      assert forall i :: 0 <= i < |s| ==> s[i] in s;
    }
  }

  lemma LiveNext(xs: seq<Step>, x: Step, t: string, p: nat)
    requires p < |xs|
    ensures Live(xs + [x], t, p) <==> Live(xs, t, p) && x != Remove(p)
  {
    var ys := xs + [x];
    assert ys[|xs|] == x && forall q :: 0 <= q < |xs| ==> ys[q] == xs[q];
    if Live(xs, t, p) && x != Remove(p) {
      forall q | p < q < |ys|
        ensures ys[q] != Remove(p)
      {
        assert q < |xs| || q == |xs|;
      }
    }
    if Live(ys, t, p) {
      forall q | p < q < |xs|
        ensures xs[q] != Remove(p)
      {
        assert ys[q] == xs[q];
      }
    }
  }

  lemma PendingNext(xs: seq<Step>, x: Step, t: string, p: nat)
    requires p < |xs|
    ensures Pending(xs + [x], t, p) <==> Pending(xs, t, p) && x != Remove(p) && !Runs(x, t)
  {
    var ys := xs + [x];
    assert ys[|xs|] == x && forall q :: 0 <= q < |xs| ==> ys[q] == xs[q];
    if Pending(xs, t, p) && x != Remove(p) && !Runs(x, t) {
      forall q | p < q < |ys|
        ensures ys[q] != Remove(p) && !Runs(ys[q], t)
      {
        assert q < |xs| || q == |xs|;
      }
    }
    if Pending(ys, t, p) {
      forall q | p < q < |xs|
        ensures xs[q] != Remove(p) && !Runs(xs[q], t)
      {
        assert ys[q] == xs[q];
      }
    }
  }

  /** One more step: the live handlers lose the one it removes. */
  lemma {:induction false} LiveUpToNext(xs: seq<Step>, x: Step, t: string, n: nat)
    requires n <= |xs|
    ensures LiveUpTo(xs + [x], t, n) == if x.Remove? then Minus(LiveUpTo(xs, t, n), x.id) else LiveUpTo(xs, t, n)
  {
    hide Live;
    if n > 0 {
      LiveUpToNext(xs, x, t, n - 1);
      LiveNext(xs, x, t, n - 1);
      if x.Remove? {
        MinusLast(LiveUpTo(xs, t, n - 1), n - 1, x.id);
      }
    }
  }

  /** The pending once-handlers lose the one it removes, or all of them to an event. */
  lemma {:induction false} PendingUpToNext(xs: seq<Step>, x: Step, t: string, n: nat)
    requires n <= |xs|
    ensures PendingUpTo(xs + [x], t, n) ==
      if Runs(x, t) then [] else if x.Remove? then Minus(PendingUpTo(xs, t, n), x.id) else PendingUpTo(xs, t, n)
  {
    hide Pending;
    if n > 0 {
      PendingUpToNext(xs, x, t, n - 1);
      PendingNext(xs, x, t, n - 1);
      if x.Remove? {
        MinusLast(PendingUpTo(xs, t, n - 1), n - 1, x.id);
      }
    }
  }

  lemma MinusLast(s: seq<nat>, last: nat, id: nat)
    ensures Minus(s + [last], id) == if last == id then Minus(s, id) else Minus(s, id) + [last]
  {
    assert (s + [last])[..|s|] == s;
  }

  lemma {:induction false} MinusAbsent(s: seq<nat>, id: nat)
    requires id !in s
    ensures Minus(s, id) == s
  {
    if s != [] {
      MinusAbsent(s[..|s| - 1], id);
    }
  }

  /** What the removal functions remember: the type of every registration. */
  ghost predicate Remembers(xs: seq<Step>, r: Registry) {
    forall p: nat :: p in r.types <==> p < |xs| && (xs[p].Add? || xs[p].AddOnce?)
  }

  ghost predicate Typed(xs: seq<Step>, r: Registry) {
    forall p <- r.types :: p < |xs| && (xs[p] == Add(r.types[p]) || xs[p] == AddOnce(r.types[p]))
  }

  lemma TypesAfter(r: Registry, n: nat, x: Step)
    ensures Apply(r, n, x).types == if x.Add? || x.AddOnce? then r.types[n := x.t] else r.types
  {
  }

  lemma {:induction false} RunRemembers(xs: seq<Step>)
    ensures Remembers(xs, Run(xs)) && Typed(xs, Run(xs))
  {
    hide Apply;
    if xs != [] {
      var front, x := xs[..|xs| - 1], xs[|xs| - 1];
      RunRemembers(front);
      TypesAfter(Run(front), |front|, x);
      assert xs == front + [x];
    }
  }

  /** One more step that removes nothing: only a registration for t changes the permanent handlers of t. */
  lemma HandlersAfter(r: Registry, n: nat, x: Step, t: string)
    requires !x.Remove?
    ensures At(Apply(r, n, x).handlers, t) == if x == Add(t) then At(r.handlers, t) + [n] else At(r.handlers, t)
    ensures At(Apply(r, n, x).onceHandlers, t) ==
      if x == AddOnce(t) then At(r.onceHandlers, t) + [n] else if Runs(x, t) then [] else At(r.onceHandlers, t)
  {
  }

  lemma LiveLast(xs: seq<Step>, x: Step, t: string)
    ensures Live(xs + [x], t, |xs|) <==> x == Add(t)
    ensures Pending(xs + [x], t, |xs|) <==> x == AddOnce(t)
  {
  }

  /** The permanent handlers of every type are exactly the live ones, in order of registration. */
  lemma {:induction false} HandlersAreLive(xs: seq<Step>, t: string)
    ensures At(Run(xs).handlers, t) == AllLive(xs, t)
  {
    hide Apply, Live, Minus;
    if xs != [] {
      var front, x := xs[..|xs| - 1], xs[|xs| - 1];
      assert xs == front + [x];
      HandlersAreLive(front, t);
      LiveUpToNext(front, x, t, |front|);
      LiveLast(front, x, t);
      if x.Remove? {
        HandlersAfterRemove(front, x.id, t);
      } else {
        HandlersAfter(Run(front), |front|, x, t);
      }
    }
  }

  lemma DroppedAt(m: map<string, seq<nat>>, type0: string, id: nat, t: string)
    requires id in At(m, t) ==> t == type0
    ensures At(Dropped(m, type0, id), t) == Minus(At(m, t), id)
  {
    if id !in At(m, t) {
      MinusAbsent(At(m, t), id);
    }
  }

  lemma HandlersAfterRemove(xs: seq<Step>, id: nat, t: string)
    requires At(Run(xs).handlers, t) == AllLive(xs, t)
    ensures At(Apply(Run(xs), |xs|, Remove(id)).handlers, t) == Minus(AllLive(xs, t), id)
  {
    hide Minus, Dropped, Run, LiveUpTo;
    RunRemembers(xs);
    LiveMembers(xs, t, |xs|);
    if id in Run(xs).types {
      DroppedAt(Run(xs).handlers, Run(xs).types[id], id, t);
    } else {
      MinusAbsent(AllLive(xs, t), id);
    }
  }

  /** The once-handlers of every type are exactly the pending ones, in order of registration. */
  lemma {:induction false} OnceHandlersArePending(xs: seq<Step>, t: string)
    ensures At(Run(xs).onceHandlers, t) == AllPending(xs, t)
  {
    hide Apply, Pending, Minus, Runs;
    if xs != [] {
      var front, x := xs[..|xs| - 1], xs[|xs| - 1];
      assert xs == front + [x];
      OnceHandlersArePending(front, t);
      PendingUpToNext(front, x, t, |front|);
      LiveLast(front, x, t);
      if x.Remove? {
        OnceHandlersAfterRemove(front, x.id, t);
        RemovalsRunNothing(x, t);
      } else {
        HandlersAfter(Run(front), |front|, x, t);
        RegistrationsRunNothing(x, t);
      }
    }
  }

  lemma RemovalsRunNothing(x: Step, t: string)
    requires x.Remove?
    ensures !Runs(x, t)
  {
  }

  lemma RegistrationsRunNothing(x: Step, t: string)
    ensures x == AddOnce(t) ==> !Runs(x, t)
  {
  }

  lemma OnceHandlersAfterRemove(xs: seq<Step>, id: nat, t: string)
    requires At(Run(xs).onceHandlers, t) == AllPending(xs, t)
    ensures At(Apply(Run(xs), |xs|, Remove(id)).onceHandlers, t) == Minus(AllPending(xs, t), id)
  {
    hide Minus, Dropped, Run, PendingUpTo;
    RunRemembers(xs);
    PendingMembers(xs, t, |xs|);
    if id in Run(xs).types {
      DroppedAt(Run(xs).onceHandlers, Run(xs).types[id], id, t);
    } else {
      MinusAbsent(AllPending(xs, t), id);
    }
  }

  /** Whom the event at step k calls. */
  function FiredAt(xs: seq<Step>, k: nat): seq<nat>
    requires k < |xs| && xs[k].Fire?
  {
    Fired(Run(xs[..k]), xs[k].t)
  }

  lemma FiredParts(r: Registry, t: string)
    requires t != INTERFACE
    ensures Fired(r, t) ==
      At(r.handlers, INTERFACE) + At(r.onceHandlers, INTERFACE) + At(r.handlers, t) + At(r.onceHandlers, t)
  {
  }

  /** Every event calls the live interface handlers, the pending ones, then the same for its own type. */
  lemma EventCallsInOrder(xs: seq<Step>, k: nat)
    requires k < |xs| && xs[k].Fire? && xs[k].t != INTERFACE
    ensures FiredAt(xs, k) ==
      AllLive(xs[..k], INTERFACE) + AllPending(xs[..k], INTERFACE) +
      AllLive(xs[..k], xs[k].t) + AllPending(xs[..k], xs[k].t)
  {
    hide Run, AllLive, AllPending, Fired;
    FiredParts(Run(xs[..k]), xs[k].t);
    HandlersAreLive(xs[..k], INTERFACE);
    OnceHandlersArePending(xs[..k], INTERFACE);
    HandlersAreLive(xs[..k], xs[k].t);
    OnceHandlersArePending(xs[..k], xs[k].t);
  }

  lemma {:induction false} IncreasingCount(s: seq<nat>, p: nat)
    requires forall i, j :: 0 <= i < j < |s| ==> s[i] < s[j]
    ensures multiset(s)[p] == if p in s then 1 else 0
  {
    if s != [] {
      IncreasingCount(s[1..], p);
      assert s == [s[0]] + s[1..];
    }
  }

  lemma LiveCount(xs: seq<Step>, t: string, p: nat)
    ensures multiset(AllLive(xs, t))[p] == if Live(xs, t, p) then 1 else 0
  {
    LiveMembers(xs, t, |xs|);
    IncreasingCount(AllLive(xs, t), p);
  }

  lemma PendingCount(xs: seq<Step>, t: string, p: nat)
    ensures multiset(AllPending(xs, t))[p] == if Pending(xs, t, p) then 1 else 0
  {
    PendingMembers(xs, t, |xs|);
    IncreasingCount(AllPending(xs, t), p);
  }

  /** How often the event at step k calls the handler registered at step p. */
  lemma CallCount(xs: seq<Step>, k: nat, p: nat)
    requires k < |xs| && xs[k].Fire? && xs[k].t != INTERFACE
    ensures multiset(FiredAt(xs, k))[p] ==
      (if Live(xs[..k], INTERFACE, p) then 1 else 0) + (if Pending(xs[..k], INTERFACE, p) then 1 else 0) +
      (if Live(xs[..k], xs[k].t, p) then 1 else 0) + (if Pending(xs[..k], xs[k].t, p) then 1 else 0)
  {
    hide AllLive, AllPending, Live, Pending, FiredAt;
    EventCallsInOrder(xs, k);
    LiveCount(xs[..k], INTERFACE, p);
    PendingCount(xs[..k], INTERFACE, p);
    LiveCount(xs[..k], xs[k].t, p);
    PendingCount(xs[..k], xs[k].t, p);
  }

  /** A permanent handler is called once by each event it matches between its registration and its removal. */
  lemma PermanentFiresOncePerEvent(xs: seq<Step>, k: nat, p: nat)
    requires k < |xs| && xs[k].Fire? && xs[k].t != INTERFACE && p < k && xs[p].Add?
    ensures multiset(FiredAt(xs, k))[p] ==
      if Runs(xs[k], xs[p].t) && (forall q :: p < q < k ==> xs[q] != Remove(p)) then 1 else 0
  {
    CallCount(xs, k, p);
    LivePrefix(xs, k, xs[p].t, p);
    assert xs[..k][p] == xs[p];
  }

  lemma LivePrefix(xs: seq<Step>, k: nat, t: string, p: nat)
    requires p < k <= |xs|
    ensures Live(xs[..k], t, p) <==> xs[p] == Add(t) && forall q :: p < q < k ==> xs[q] != Remove(p)
    ensures Pending(xs[..k], t, p) <==>
      xs[p] == AddOnce(t) && forall q :: p < q < k ==> xs[q] != Remove(p) && !Runs(xs[q], t)
  {
    assert forall q :: 0 <= q < k ==> xs[..k][q] == xs[q];
  }

  /** A once-handler is called by the first event it matches, unless it was removed before, and by no other. */
  lemma OnceFiresFirstTimeOnly(xs: seq<Step>, k: nat, p: nat)
    requires k < |xs| && xs[k].Fire? && xs[k].t != INTERFACE && p < k && xs[p].AddOnce?
    ensures multiset(FiredAt(xs, k))[p] ==
      if Runs(xs[k], xs[p].t) && (forall q :: p < q < k ==> xs[q] != Remove(p) && !Runs(xs[q], xs[p].t)) then 1 else 0
  {
    CallCount(xs, k, p);
    LivePrefix(xs, k, xs[p].t, p);
    assert xs[..k][p] == xs[p];
  }

  /** Over a whole run no once-handler is called by two events. */
  lemma OnceFiresOnceInARun(xs: seq<Step>, j: nat, k: nat, p: nat)
    requires j < k < |xs| && xs[j].Fire? && xs[k].Fire? && xs[j].t != INTERFACE && xs[k].t != INTERFACE
    requires p < j && xs[p].AddOnce?
    ensures multiset(FiredAt(xs, j))[p] + multiset(FiredAt(xs, k))[p] <= 1
  {
    OnceFiresFirstTimeOnly(xs, j, p);
    OnceFiresFirstTimeOnly(xs, k, p);
  }

  /** Nothing that was not registered before the event is called by it. */
  lemma OnlyRegisteredFire(xs: seq<Step>, k: nat, p: nat)
    requires k < |xs| && xs[k].Fire? && xs[k].t != INTERFACE
    requires p >= k || xs[p].Remove? || xs[p].Fire?
    ensures p !in FiredAt(xs, k)
  {
    CallCount(xs, k, p);
    assert p < k ==> xs[..k][p] == xs[p];
  }
}
