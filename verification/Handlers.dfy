/** The handler lists of a session: instances appended, cut out of a slice in place, called and cleared. */
module Handlers {
  import opened Wrappers
  import opened HandlerModel

  /** eventHandlerInstance: a pointer, so that handlers can be told apart. */
  class Instance {
    const eventType: string
    ghost const id: nat

    constructor (eventType: string, ghost id: nat)
      ensures this.eventType == eventType && this.id == id
    {
      this.eventType, this.id := eventType, id;
    }
  }

  ghost function IDs(s: seq<Instance>): seq<nat> {
    seq(|s|, i requires 0 <= i < |s| => s[i].id)
  }

  /** What is left of a slice when element k is cut out: the rest moves up and the last element stays twice. */
  ghost predicate Cut(now: seq<Instance>, was: seq<Instance>, k: nat) {
    && |now| == |was| && k < |was|
    && forall j :: 0 <= j < |was| ==> now[j] == was[if j < k || j == |was| - 1 then j else j + 1]
  }

  /** append(list[:k], list[k+1:]...) on one array. */
  method ShiftLeft(list: array<Instance>, k: nat)
    requires k < list.Length
    modifies list
    ensures Cut(list[..], old(list[..]), k)
  {
    for j := k to list.Length - 1
      invariant forall m :: 0 <= m < list.Length ==> list[m] == old(list[..])[if k <= m < j then m + 1 else m]
    {
      list[j] := list[j + 1];
    }
  }

  /**
   The loop of removeEventHandlerInstance. It goes on over the whole slice after it has cut an element out of the array
   under it; it still removes nothing but h, and the array keeps a second copy of the last element past the new end.
   */
  method RemoveInPlace(list: array<Instance>, h: Instance) returns (kept: nat, ghost at: int)
    requires Distinct(list[..])
    modifies list
    ensures -1 <= at < list.Length && (at == -1 <==> h !in old(list[..]))
    ensures at == -1 ==> kept == list.Length && list[..] == old(list[..])
    ensures at >= 0 ==> old(list[..])[at] == h && kept == list.Length - 1
    ensures at >= 0 ==> list[..kept] == Without(old(list[..]), at) && list[kept] == old(list[..])[kept]
  {
    ghost var was := list[..];
    kept, at := list.Length, -1;
    for i := 0 to list.Length
      invariant -1 <= at < i
      invariant at == -1 ==> kept == list.Length && list[..] == was && h !in was[..i]
      invariant at >= 0 ==> was[at] == h && kept == list.Length - 1 && Cut(list[..], was, at)
    {
      if list[i] == h {
        assert at == -1;
        ShiftLeft(list, i);
        kept, at := list.Length - 1, i;
      }
    }
  }

  function ListAt(m: map<string, seq<Instance>>, t: string): seq<Instance> {
    if t in m then m[t] else []
  }

  ghost function IDMap(m: map<string, seq<Instance>>): map<string, seq<nat>> {
    map t | t in m :: IDs(m[t])
  }

  lemma AppendIDs(m: map<string, seq<Instance>>, t: string, h: Instance)
    ensures IDMap(m[t := ListAt(m, t) + [h]]) == Append(IDMap(m), t, h.id)
  {
    assert IDs(ListAt(m, t) + [h]) == At(IDMap(m), t) + [h.id];
  }

  lemma {:induction false} MinusAt(s: seq<nat>, i: nat)
    requires i < |s| && forall j :: 0 <= j < |s| && j != i ==> s[j] != s[i]
    ensures Minus(s, s[i]) == Without(s, i)
  {
    if i == |s| - 1 {
      MinusAbsent(s[..i], s[i]);
    } else {
      MinusAt(s[..|s| - 1], i);
      assert Without(s, i) == Without(s[..|s| - 1], i) + [s[|s| - 1]];
    }
  }

  /** Cutting an instance out of its list takes its ID out of the list of IDs. */
  lemma DropIDs(m: map<string, seq<Instance>>, t: string, h: Instance, i: nat)
    requires t in m && i < |m[t]| && m[t][i] == h
    requires forall x, y :: x in m[t] && y in m[t] && x.id == y.id ==> x == y
    requires Distinct(m[t])
    ensures IDMap(m[t := Without(m[t], i)]) == Dropped(IDMap(m), t, h.id)
  {
    var ids := IDs(m[t]);
    assert ids[i] == h.id && h.id in ids;
    forall j | 0 <= j < |ids| && j != i
      ensures ids[j] != ids[i]
    {
      assert m[t][j] in m[t] && m[t][i] in m[t] && m[t][i] != m[t][j];
    }
    MinusAt(ids, i);
    assert IDs(Without(m[t], i)) == Without(ids, i);
  }

  class Registry {
    var handlers: map<string, seq<Instance>>
    var onceHandlers: map<string, seq<Instance>>

    /** How many steps there were, and the instance of each registration. */
    ghost var steps: nat
    ghost var instances: map<nat, Instance>

    ghost function Types(): map<nat, string>
      reads this`instances
    {
      map p | p in instances :: instances[p].eventType
    }

    ghost function Snapshot(): HandlerModel.Registry
      reads this`handlers, this`onceHandlers, this`instances
    {
      HandlerModel.Registry(IDMap(handlers), IDMap(onceHandlers), Types())
    }

    ghost predicate Filed(m: map<string, seq<Instance>>)
      reads this`instances
    {
      forall t <- m ::
        Distinct(m[t]) && forall h <- m[t] :: h.id in instances && instances[h.id] == h && h.eventType == t
    }

    ghost predicate Valid()
      reads this
    {
      && Filed(handlers) && Filed(onceHandlers)
      && (forall p <- instances :: p < steps && instances[p].id == p)
    }

    constructor ()
      ensures Valid() && Snapshot() == EMPTY && steps == 0
    {
      handlers, onceHandlers, steps, instances := map[], map[], 0, map[];
    }

    method Enroll(t: string) returns (h: Instance)
      requires Valid()
      modifies this`steps, this`instances
      ensures Valid() && h.id == old(steps) && h.eventType == t && steps == old(steps) + 1
      ensures fresh(h) && instances == old(instances)[h.id := h] && Types() == old(Types())[h.id := t]
    {
      h := new Instance(t, steps);
      steps, instances := steps + 1, instances[steps := h];
    }

    lemma FiledAppend(m: map<string, seq<Instance>>, h: Instance)
      requires Filed(m) && h.id in instances && instances[h.id] == h && forall t <- m :: h !in m[t]
      ensures Filed(m[h.eventType := ListAt(m, h.eventType) + [h]])
    {
    }

    method AddEventHandler(t: string) returns (h: Instance)
      requires Valid()
      modifies this
      ensures Valid() && fresh(h) && h.id == old(steps) && h.eventType == t && steps == old(steps) + 1
      ensures Snapshot() == Apply(old(Snapshot()), old(steps), Add(t)) && instances == old(instances)[h.id := h]
    {
      h := Enroll(t);
      AppendIDs(handlers, t, h);
      FiledAppend(handlers, h);
      handlers := handlers[t := ListAt(handlers, t) + [h]];
    }

    method AddEventHandlerOnce(t: string) returns (h: Instance)
      requires Valid()
      modifies this
      ensures Valid() && fresh(h) && h.id == old(steps) && h.eventType == t && steps == old(steps) + 1
      ensures Snapshot() == Apply(old(Snapshot()), old(steps), AddOnce(t)) && instances == old(instances)[h.id := h]
    {
      h := Enroll(t);
      AppendIDs(onceHandlers, t, h);
      FiledAppend(onceHandlers, h);
      onceHandlers := onceHandlers[t := ListAt(onceHandlers, t) + [h]];
    }

    lemma FiledWithout(m: map<string, seq<Instance>>, t: string, i: nat)
      requires Filed(m) && t in m && i < |m[t]|
      ensures Filed(m[t := Without(m[t], i)])
      ensures forall x, y :: x in m[t] && y in m[t] && x.id == y.id ==> x == y
    {
      var r := Without(m[t], i);
      assert forall j :: 0 <= j < |r| ==> r[j] == m[t][if j < i then j else j + 1];
    }

    lemma NotFiledElsewhere(m: map<string, seq<Instance>>, h: Instance)
      requires Filed(m) && h.id in instances && instances[h.id] == h && h !in ListAt(m, h.eventType)
      ensures Dropped(IDMap(m), h.eventType, h.id) == IDMap(m)
    {
      assert h.id !in IDs(ListAt(m, h.eventType));
    }

    /** One of the two loops of removeEventHandlerInstance. */
    method TakeOut(m: map<string, seq<Instance>>, h: Instance) returns (r: map<string, seq<Instance>>)
      requires Filed(m) && h.id in instances && instances[h.id] == h
      ensures Filed(r) && IDMap(r) == Dropped(IDMap(m), h.eventType, h.id)
    {
      var t := h.eventType;
      var list := ListAt(m, t);
      assert Distinct(list);
      hide Filed, IDMap, Dropped, Distinct;
      var backing := new Instance[|list|](i requires 0 <= i < |list| => list[i]);
      assert backing[..] == list;
      var kept, at := RemoveInPlace(backing, h);
      if kept < |list| {
        FiledWithout(m, t, at);
        DropIDs(m, t, h, at);
        r := m[t := backing[..kept]];
      } else {
        NotFiledElsewhere(m, h);
        r := m;
      }
    }

    /** The function that registration returned: it takes out this instance and no other. */
    method RemoveEventHandlerInstance(h: Instance)
      requires Valid() && h.id in instances && instances[h.id] == h
      modifies this`handlers, this`onceHandlers, this`steps
      ensures Valid() && Snapshot() == Apply(old(Snapshot()), old(steps), Remove(h.id)) && steps == old(steps) + 1
    {
      handlers := TakeOut(handlers, h);
      onceHandlers := TakeOut(onceHandlers, h);
      steps := steps + 1;
    }

    /** handle: call the permanent handlers of t, then the once-handlers, which are then forgotten. */
    method Handle(t: string) returns (called: seq<Instance>)
      requires Filed(handlers) && Filed(onceHandlers)
      modifies this`onceHandlers
      ensures Filed(onceHandlers) && Snapshot() == Handled(old(Snapshot()), t)
      ensures IDs(called) == Called(old(Snapshot()), t)
    {
      called := [];
      var permanent := ListAt(handlers, t);
      for i := 0 to |permanent|
        invariant called == permanent[..i]
      {
        called := called + [permanent[i]];
      }
      var once := ListAt(onceHandlers, t);
      if |once| > 0 {
        for i := 0 to |once|
          invariant called == permanent + once[..i]
        {
          called := called + [once[i]];
        }
        onceHandlers := onceHandlers[t := []];
        assert IDs([]) == [];
      }
      assert called == permanent + once;
    }

    /** handleEvent, after the state has been told. */
    method HandleEvent(t: string) returns (called: seq<Instance>)
      requires Valid()
      modifies this`onceHandlers, this`steps
      ensures Valid() && Snapshot() == Apply(old(Snapshot()), old(steps), Fire(t)) && steps == old(steps) + 1
      ensures IDs(called) == Fired(old(Snapshot()), t)
    {
      hide Filed, Called, Handled;
      var first := Handle(INTERFACE);
      var second := Handle(t);
      called := first + second;
      steps := steps + 1;
      assert IDs(called) == IDs(first) + IDs(second);
    }
  }
}
