/** Failure wrappers and the Go notions of a possibly nil slice. */
module Wrappers {
  datatype Option<T> = None | Some(value: T)

  /** A Go slice used as a list: nil is distinguished from empty, as GuildAdd and the JSON codec do. */
  datatype Slice<T> = NilSlice | Slice(elems: seq<T>) {
    function Items(): seq<T> {
      if NilSlice? then [] else elems
    }

    /** Go's append(s, x). */
    function Append(x: T): Slice<T> {
      Slice(Items() + [x])
    }

    /** The value if it is not nil, else the fallback. */
    function Or(fallback: Slice<T>): Slice<T> {
      if NilSlice? then fallback else this
    }
  }

  ghost predicate Distinct<T>(s: seq<T>) {
    forall i, j :: 0 <= i < j < |s| ==> s[i] != s[j]
  }

  /** Go's append(s[:i], s[i+1:]...). */
  function Without<T>(s: seq<T>, i: nat): (r: seq<T>)
    requires i < |s|
    ensures |r| == |s| - 1
  {
    s[..i] + s[i + 1..]
  }

  /** What a Go loop leaves that deletes the first element satisfying p and stops. */
  function RemoveFirst<T>(s: seq<T>, p: T -> bool): seq<T> {
    if s == [] then [] else if p(s[0]) then s[1..] else [s[0]] + RemoveFirst(s[1..], p)
  }

  lemma {:induction false} RemoveFirstAt<T>(s: seq<T>, p: T -> bool, i: nat)
    requires i < |s| && p(s[i]) && forall k :: 0 <= k < i ==> !p(s[k])
    ensures RemoveFirst(s, p) == Without(s, i)
  {
    if i > 0 {
      RemoveFirstAt(s[1..], p, i - 1);
    }
  }

  lemma {:induction false} RemoveFirstNone<T>(s: seq<T>, p: T -> bool)
    requires forall x <- s :: !p(x)
    ensures RemoveFirst(s, p) == s
  {
    if s != [] {
      RemoveFirstNone(s[1..], p);
    }
  }

  /** Among distinct elements of which at most one satisfies p, exactly that one goes. */
  lemma {:induction false} RemoveFirstDistinct<T>(s: seq<T>, p: T -> bool)
    requires Distinct(s) && forall x, y :: x in s && y in s && p(x) && p(y) ==> x == y
    ensures Distinct(RemoveFirst(s, p))
    ensures forall x <- RemoveFirst(s, p) :: x in s && !p(x)
    ensures forall x <- s :: !p(x) ==> x in RemoveFirst(s, p)
  {
    if s != [] {
      assert forall x :: x in s <==> x == s[0] || x in s[1..];
      RemoveFirstDistinct(s[1..], p);
    }
  }

  /** Storing a kept element at the write index of an in-place compaction. */
  lemma CompactStep<T>(kept: seq<T>, s: seq<T>, x: T)
    requires |kept| < |s|
    ensures (kept + s[|kept|..])[|kept| := x] == kept + [x] + s[|kept| + 1..]
  {
  }

  /** The loop itself: scan, delete the first match from the slice, stop. */
  method DeleteFirst<T>(s: seq<T>, p: T -> bool) returns (r: seq<T>, found: bool)
    ensures r == RemoveFirst(s, p)
    ensures found <==> exists x <- s :: p(x)
  {
    for i := 0 to |s|
      invariant forall k :: 0 <= k < i ==> !p(s[k])
    {
      if p(s[i]) {
        RemoveFirstAt(s, p, i);
        return Without(s, i), true;
      }
    }
    RemoveFirstNone(s, p);
    return s, false;
  }
}
