/** Optional values, and the sequence operations every other module shares. */
module Wrappers {
  datatype Option<+T> = None | Some(value: T)

  datatype Result<+T, +E> = Ok(value: T) | Err(error: E)

  /** `Array.prototype.filter`. */
  function Filter<T>(xs: seq<T>, keep: T -> bool): seq<T> {
    if xs == [] then []
    else if keep(xs[0]) then [xs[0]] + Filter(xs[1..], keep)
    else Filter(xs[1..], keep)
  }

  /** `Array.prototype.map`. */
  function Map<T, U>(xs: seq<T>, f: T -> U): (r: seq<U>)
    ensures |r| == |xs| && forall i | 0 <= i < |xs| :: r[i] == f(xs[i])
  {
    seq(|xs|, i requires 0 <= i < |xs| => f(xs[i]))
  }

  /** The position of the first match, or the length when there is none. */
  function FirstIndex<T>(xs: seq<T>, p: T -> bool): (i: nat)
    ensures i <= |xs|
    ensures i < |xs| ==> p(xs[i])
    ensures forall j | 0 <= j < i :: !p(xs[j])
  {
    if xs == [] || p(xs[0]) then 0 else 1 + FirstIndex(xs[1..], p)
  }

  function Min(a: int, b: int): int { if a < b then a else b }

  function Max(a: int, b: int): int { if a < b then b else a }

  lemma {:induction false} FirstIndexAppend<T>(xs: seq<T>, x: T, p: T -> bool)
    ensures FirstIndex(xs + [x], p) ==
            if FirstIndex(xs, p) < |xs| then FirstIndex(xs, p) else if p(x) then |xs| else |xs| + 1
  {
    if xs == [] {
      assert xs + [x] == [x];
    } else if !p(xs[0]) {
      assert (xs + [x])[1..] == xs[1..] + [x];
      FirstIndexAppend(xs[1..], x, p);
    }
  }

  lemma {:induction false} FilterMembers<T>(xs: seq<T>, keep: T -> bool)
    ensures |Filter(xs, keep)| <= |xs|
    ensures forall x | x in Filter(xs, keep) :: x in xs && keep(x)
    ensures forall x | x in xs && keep(x) :: x in Filter(xs, keep)
  {
    if xs != [] {
      FilterMembers(xs[1..], keep);
      assert xs == [xs[0]] + xs[1..];
    }
  }

  lemma {:induction false} FilterAppend<T>(xs: seq<T>, ys: seq<T>, keep: T -> bool)
    ensures Filter(xs + ys, keep) == Filter(xs, keep) + Filter(ys, keep)
  {
    if xs == [] {
      assert xs + ys == ys;
    } else {
      var rest := Filter(xs[1..], keep);
      assert Filter(xs[1..] + ys, keep) == rest + Filter(ys, keep) by { FilterAppend(xs[1..], ys, keep); }
      assert (xs + ys)[1..] == xs[1..] + ys && (xs + ys)[0] == xs[0];
      assert [xs[0]] + (rest + Filter(ys, keep)) == ([xs[0]] + rest) + Filter(ys, keep);
    }
  }

  lemma {:induction false} FilterAll<T>(xs: seq<T>, keep: T -> bool)
    requires forall x | x in xs :: keep(x)
    ensures Filter(xs, keep) == xs
  {
    if xs != [] {
      FilterAll(xs[1..], keep);
    }
  }

  lemma {:induction false} FilterNone<T>(xs: seq<T>, keep: T -> bool)
    requires forall x | x in xs :: !keep(x)
    ensures Filter(xs, keep) == []
  {
    if xs != [] {
      FilterNone(xs[1..], keep);
    }
  }

  lemma {:induction false} FilterAgrees<T>(xs: seq<T>, p: T -> bool, q: T -> bool)
    requires forall x | x in xs :: p(x) == q(x)
    ensures Filter(xs, p) == Filter(xs, q)
  {
    if xs != [] {
      FilterAgrees(xs[1..], p, q);
    }
  }

  lemma {:induction false} FilterCommutes<T>(xs: seq<T>, p: T -> bool, q: T -> bool)
    ensures Filter(Filter(xs, p), q) == Filter(Filter(xs, q), p)
  {
    if xs != [] {
      FilterCommutes(xs[1..], p, q);
      FilterAppend([xs[0]], Filter(xs[1..], p), q);
      FilterAppend([xs[0]], Filter(xs[1..], q), p);
    }
  }

  /** Where the kept rows sit in the original. */
  function Positions<T>(xs: seq<T>, keep: T -> bool, from: nat): (at: seq<nat>)
    ensures |at| == |Filter(xs, keep)|
    ensures forall i | 0 <= i < |at| :: from <= at[i] < from + |xs| && xs[at[i] - from] == Filter(xs, keep)[i]
    ensures forall i, j | 0 <= i < j < |at| :: at[i] < at[j]
  {
    if xs == [] then []
    else
      var rest := Positions(xs[1..], keep, from + 1);
      if keep(xs[0]) then [from] + rest else rest
  }

  /** A filtered sequence keeps rows in order: its rows sit at increasing positions of the original. */
  lemma FilterPositions<T>(xs: seq<T>, keep: T -> bool) returns (at: seq<nat>)
    ensures |at| == |Filter(xs, keep)|
    ensures forall i | 0 <= i < |at| :: at[i] < |xs| && xs[at[i]] == Filter(xs, keep)[i]
    ensures forall i, j | 0 <= i < j < |at| :: at[i] < at[j]
  {
    at := Positions(xs, keep, 0);
  }

  lemma Reassociate<T>(a: seq<T>, b: seq<T>, c: seq<T>)
    ensures (a + b) + c == a + (b + c)
  {}
}
