/** Sequence vocabulary shared by the models: windows, projections and position lists. */
module Sequences {

  datatype Option<+T> = None | Some(value: T)

  type Byte = x: int | 0 <= x < 256

  type Bytes = seq<Byte>

  /** The last `n` elements of `s`, or all of `s` when it is no longer than `n`. */
  function Last<T>(s: seq<T>, n: nat): (r: seq<T>)
    ensures |r| == if |s| <= n then |s| else n
  {
    if |s| <= n then s else s[|s| - n..]
  }

  /** Slicing the window after each append is the same as slicing the whole log once. */
  lemma LastOfAppend<T>(s: seq<T>, x: T, n: nat)
    ensures Last(Last(s, n) + [x], n) == Last(s + [x], n)
  {
  }

  /** A window of a window is the smaller of the two windows. */
  lemma LastOfLast<T>(s: seq<T>, n: nat, m: nat)
    ensures Last(Last(s, n), m) == Last(s, if n < m then n else m)
  {
  }

  ghost predicate IsSuffix<T>(a: seq<T>, b: seq<T>) {
    |a| <= |b| && a == b[|b| - |a|..]
  }

  /** The elements of `s` that satisfy `keep`, in order. */
  function Filter<T>(s: seq<T>, keep: T -> bool): seq<T> {
    if s == [] then []
    else Filter(s[..|s| - 1], keep) + (if keep(s[|s| - 1]) then [s[|s| - 1]] else [])
  }

  lemma {:induction false} FilterConcat<T>(a: seq<T>, b: seq<T>, keep: T -> bool)
    ensures Filter(a + b, keep) == Filter(a, keep) + Filter(b, keep)
  {
    if b == [] {
      assert a + b == a;
    } else {
      var front := b[..|b| - 1];
      assert (a + b)[..|a + b| - 1] == a + front;
      FilterConcat(a, front, keep);
    }
  }

  /** Filtering a suffix gives a suffix of the filtered whole. */
  lemma FilterOfSuffix<T>(a: seq<T>, b: seq<T>, keep: T -> bool)
    requires IsSuffix(a, b)
    ensures IsSuffix(Filter(a, keep), Filter(b, keep))
  {
    var front := b[..|b| - |a|];
    assert b == front + a;
    FilterConcat(front, a, keep);
  }

  /** A strictly increasing list of positions. */
  ghost predicate Ascending(ps: seq<nat>) {
    forall i, j :: 0 <= i < j < |ps| ==> ps[i] < ps[j]
  }

  ghost predicate Within(ps: seq<nat>, lo: nat, hi: nat) {
    forall i :: 0 <= i < |ps| ==> lo <= ps[i] < hi
  }

  /** The elements of `s` found at the positions `ps`, in the order of `ps`. */
  ghost function Pick<T>(s: seq<T>, ps: seq<nat>): (r: seq<T>)
    requires Within(ps, 0, |s|)
    ensures |r| == |ps|
    ensures forall i :: 0 <= i < |ps| ==> r[i] == s[ps[i]]
  {
    seq(|ps|, i requires 0 <= i < |ps| => s[ps[i]])
  }

  /** Ascending positions in an interval cannot outrun it; if there are as many as fit, they are all of it. */
  lemma {:induction false} AscendingBounds(ps: seq<nat>, lo: nat, hi: nat, i: nat)
    requires Ascending(ps) && Within(ps, lo, hi) && i < |ps|
    ensures lo + i <= ps[i] <= hi - (|ps| - i)
    decreases |ps|
  {
    if |ps| > 1 {
      if i == |ps| - 1 {
        AscendingBounds(ps[..i], lo, ps[i], i - 1);
      } else {
        var tail := ps[i + 1..];
        AscendingBounds(tail, ps[i] + 1, hi, 0);
        AscendingBounds(ps[..i + 1], lo, ps[i] + 1, i);
      }
    }
  }

  lemma AscendingFull(ps: seq<nat>, lo: nat, hi: nat)
    requires Ascending(ps) && Within(ps, lo, hi) && lo <= hi && |ps| == hi - lo
    ensures forall i :: 0 <= i < |ps| ==> ps[i] == lo + i
  {
    forall i | 0 <= i < |ps|
      ensures ps[i] == lo + i
    {
      AscendingBounds(ps, lo, hi, i);
    }
  }
}
