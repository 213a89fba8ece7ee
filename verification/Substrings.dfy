/** Go's `strings.Count` and `strings.Replace` for a non-empty pattern, and what the greedy count means. */
module Substrings {
  import opened Sequences

  /** `p` stands in `s` at position `i`. */
  predicate At<T(==)>(s: seq<T>, p: seq<T>, i: int) {
    0 <= i <= |s| - |p| && s[i..i + |p|] == p
  }

  predicate Occurs<T(==)>(s: seq<T>, p: seq<T>) {
    exists i :: 0 <= i <= |s| && At(s, p, i)
  }

  function FirstFrom<T(==)>(s: seq<T>, p: seq<T>, from: nat): (r: Option<nat>)
    ensures r.Some? ==> from <= r.value && At(s, p, r.value)
    ensures forall i :: from <= i && (r.Some? ==> i < r.value) ==> !At(s, p, i)
    decreases |s| - from
  {
    if from + |p| > |s| then None
    else if At(s, p, from) then Some(from)
    else FirstFrom(s, p, from + 1)
  }

  function First<T(==)>(s: seq<T>, p: seq<T>): (r: Option<nat>)
    ensures r.Some? ==> At(s, p, r.value)
    ensures forall i :: (r.Some? ==> i < r.value) ==> !At(s, p, i)
  {
    FirstFrom(s, p, 0)
  }

  /** Greedy, left to right, without overlaps. */
  function Count<T(==)>(s: seq<T>, p: seq<T>): nat
    requires p != []
    decreases |s|
  {
    match First(s, p)
    case None => 0
    case Some(i) => 1 + Count(s[i + |p|..], p)
  }

  /** The first `n` of those occurrences replaced. */
  function Replace<T(==)>(s: seq<T>, p: seq<T>, with: seq<T>, n: nat): seq<T>
    requires p != []
    decreases |s|
  {
    match First(s, p)
    case None => s
    case Some(i) => if n == 0 then s else s[..i] + with + Replace(s[i + |p|..], p, with, n - 1)
  }

  method IndexOf<T(==)>(s: seq<T>, p: seq<T>) returns (k: int)
    ensures k == match First(s, p) case Some(i) => i case None => -1
  {
    k := 0;
    while k + |p| <= |s|
      invariant 0 <= k
      invariant First(s, p) == FirstFrom(s, p, k)
      decreases |s| - k
    {
      if s[k..k + |p|] == p {
        return;
      }
      k := k + 1;
    }
    k := -1;
  }

  method CountOf<T(==)>(s: seq<T>, p: seq<T>) returns (n: nat)
    requires p != []
    ensures n == Count(s, p)
  {
    n := 0;
    var rest := s;
    var i := IndexOf(rest, p);
    while i >= 0
      invariant Count(s, p) == n + Count(rest, p)
      invariant i == match First(rest, p) case Some(k) => k case None => -1
      decreases |rest|
    {
      n, rest := n + 1, rest[i + |p|..];
      i := IndexOf(rest, p);
    }
  }

  method ReplaceIn<T(==)>(s: seq<T>, p: seq<T>, with: seq<T>, limit: nat) returns (r: seq<T>)
    requires p != []
    ensures r == Replace(s, p, with, limit)
  {
    var n := CountOf(s, p);
    if n == 0 {
      return s;
    }
    if limit < n {
      n := limit;
    } else {
      ReplaceEnough(s, p, with, limit);
    }
    r := ReplaceFirst(s, p, with, n);
  }

  /** The copying loop, for as many occurrences as there are. */
  method ReplaceFirst<T(==)>(s: seq<T>, p: seq<T>, with: seq<T>, n: nat) returns (r: seq<T>)
    requires p != [] && n <= Count(s, p)
    ensures r == Replace(s, p, with, n)
  {
    var rest, done := s, 0;
    r := [];
    while done < n
      invariant 0 <= done <= n && n - done <= Count(rest, p)
      invariant Replace(s, p, with, n) == r + Replace(rest, p, with, n - done)
    {
      var front, back := SplitFirst(rest, p, with, n - done);
      Regroup(r, front, Replace(back, p, with, n - done - 1));
      r, rest, done := r + front, back, done + 1;
    }
    r := r + rest;
  }

  lemma Regroup<T>(a: seq<T>, b: seq<T>, c: seq<T>)
    ensures a + (b + c) == (a + b) + c
  {
  }

  /** What the loop copies out for one occurrence, and what it goes on with. */
  method SplitFirst<T(==)>(s: seq<T>, p: seq<T>, with: seq<T>, ghost n: nat) returns (front: seq<T>, back: seq<T>)
    requires p != [] && Count(s, p) > 0 && n > 0
    ensures Replace(s, p, with, n) == front + Replace(back, p, with, n - 1)
    ensures Count(s, p) == 1 + Count(back, p)
  {
    FirstOfSome(s, p, with, n);
    var i := IndexOf(s, p);
    front, back := s[..i] + with, s[i + |p|..];
  }

  /** The count and the replacement, taken apart at the first occurrence. */
  lemma FirstOfSome<T>(s: seq<T>, p: seq<T>, with: seq<T>, n: nat)
    requires p != [] && Count(s, p) > 0 && n > 0
    ensures First(s, p).Some?
    ensures var i := First(s, p).value;
            && Count(s, p) == 1 + Count(s[i + |p|..], p)
            && Replace(s, p, with, n) == s[..i] + with + Replace(s[i + |p|..], p, with, n - 1)
  {
  }

  lemma {:induction false} ReplaceEnough<T>(s: seq<T>, p: seq<T>, with: seq<T>, n: nat)
    requires p != [] && n >= Count(s, p)
    ensures Replace(s, p, with, n) == Replace(s, p, with, Count(s, p))
    decreases |s|
  {
    match First(s, p)
    case None =>
    case Some(i) => ReplaceEnough(s[i + |p|..], p, with, n - 1);
  }

  // What the count counts

  /** Positions of occurrences that do not overlap, from left to right. */
  ghost predicate Packed<T>(s: seq<T>, p: seq<T>, at: seq<nat>) {
    && (forall k :: 0 <= k < |at| ==> At(s, p, at[k]))
    && (forall k :: 0 <= k < |at| - 1 ==> at[k] + |p| <= at[k + 1])
  }

  ghost function Shift(at: seq<nat>, offset: nat): seq<nat> {
    seq(|at|, k requires 0 <= k < |at| => at[k] + offset)
  }

  /** The occurrences that the greedy count takes. */
  ghost function Greedy<T>(s: seq<T>, p: seq<T>): seq<nat>
    requires p != []
    decreases |s|
  {
    match First(s, p)
    case None => []
    case Some(i) => [i] + Shift(Greedy(s[i + |p|..], p), i + |p|)
  }

  lemma AtShifted<T>(s: seq<T>, p: seq<T>, cut: nat, i: int)
    requires cut <= |s| && i >= 0
    ensures At(s[cut..], p, i) <==> At(s, p, i + cut)
  {
    if i + |p| <= |s[cut..]| {
      assert s[cut..][i..i + |p|] == s[i + cut..i + cut + |p|];
    }
  }

  lemma ShiftPacked<T>(s: seq<T>, p: seq<T>, cut: nat, at: seq<nat>)
    requires cut <= |s|
    ensures Packed(s[cut..], p, at) <==> Packed(s, p, Shift(at, cut))
  {
    var moved := Shift(at, cut);
    forall k | 0 <= k < |at|
      ensures At(s[cut..], p, at[k]) <==> At(s, p, moved[k])
    {
      AtShifted(s, p, cut, at[k]);
    }
    if Packed(s, p, moved) {
      forall k | 0 <= k < |at|
        ensures At(s[cut..], p, at[k])
      {
        assert At(s, p, moved[k]);
      }
      forall k | 0 <= k < |at| - 1
        ensures at[k] + |p| <= at[k + 1]
      {
        assert moved[k] + |p| <= moved[k + 1];
      }
    }
  }

  lemma {:induction false} GreedyIsPacked<T>(s: seq<T>, p: seq<T>)
    requires p != []
    ensures Packed(s, p, Greedy(s, p)) && |Greedy(s, p)| == Count(s, p)
    decreases |s|
  {
    match First(s, p)
    case None =>
    case Some(i) =>
      var cut := i + |p|;
      var tail := Greedy(s[cut..], p);
      GreedyIsPacked(s[cut..], p);
      ShiftPacked(s, p, cut, tail);
      PackedCons(s, p, i, Shift(tail, cut));
  }

  lemma PackedCons<T>(s: seq<T>, p: seq<T>, i: nat, at: seq<nat>)
    requires At(s, p, i) && Packed(s, p, at) && (at != [] ==> i + |p| <= at[0])
    ensures Packed(s, p, [i] + at)
  {
  }

  lemma {:induction false} PackedAtMost<T>(s: seq<T>, p: seq<T>, at: seq<nat>)
    requires p != [] && Packed(s, p, at)
    ensures |at| <= Count(s, p)
    decreases |s|
  {
    if at != [] {
      assert At(s, p, at[0]);
      var i := First(s, p).value;
      var cut := i + |p|;
      var rest := at[1..];
      PackedSpread(s, p, at);
      PackedTail(s, p, at);
      var lower := Lowered(rest, cut);
      ShiftPacked(s, p, cut, lower);
      PackedAtMost(s[cut..], p, lower);
    }
  }

  lemma PackedTail<T>(s: seq<T>, p: seq<T>, at: seq<nat>)
    requires Packed(s, p, at) && at != []
    ensures Packed(s, p, at[1..])
  {
    var rest := at[1..];
    assert forall k :: 0 <= k < |rest| ==> rest[k] == at[k + 1];
  }

  ghost function Lowered(at: seq<nat>, offset: nat): (lower: seq<nat>)
    requires forall k :: 0 <= k < |at| ==> offset <= at[k]
    ensures |lower| == |at| && Shift(lower, offset) == at
  {
    seq(|at|, k requires 0 <= k < |at| => (at[k] - offset) as nat)
  }

  /** In a packing every later occurrence starts past the end of the first. */
  lemma {:induction false} PackedSpread<T>(s: seq<T>, p: seq<T>, at: seq<nat>)
    requires Packed(s, p, at) && at != []
    ensures forall k :: 1 <= k < |at| ==> at[0] + |p| <= at[k]
    decreases |at|
  {
    if |at| > 1 {
      PackedSpread(s, p, at[..|at| - 1]);
      var last := |at| - 1;
      assert at[last - 1] + |p| <= at[last];
    }
  }

  /** The greedy count is the largest number of occurrences that can be found without overlap. */
  lemma CountIsMaximum<T>(s: seq<T>, p: seq<T>)
    requires p != []
    ensures exists at :: Packed(s, p, at) && |at| == Count(s, p)
    ensures forall at :: Packed(s, p, at) ==> |at| <= Count(s, p)
  {
    GreedyIsPacked(s, p);
    forall at | Packed(s, p, at)
      ensures |at| <= Count(s, p)
    {
      PackedAtMost(s, p, at);
    }
  }

  ghost predicate Apart<T>(s: seq<T>, p: seq<T>, i: nat, j: nat) {
    At(s, p, i) && At(s, p, j) && i + |p| <= j
  }

  /** Zero means none, two or more means two that do not overlap, so one means all overlap one another. */
  lemma CountMeaning<T>(s: seq<T>, p: seq<T>)
    requires p != []
    ensures Count(s, p) == 0 <==> First(s, p) == None
    ensures Count(s, p) >= 2 <==> exists i: nat, j: nat :: Apart(s, p, i, j)
  {
    GreedyIsPacked(s, p);
    var g := Greedy(s, p);
    if |g| >= 2 {
      assert Apart(s, p, g[0], g[1]);
    }
    forall i: nat, j: nat | Apart(s, p, i, j)
      ensures Count(s, p) >= 2
    {
      assert Packed(s, p, [i, j]);
      PackedAtMost(s, p, [i, j]);
    }
  }
}
