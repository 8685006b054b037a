/** Column operations the source gets from pandas and the Python builtins:
    sums, boolean-mask selections, first positions of extremes and values,
    distinct values in order of first appearance. */
module Series {

  /** Sum of a sequence, accumulated from the front. */
  function Sum(s: seq<real>): real
    decreases |s|
  {
    if s == [] then 0.0 else Sum(s[..|s| - 1]) + s[|s| - 1]
  }

  /** Sum of a sequence of naturals. */
  function SumNat(s: seq<nat>): nat
    decreases |s|
  {
    if s == [] then 0 else SumNat(s[..|s| - 1]) + s[|s| - 1]
  }

  predicate IsPositive(x: real) { x > 0.0 }
  predicate IsNonNegative(x: real) { x >= 0.0 }
  predicate IsNegative(x: real) { x < 0.0 }

  /** The elements of `s` that satisfy `p`, in their order (`df[mask][column]`). */
  function Keep(s: seq<real>, p: real -> bool): (r: seq<real>)
    ensures |r| <= |s|
    decreases |s|
  {
    if s == [] then []
    else Keep(s[..|s| - 1], p) + (if p(s[|s| - 1]) then [s[|s| - 1]] else [])
  }

  /** `s` with every element multiplied by `c`. */
  function Scale(s: seq<real>, c: real): (r: seq<real>)
    ensures |r| == |s|
  {
    seq(|s|, i requires 0 <= i < |s| => c * s[i])
  }

  /** Running sums: entry i is the sum of the first i+1 elements (`cumsum`). */
  function CumSum(s: seq<real>): (r: seq<real>)
    ensures |r| == |s|
  {
    seq(|s|, i requires 0 <= i < |s| => Sum(s[..i + 1]))
  }

  /** The first element of `s` at least as large as all the others (`idxmax`). */
  function ArgMax(s: seq<real>): (i: nat)
    requires |s| > 0
    ensures i < |s|
    ensures forall j :: 0 <= j < |s| ==> s[j] <= s[i]
    ensures forall j :: 0 <= j < i ==> s[j] < s[i]
    decreases |s|
  {
    if |s| == 1 then 0
    else
      var k := ArgMax(s[..|s| - 1]);
      if s[|s| - 1] > s[k] then |s| - 1 else k
  }

  /** The first element of `s` at most as large as all the others (`idxmin`). */
  function ArgMin(s: seq<real>): (i: nat)
    requires |s| > 0
    ensures i < |s|
    ensures forall j :: 0 <= j < |s| ==> s[i] <= s[j]
    ensures forall j :: 0 <= j < i ==> s[i] < s[j]
    decreases |s|
  {
    if |s| == 1 then 0
    else
      var k := ArgMin(s[..|s| - 1]);
      if s[|s| - 1] < s[k] then |s| - 1 else k
  }

  /** The largest element of a non-empty sequence of naturals (`max`). */
  function MaxNat(s: seq<nat>): (m: nat)
    requires |s| > 0
    ensures m in s
    ensures forall j :: 0 <= j < |s| ==> s[j] <= m
    decreases |s|
  {
    if |s| == 1 then s[0]
    else
      var k := MaxNat(s[..|s| - 1]);
      if s[|s| - 1] > k then s[|s| - 1] else k
  }

  /** Position of the first occurrence of `x` (Python's `list.index`). */
  function IndexOf<T(==)>(s: seq<T>, x: T): (i: nat)
    requires x in s
    ensures i < |s| && s[i] == x
    ensures forall j :: 0 <= j < i ==> s[j] != x
  {
    if s[0] == x then 0 else 1 + IndexOf(s[1..], x)
  }

  /** Number of occurrences of `x` in `s`. */
  function Occurrences<T(==)>(s: seq<T>, x: T): nat
    decreases |s|
  {
    if s == [] then 0
    else Occurrences(s[..|s| - 1], x) + (if s[|s| - 1] == x then 1 else 0)
  }

  /** The values of `s` without repetition, in order of first appearance
      (pandas `unique`, the key order of a `Counter`). */
  function Distinct<T(==,!new)>(s: seq<T>): (r: seq<T>)
    ensures forall x :: x in r <==> x in s
    ensures forall i, j :: 0 <= i < j < |r| ==> r[i] != r[j]
    decreases |s|
  {
    if s == [] then []
    else
      var d := Distinct(s[..|s| - 1]);
      if s[|s| - 1] in d then d else d + [s[|s| - 1]]
  }

  lemma {:induction false} SumAppend(a: seq<real>, b: seq<real>)
    ensures Sum(a + b) == Sum(a) + Sum(b)
    decreases |b|
  {
    if b == [] {
      assert a + b == a;
    } else {
      assert (a + b)[..|a + b| - 1] == a + b[..|b| - 1];
      SumAppend(a, b[..|b| - 1]);
    }
  }

  lemma {:induction false} SumNatAppend(a: seq<nat>, b: seq<nat>)
    ensures SumNat(a + b) == SumNat(a) + SumNat(b)
    decreases |b|
  {
    if b == [] {
      assert a + b == a;
    } else {
      assert (a + b)[..|a + b| - 1] == a + b[..|b| - 1];
      SumNatAppend(a, b[..|b| - 1]);
    }
  }

  /** A sum of non-negative values is non-negative. */
  lemma {:induction false} SumNonNegative(s: seq<real>)
    requires forall i :: 0 <= i < |s| ==> s[i] >= 0.0
    ensures Sum(s) >= 0.0
    decreases |s|
  {
    if s != [] {
      SumNonNegative(s[..|s| - 1]);
    }
  }

  /** A sum of non-positive values is non-positive. */
  lemma {:induction false} SumNonPositive(s: seq<real>)
    requires forall i :: 0 <= i < |s| ==> s[i] <= 0.0
    ensures Sum(s) <= 0.0
    decreases |s|
  {
    if s != [] {
      SumNonPositive(s[..|s| - 1]);
    }
  }

  /** Splitting a sequence by a predicate and its negation preserves the sum. */
  lemma {:induction false} KeepPartition(s: seq<real>, p: real -> bool, q: real -> bool)
    requires forall x :: q(x) == !p(x)
    ensures Sum(Keep(s, p)) + Sum(Keep(s, q)) == Sum(s)
    decreases |s|
  {
    if s != [] {
      var init, x := s[..|s| - 1], s[|s| - 1];
      KeepPartition(init, p, q);
      SumAppend(Keep(init, p), if p(x) then [x] else []);
      SumAppend(Keep(init, q), if q(x) then [x] else []);
    }
  }

  /** Elements that fail `p` contribute nothing once they are all zero. */
  lemma {:induction false} KeepDropsZeros(s: seq<real>, p: real -> bool, q: real -> bool)
    requires forall x :: x != 0.0 ==> q(x) == p(x)
    ensures Sum(Keep(s, p)) == Sum(Keep(s, q))
    decreases |s|
  {
    if s != [] {
      var init, x := s[..|s| - 1], s[|s| - 1];
      KeepDropsZeros(init, p, q);
      SumAppend(Keep(init, p), if p(x) then [x] else []);
      SumAppend(Keep(init, q), if q(x) then [x] else []);
    }
  }

  lemma ScaleInit(s: seq<real>, c: real)
    requires s != []
    ensures Scale(s, c)[..|s| - 1] == Scale(s[..|s| - 1], c)
  {
    var a, b := Scale(s, c)[..|s| - 1], Scale(s[..|s| - 1], c);
    forall k | 0 <= k < |s| - 1 ensures a[k] == b[k] {}
  }

  /** Scaling distributes over the sum. */
  lemma {:induction false} SumScale(s: seq<real>, c: real)
    ensures Sum(Scale(s, c)) == c * Sum(s)
    decreases |s|
  {
    if s != [] {
      var init := s[..|s| - 1];
      var t := Scale(s, c);
      ScaleInit(s, c);
      SumScale(init, c);
    }
  }

  lemma KeepSnoc(init: seq<real>, x: real, p: real -> bool)
    ensures Keep(init + [x], p) == Keep(init, p) + (if p(x) then [x] else [])
  {
    var s := init + [x];
    assert s[..|s| - 1] == init;
  }

  lemma ScaleSnoc(init: seq<real>, x: real, c: real)
    ensures Scale(init + [x], c) == Scale(init, c) + [c * x]
  {
    var l, r := Scale(init + [x], c), Scale(init, c) + [c * x];
    forall k | 0 <= k < |l| ensures l[k] == r[k] {}
  }

  lemma KeepScaleStep(init: seq<real>, x: real, c: real, p: real -> bool)
    requires p(c * x) == p(x)
    requires Keep(Scale(init, c), p) == Scale(Keep(init, p), c)
    ensures Keep(Scale(init + [x], c), p) == Scale(Keep(init + [x], p), c)
  {
    var y := c * x;
    ScaleSnoc(init, x, c);
    KeepSnoc(Scale(init, c), y, p);
    KeepSnoc(init, x, p);
    var k := Keep(init, p);
    if p(x) {
      ScaleSnoc(k, x, c);
    } else {
      assert Keep(init + [x], p) == k;
    }
  }

  /** Selecting the positive, or the negative, elements commutes with
      scaling by a positive constant. */
  lemma {:induction false} KeepScale(s: seq<real>, c: real)
    requires c > 0.0
    ensures Keep(Scale(s, c), IsPositive) == Scale(Keep(s, IsPositive), c)
    ensures Keep(Scale(s, c), IsNegative) == Scale(Keep(s, IsNegative), c)
    decreases |s|
  {
    if s != [] {
      var init, x := s[..|s| - 1], s[|s| - 1];
      assert s == init + [x];
      KeepScale(init, c);
      assert IsPositive(c * x) == IsPositive(x);
      assert IsNegative(c * x) == IsNegative(x);
      KeepScaleStep(init, x, c, IsPositive);
      KeepScaleStep(init, x, c, IsNegative);
    }
  }

  /** A selection that keeps something from a sequence keeps one of its elements. */
  lemma {:induction false} KeepNonEmpty(s: seq<real>, p: real -> bool, i: nat)
    requires i < |s| && p(s[i])
    ensures |Keep(s, p)| > 0
    decreases |s|
  {
    if i < |s| - 1 {
      KeepNonEmpty(s[..|s| - 1], p, i);
    }
  }

  /** If nothing satisfies `p`, the selection is empty. */
  lemma {:induction false} KeepEmpty(s: seq<real>, p: real -> bool)
    requires forall i :: 0 <= i < |s| ==> !p(s[i])
    ensures Keep(s, p) == []
    decreases |s|
  {
    if s != [] {
      KeepEmpty(s[..|s| - 1], p);
    }
  }
  /** A selection and its complement together hold every element once. */
  lemma {:induction false} KeepCountPartition(s: seq<real>, p: real -> bool, q: real -> bool)
    requires forall x :: q(x) == !p(x)
    ensures |Keep(s, p)| + |Keep(s, q)| == |s|
    decreases |s|
  {
    if s != [] {
      KeepCountPartition(s[..|s| - 1], p, q);
    }
  }

  /** A sum of negative values, at least one of them, is negative. */
  lemma {:induction false} SumNegative(s: seq<real>)
    requires s != []
    requires forall i :: 0 <= i < |s| ==> s[i] < 0.0
    ensures Sum(s) < 0.0
    decreases |s|
  {
    if |s| > 1 {
      SumNegative(s[..|s| - 1]);
    }
  }

  /** Every kept element is an element of `s` that satisfies `p`. */
  lemma {:induction false} KeepMembers(s: seq<real>, p: real -> bool)
    ensures forall k :: 0 <= k < |Keep(s, p)| ==> p(Keep(s, p)[k]) && Keep(s, p)[k] in s
    decreases |s|
  {
    if s != [] {
      var init := s[..|s| - 1];
      KeepMembers(init, p);
      var a := Keep(init, p);
      var r := Keep(s, p);
      forall k | 0 <= k < |r| ensures p(r[k]) && r[k] in s {
        if k < |a| {
          assert r[k] == a[k];
          assert a[k] in init;
        } else {
          assert r[k] == s[|s| - 1];
        }
      }
    }
  }
}
