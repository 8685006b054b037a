/** Winning and losing streaks ("strikes").

    Every trade is classified +1 (value > 0) or -1 (anything else). The
    strike loop walks the classification from the second trade on with a
    counter that starts at 0: an unchanged sign adds one, a changed sign
    records the counter under the previous sign and restarts it at 1. So the
    first streak is recorded one short, and the streak still open at the
    end is never recorded. The recorded lengths are tallied into Counters. */
module Strikes {
  import opened Wrappers
  import opened Series

  /** `np.where(v > 0, 1, -1)`: the 'Strike Type' column. */
  function Signs(v: seq<real>): (s: seq<int>)
    ensures |s| == |v|
    ensures forall i :: 0 <= i < |v| ==> (s[i] == 1 <==> v[i] > 0.0) && (s[i] == 1 || s[i] == -1)
  {
    seq(|v|, i requires 0 <= i < |v| => if v[i] > 0.0 then 1 else -1)
  }

  /** A maximal stretch of trades with one sign. */
  datatype Run = Run(sign: int, length: nat)

  /** The maximal runs of equal signs, in order. */
  function Runs(s: seq<int>): (rs: seq<Run>)
    ensures (rs == []) == (s == [])
    ensures s != [] ==> rs[|rs| - 1].sign == s[|s| - 1]
    decreases |s|
  {
    if s == [] then []
    else
      var rs := Runs(s[..|s| - 1]);
      var x := s[|s| - 1];
      if rs != [] && rs[|rs| - 1].sign == x then rs[..|rs| - 1] + [Run(x, rs[|rs| - 1].length + 1)]
      else rs + [Run(x, 1)]
  }

  /** `n` copies of `x`. */
  function Repeat(x: int, n: nat): (r: seq<int>)
    ensures |r| == n
    ensures forall i :: 0 <= i < n ==> r[i] == x
    decreases n
  {
    if n == 0 then [] else Repeat(x, n - 1) + [x]
  }

  /** The signs a sequence of runs spells out. */
  function Expand(rs: seq<Run>): seq<int>
    decreases |rs|
  {
    if rs == [] then []
    else Expand(rs[..|rs| - 1]) + Repeat(rs[|rs| - 1].sign, rs[|rs| - 1].length)
  }

  /** Every run is non-empty. */
  predicate NonEmptyRuns(rs: seq<Run>) {
    forall k :: 0 <= k < |rs| ==> rs[k].length >= 1
  }

  /** Neighbouring runs have different signs. */
  predicate Alternating(rs: seq<Run>) {
    forall k :: 1 <= k < |rs| ==> rs[k].sign != rs[k - 1].sign
  }

  lemma ExpandSnoc(rs: seq<Run>, r: Run)
    ensures Expand(rs + [r]) == Expand(rs) + Repeat(r.sign, r.length)
  {
    assert (rs + [r])[..|rs + [r]| - 1] == rs;
  }

  /** How one more sign extends the runs: it lengthens the last run when it
      repeats that run's sign, and opens a new run otherwise. */
  lemma RunsStep(s: seq<int>, x: int)
    requires s != []
    ensures var rs := Runs(s);
      Runs(s + [x]) == if rs[|rs| - 1].sign == x then rs[..|rs| - 1] + [Run(x, rs[|rs| - 1].length + 1)]
                       else rs + [Run(x, 1)]
  {
    var t := s + [x];
    assert t != [] && t[..|t| - 1] == s && t[|t| - 1] == x;
  }

  /** Every run holds at least one trade. */
  lemma {:induction false} RunsNonEmpty(s: seq<int>)
    ensures NonEmptyRuns(Runs(s))
    decreases |s|
  {
    if |s| == 1 {
      assert s[..0] == [];
      assert Runs(s) == [Run(s[0], 1)];
    } else if |s| > 1 {
      var init, x := s[..|s| - 1], s[|s| - 1];
      assert s == init + [x];
      RunsNonEmpty(init);
      RunsStep(init, x);
      var rs := Runs(init);
      if rs[|rs| - 1].sign == x {
        NonEmptyLengthen(rs, x);
      } else {
        NonEmptyAppend(rs, x);
      }
    }
  }

  lemma NonEmptyLengthen(rs: seq<Run>, x: int)
    requires NonEmptyRuns(rs) && rs != []
    ensures NonEmptyRuns(rs[..|rs| - 1] + [Run(x, rs[|rs| - 1].length + 1)])
  {
    var next := rs[..|rs| - 1] + [Run(x, rs[|rs| - 1].length + 1)];
    forall k | 0 <= k < |next| ensures next[k].length >= 1 {
      if k < |rs| - 1 { assert next[k] == rs[k]; }
    }
  }

  lemma NonEmptyAppend(rs: seq<Run>, x: int)
    requires NonEmptyRuns(rs)
    ensures NonEmptyRuns(rs + [Run(x, 1)])
  {
    var next := rs + [Run(x, 1)];
    forall k | 0 <= k < |next| ensures next[k].length >= 1 {
      if k < |rs| { assert next[k] == rs[k]; }
    }
  }

  /** Consecutive runs of a log have different signs. */
  lemma {:induction false} RunsAlternate(s: seq<int>)
    ensures Alternating(Runs(s))
    decreases |s|
  {
    if |s| > 1 {
      var init, x := s[..|s| - 1], s[|s| - 1];
      assert s == init + [x];
      RunsAlternate(init);
      RunsStep(init, x);
      var rs := Runs(init);
      if rs[|rs| - 1].sign == x {
        AlternatingLengthen(rs, x);
      } else {
        AlternatingAppend(rs, x);
      }
    }
  }

  /** Lengthening the last run keeps neighbouring signs different. */
  lemma AlternatingLengthen(rs: seq<Run>, x: int)
    requires Alternating(rs) && rs != [] && rs[|rs| - 1].sign == x
    ensures Alternating(rs[..|rs| - 1] + [Run(x, rs[|rs| - 1].length + 1)])
  {
    var next := rs[..|rs| - 1] + [Run(x, rs[|rs| - 1].length + 1)];
    forall k | 1 <= k < |next| ensures next[k].sign != next[k - 1].sign {
      assert next[k].sign == rs[k].sign && next[k - 1] == rs[k - 1];
    }
  }

  /** A run of a different sign after the last keeps neighbouring signs different. */
  lemma AlternatingAppend(rs: seq<Run>, x: int)
    requires Alternating(rs) && rs != [] && rs[|rs| - 1].sign != x
    ensures Alternating(rs + [Run(x, 1)])
  {
    var next := rs + [Run(x, 1)];
    forall k | 1 <= k < |next| ensures next[k].sign != next[k - 1].sign {
      if k < |rs| { assert next[k] == rs[k] && next[k - 1] == rs[k - 1]; }
    }
  }

  /** `Runs` is a run-length encoding: its runs spell out the signs again. */
  lemma {:induction false} RunsEncode(s: seq<int>)
    ensures Expand(Runs(s)) == s
    decreases |s|
  {
    if s != [] {
      var init, x := s[..|s| - 1], s[|s| - 1];
      assert s == init + [x];
      RunsEncode(init);
      if init == [] {
        assert Runs(s) == [Run(x, 1)];
        ExpandSnoc([], Run(x, 1));
      } else {
        var rs := Runs(init);
        RunsStep(init, x);
        var last := rs[|rs| - 1];
        if last.sign == x {
          var pre := rs[..|rs| - 1];
          assert rs == pre + [last];
          ExpandSnoc(pre, last);
          ExpandSnoc(pre, Run(x, last.length + 1));
        } else {
          ExpandSnoc(rs, Run(x, 1));
        }
      }
    }
  }

  /** The sum of the run lengths of the first `m` runs. */
  function RunTotal(rs: seq<Run>, m: nat): nat
    requires m <= |rs|
    decreases m
  {
    if m == 0 then 0 else RunTotal(rs, m - 1) + rs[m - 1].length
  }

  lemma {:induction false} RunTotalExpand(rs: seq<Run>)
    ensures RunTotal(rs, |rs|) == |Expand(rs)|
    decreases |rs|
  {
    if rs != [] {
      var init := rs[..|rs| - 1];
      RunTotalExpand(init);
      RunTotalPrefix(rs, init, |init|);
    }
  }

  lemma {:induction false} RunTotalPrefix(a: seq<Run>, b: seq<Run>, m: nat)
    requires m <= |a| && m <= |b| && a[..m] == b[..m]
    ensures RunTotal(a, m) == RunTotal(b, m)
    decreases m
  {
    if m > 0 {
      assert a[m - 1] == a[..m][m - 1] == b[..m][m - 1] == b[m - 1];
      assert a[..m - 1] == a[..m][..m - 1];
      assert b[..m - 1] == b[..m][..m - 1];
      RunTotalPrefix(a, b, m - 1);
    }
  }

  /** The value the loop records for run `k`: its length, one short for the
      first run because the counter starts at 0 on the second trade. */
  function Recorded(rs: seq<Run>, k: nat): nat
    requires k < |rs|
  {
    if k == 0 && rs[0].length > 0 then rs[0].length - 1 else rs[k].length
  }

  /** The values recorded under `sign` for the first `m` runs, in order. */
  function RecordedUnder(rs: seq<Run>, sign: int, m: nat): seq<nat>
    requires m <= |rs|
    decreases m
  {
    if m == 0 then []
    else RecordedUnder(rs, sign, m - 1) + (if rs[m - 1].sign == sign then [Recorded(rs, m - 1)] else [])
  }

  /** The lengths `_get_strikes` records under `sign`: every run but the last. */
  function StrikeLengths(s: seq<int>, sign: int): seq<nat> {
    var rs := Runs(s);
    if rs == [] then [] else RecordedUnder(rs, sign, |rs| - 1)
  }

  lemma {:induction false} RecordedUnderPrefix(a: seq<Run>, b: seq<Run>, sign: int, m: nat)
    requires m <= |a| && m <= |b| && a[..m] == b[..m]
    ensures RecordedUnder(a, sign, m) == RecordedUnder(b, sign, m)
    decreases m
  {
    if m > 0 {
      assert a[m - 1] == a[..m][m - 1] == b[..m][m - 1] == b[m - 1];
      assert a[..m - 1] == a[..m][..m - 1];
      assert b[..m - 1] == b[..m][..m - 1];
      RecordedUnderPrefix(a, b, sign, m - 1);
      if m == 1 {
        assert a[0] == b[0];
      }
    }
  }

  /** What one step of the strike loop does to the runs seen so far: a
      repeated sign leaves the recorded values alone and adds one to the
      open run. */
  lemma StrikeStepSame(signs: seq<int>, idx: nat)
    requires 1 <= idx < |signs| && signs[idx] == signs[idx - 1]
    ensures var rs, next := Runs(signs[..idx]), Runs(signs[..idx + 1]);
      |rs| >= 1 && |next| == |rs| &&
      Recorded(next, |next| - 1) == Recorded(rs, |rs| - 1) + 1 &&
      RecordedUnder(next, 1, |next| - 1) == RecordedUnder(rs, 1, |rs| - 1) &&
      RecordedUnder(next, -1, |next| - 1) == RecordedUnder(rs, -1, |rs| - 1)
  {
    var prefix, x := signs[..idx], signs[idx];
    assert signs[..idx + 1] == prefix + [x];
    RunsStep(prefix, x);
    var rs, next := Runs(prefix), Runs(prefix + [x]);
    assert rs[|rs| - 1].sign == signs[idx - 1];
    RecordedUnderPrefix(rs, next, 1, |rs| - 1);
    RecordedUnderPrefix(rs, next, -1, |rs| - 1);
  }

  /** A changed sign records the open run under the sign being left and
      opens a run of length 1. */
  lemma StrikeStepChange(signs: seq<int>, idx: nat)
    requires 1 <= idx < |signs| && signs[idx] != signs[idx - 1]
    ensures var rs, next := Runs(signs[..idx]), Runs(signs[..idx + 1]);
      |rs| >= 1 && |next| == |rs| + 1 &&
      Recorded(next, |next| - 1) == 1 &&
      RecordedUnder(next, 1, |next| - 1) ==
        RecordedUnder(rs, 1, |rs| - 1) + (if signs[idx - 1] == 1 then [Recorded(rs, |rs| - 1)] else []) &&
      RecordedUnder(next, -1, |next| - 1) ==
        RecordedUnder(rs, -1, |rs| - 1) + (if signs[idx - 1] == -1 then [Recorded(rs, |rs| - 1)] else [])
  {
    var prefix, x := signs[..idx], signs[idx];
    assert signs[..idx + 1] == prefix + [x];
    RunsStep(prefix, x);
    var rs, next := Runs(prefix), Runs(prefix + [x]);
    assert rs[|rs| - 1].sign == signs[idx - 1];
    assert next == rs + [Run(x, 1)];
    RecordedUnderPrefix(rs, next, 1, |rs| - 1);
    RecordedUnderPrefix(rs, next, -1, |rs| - 1);
    assert next[..|rs|] == rs;
    assert Recorded(next, |rs| - 1) == Recorded(rs, |rs| - 1);
  }

  /** Both cases of one step of the strike loop. */
  lemma StrikeStep(signs: seq<int>, idx: nat)
    requires 1 <= idx < |signs|
    ensures var rs, next := Runs(signs[..idx]), Runs(signs[..idx + 1]);
      |rs| >= 1 && |next| >= 1 &&
      (signs[idx] == signs[idx - 1] ==>
        |next| == |rs| &&
        Recorded(next, |next| - 1) == Recorded(rs, |rs| - 1) + 1 &&
        RecordedUnder(next, 1, |next| - 1) == RecordedUnder(rs, 1, |rs| - 1) &&
        RecordedUnder(next, -1, |next| - 1) == RecordedUnder(rs, -1, |rs| - 1)) &&
      (signs[idx] != signs[idx - 1] ==>
        |next| == |rs| + 1 &&
        Recorded(next, |next| - 1) == 1 &&
        RecordedUnder(next, 1, |next| - 1) ==
          RecordedUnder(rs, 1, |rs| - 1) + (if signs[idx - 1] == 1 then [Recorded(rs, |rs| - 1)] else []) &&
        RecordedUnder(next, -1, |next| - 1) ==
          RecordedUnder(rs, -1, |rs| - 1) + (if signs[idx - 1] == -1 then [Recorded(rs, |rs| - 1)] else []))
  {
    if signs[idx] == signs[idx - 1] {
      StrikeStepSame(signs, idx);
    } else {
      StrikeStepChange(signs, idx);
    }
  }

  /** The strike loop. `counter` always holds what would be recorded for the
      run in progress; a sign change records it under the sign being left. */
  method StrikeRunLengths(v: seq<real>) returns (signs: seq<int>, wins: seq<nat>, losses: seq<nat>)
    ensures signs == Signs(v)
    ensures wins == StrikeLengths(signs, 1)
    ensures losses == StrikeLengths(signs, -1)
  {
    signs := Signs(v);
    wins, losses := [], [];
    if |signs| == 0 {
      return;
    }
    var counter: nat := 0;
    ghost var rs := Runs(signs[..1]);
    assert signs[..1][..0] == [];
    for idx := 1 to |signs|
      invariant rs == Runs(signs[..idx]) && |rs| >= 1
      invariant counter == Recorded(rs, |rs| - 1)
      invariant wins == RecordedUnder(rs, 1, |rs| - 1)
      invariant losses == RecordedUnder(rs, -1, |rs| - 1)
    {
      ghost var next := Runs(signs[..idx + 1]);
      StrikeStep(signs, idx);
      if signs[idx] == signs[idx - 1] {
        counter := counter + 1;
      } else {
        if signs[idx - 1] == 1 {
          wins := wins + [counter];
        } else if signs[idx - 1] == -1 {
          losses := losses + [counter];
        }
        counter := 1;
      }
      rs := next;
    }
    assert signs[..|signs|] == signs;
  }

  /** Number of positions `i` in `1..m-1` where the sign changes. */
  function SignChanges(s: seq<int>, m: nat): nat
    requires m <= |s|
    decreases m
  {
    if m <= 1 then 0 else SignChanges(s, m - 1) + (if s[m - 1] != s[m - 2] then 1 else 0)
  }

  /** There is one run more than there are sign changes. */
  lemma {:induction false} RunsCount(s: seq<int>)
    requires s != []
    ensures |Runs(s)| == SignChanges(s, |s|) + 1
    decreases |s|
  {
    if |s| > 1 {
      var init := s[..|s| - 1];
      RunsCount(init);
      SignChangesPrefix(s, init, |init|);
    }
  }

  lemma {:induction false} SignChangesPrefix(a: seq<int>, b: seq<int>, m: nat)
    requires m <= |a| && m <= |b| && a[..m] == b[..m]
    ensures SignChanges(a, m) == SignChanges(b, m)
    decreases m
  {
    if m > 1 {
      assert a[m - 1] == a[..m][m - 1] == b[..m][m - 1] == b[m - 1];
      assert a[m - 2] == a[..m][m - 2] == b[..m][m - 2] == b[m - 2];
      assert a[..m - 1] == a[..m][..m - 1];
      assert b[..m - 1] == b[..m][..m - 1];
      SignChangesPrefix(a, b, m - 1);
    }
  }

  /** With only the signs +1 and -1, each of the first `m` runs is recorded
      under exactly one of them. */
  lemma {:induction false} RecordedUnderSplit(rs: seq<Run>, m: nat)
    requires m <= |rs|
    requires forall k :: 0 <= k < |rs| ==> rs[k].sign == 1 || rs[k].sign == -1
    ensures |RecordedUnder(rs, 1, m)| + |RecordedUnder(rs, -1, m)| == m
    decreases m
  {
    if m > 0 {
      RecordedUnderSplit(rs, m - 1);
    }
  }

  /** Every sign of the encoding occurs in the classification. */
  lemma {:induction false} RunsSigns(s: seq<int>)
    requires forall i :: 0 <= i < |s| ==> s[i] == 1 || s[i] == -1
    ensures forall k :: 0 <= k < |Runs(s)| ==> Runs(s)[k].sign == 1 || Runs(s)[k].sign == -1
    decreases |s|
  {
    if s != [] {
      RunsSigns(s[..|s| - 1]);
    }
  }

  /** Exactly one length is recorded per position where the sign changes. */
  lemma OneRecordPerChange(v: seq<real>)
    requires v != []
    ensures var s := Signs(v);
      |StrikeLengths(s, 1)| + |StrikeLengths(s, -1)| == SignChanges(s, |s|)
  {
    var s := Signs(v);
    RunsCount(s);
    RunsSigns(s);
    RecordedUnderSplit(Runs(s), |Runs(s)| - 1);
  }

  function SumRecorded(rs: seq<Run>, m: nat): nat
    requires m <= |rs|
    decreases m
  {
    if m == 0 then 0 else SumRecorded(rs, m - 1) + Recorded(rs, m - 1)
  }

  lemma {:induction false} SumRecordedTotal(rs: seq<Run>, m: nat)
    requires 1 <= m <= |rs| && NonEmptyRuns(rs)
    ensures SumRecorded(rs, m) == RunTotal(rs, m) - 1
    decreases m
  {
    if m > 1 {
      SumRecordedTotal(rs, m - 1);
    }
  }

  lemma {:induction false} SumRecordedSplit(rs: seq<Run>, m: nat)
    requires m <= |rs|
    requires forall k :: 0 <= k < |rs| ==> rs[k].sign == 1 || rs[k].sign == -1
    ensures SumNat(RecordedUnder(rs, 1, m)) + SumNat(RecordedUnder(rs, -1, m)) == SumRecorded(rs, m)
    decreases m
  {
    if m > 0 {
      SumRecordedSplit(rs, m - 1);
      var x := Recorded(rs, m - 1);
      SumNatAppend(RecordedUnder(rs, 1, m - 1), if rs[m - 1].sign == 1 then [x] else []);
      SumNatAppend(RecordedUnder(rs, -1, m - 1), if rs[m - 1].sign == -1 then [x] else []);
    }
  }

  /** The streak still open at the end is never recorded and the first is
      recorded one short: with at least two streaks, the recorded lengths add
      up to the number of trades, minus the final streak, minus one. */
  lemma RecordedTotal(v: seq<real>)
    requires |Runs(Signs(v))| >= 2
    ensures var s := Signs(v); var rs := Runs(s);
      SumNat(StrikeLengths(s, 1)) + SumNat(StrikeLengths(s, -1)) == |v| - rs[|rs| - 1].length - 1
  {
    var s := Signs(v);
    var rs := Runs(s);
    RunsEncode(s);
    RunsNonEmpty(s);
    RunsSigns(s);
    RunTotalExpand(rs);
    SumRecordedSplit(rs, |rs| - 1);
    SumRecordedTotal(rs, |rs| - 1);
  }

  // ---------------------------------------------------------------------
  // Counters

  /** A `collections.Counter` of recorded lengths: the keys in order of first
      appearance, and `values()` in the same order. */
  datatype Counter = Counter(keys: seq<nat>, values: seq<nat>)

  function Tally(xs: seq<nat>): (c: Counter)
    ensures |c.keys| == |c.values|
  {
    var keys := Distinct(xs);
    Counter(keys, seq(|keys|, i requires 0 <= i < |keys| => Occurrences(xs, keys[i])))
  }

  /** The counter's keys are the recorded values, each once, and each is
      counted as often as it was recorded, at least once. */
  lemma TallyCounts(xs: seq<nat>)
    ensures forall x :: x in Tally(xs).keys <==> x in xs
    ensures forall i, j :: 0 <= i < j < |Tally(xs).keys| ==> Tally(xs).keys[i] != Tally(xs).keys[j]
    ensures forall i :: 0 <= i < |Tally(xs).keys| ==>
      Tally(xs).values[i] == Occurrences(xs, Tally(xs).keys[i]) && Tally(xs).values[i] >= 1
  {
    var c := Tally(xs);
    forall i | 0 <= i < |c.keys| ensures c.values[i] >= 1 {
      OccurrencesPresent(xs, c.keys[i]);
    }
  }

  lemma {:induction false} OccurrencesPresent<T>(s: seq<T>, x: T)
    ensures x in s <==> Occurrences(s, x) >= 1
    decreases |s|
  {
    if s != [] {
      OccurrencesPresent(s[..|s| - 1], x);
      assert s == s[..|s| - 1] + [s[|s| - 1]];
    }
  }

  /** `max(counter.keys())`; `max` of nothing raises ValueError. */
  function MaxStrike(c: Counter): (r: Result<nat>)
    ensures r.Err? <==> c.keys == []
    ensures r.Err? ==> r.error == ValueError
    ensures r.Ok? ==> r.value in c.keys && forall j :: 0 <= j < |c.keys| ==> c.keys[j] <= r.value
  {
    if c.keys == [] then Err(ValueError) else Ok(MaxNat(c.keys))
  }

  /** The longest recorded streak is the largest recorded length. */
  lemma MaxStrikeOfTally(xs: seq<nat>)
    ensures MaxStrike(Tally(xs)).Ok? <==> xs != []
    ensures MaxStrike(Tally(xs)).Ok? ==>
      MaxStrike(Tally(xs)).value in xs && forall j :: 0 <= j < |xs| ==> xs[j] <= MaxStrike(Tally(xs)).value
  {
    var c := Tally(xs);
    TallyCounts(xs);
    if xs != [] {
      assert xs[0] in c.keys;
      var m := MaxStrike(c).value;
      forall j | 0 <= j < |xs| ensures xs[j] <= m {
        assert xs[j] in c.keys;
      }
    }
  }

  /** `sum(pair[0] * pair[1] for pair in zip(keys, values))`: `zip` stops at
      the shorter sequence. */
  function ZipWeighted(keys: seq<nat>, values: seq<nat>): nat
    decreases |keys|
  {
    if keys == [] || values == [] then 0
    else keys[0] * values[0] + ZipWeighted(keys[1..], values[1..])
  }

  /** `average / sum(values)` with Python's true division; ZeroDivisionError
      when the divisor is 0. */
  function Ratio(num: nat, den: nat): (r: Result<real>)
    ensures r.Err? <==> den == 0
    ensures r.Err? ==> r.error == ZeroDivisionError
    ensures r.Ok? ==> r.value * den as real == num as real && r.value >= 0.0
  {
    if den == 0 then Err(ZeroDivisionError) else Ok(num as real / den as real)
  }

  /** `get_avg_winning_strike`: the keys weighted by their own counts. */
  function AvgWinningStrike(wins: Counter): (r: Result<real>)
    ensures r.Err? <==> SumNat(wins.values) == 0
    ensures r.Err? ==> r.error == ZeroDivisionError
    ensures r.Ok? ==> r.value >= 0.0
  {
    Ratio(ZipWeighted(wins.keys, wins.values), SumNat(wins.values))
  }

  /** `get_avg_losing_strike` as the source writes it: the LOSING keys are
      zipped with the WINNING counts. */
  function AvgLosingStrikeAsWritten(losses: Counter, wins: Counter): (r: Result<real>)
    ensures r.Err? <==> SumNat(losses.values) == 0
    ensures r.Err? ==> r.error == ZeroDivisionError
    ensures r.Ok? ==> r.value >= 0.0
    ensures wins.values == losses.values ==> r == AvgLosingStrike(losses)
  {
    Ratio(ZipWeighted(losses.keys, wins.values), SumNat(losses.values))
  }

  /** The evidently intended losing average: the losing keys weighted by
      their own counts, as for the winning average. */
  function AvgLosingStrike(losses: Counter): (r: Result<real>)
    ensures r.Err? <==> SumNat(losses.values) == 0
    ensures r.Err? ==> r.error == ZeroDivisionError
    ensures r.Ok? ==> r.value >= 0.0
  {
    Ratio(ZipWeighted(losses.keys, losses.values), SumNat(losses.values))
  }

  /** Weight of the keys: the key itself, or 1 to count occurrences. */
  function Weight(k: nat, byKey: bool): nat {
    if byKey then k else 1
  }

  /** Sum over the keys of weight times occurrences in `xs`. */
  function Weighted(keys: seq<nat>, xs: seq<nat>, byKey: bool): nat
    decreases |keys|
  {
    if keys == [] then 0
    else Weighted(keys[..|keys| - 1], xs, byKey) + Contribution(keys[|keys| - 1], xs, byKey)
  }

  /** What one key adds to the weighted sum. */
  function Contribution(k: nat, xs: seq<nat>, byKey: bool): nat {
    Weight(k, byKey) * Occurrences(xs, k)
  }

  lemma ContributionSnoc(k: nat, init: seq<nat>, x: nat, byKey: bool)
    ensures Contribution(k, init + [x], byKey) == Contribution(k, init, byKey) + (if k == x then Weight(k, byKey) else 0)
  {
    var s := init + [x];
    assert s[..|s| - 1] == init;
    var w, o := Weight(k, byKey), Occurrences(init, k);
    assert Occurrences(s, k) == o + (if k == x then 1 else 0);
    assert w * (o + 1) == w * o + w;
  }

  lemma {:induction false} OccurrencesAbsent<T>(s: seq<T>, x: T)
    requires x !in s
    ensures Occurrences(s, x) == 0
    decreases |s|
  {
    if s != [] {
      OccurrencesAbsent(s[..|s| - 1], x);
    }
  }

  /** One more element adds its weight once if it is a key, which appear once each. */
  lemma {:induction false} WeightedSnoc(keys: seq<nat>, init: seq<nat>, x: nat, byKey: bool)
    requires forall i, j :: 0 <= i < j < |keys| ==> keys[i] != keys[j]
    ensures Weighted(keys, init + [x], byKey) ==
      Weighted(keys, init, byKey) + (if x in keys then Weight(x, byKey) else 0)
    decreases |keys|
  {
    if keys != [] {
      var pre, k := keys[..|keys| - 1], keys[|keys| - 1];
      WeightedSnoc(pre, init, x, byKey);
      ContributionSnoc(k, init, x, byKey);
      assert keys == pre + [k];
      assert x in keys <==> x in pre || x == k;
      assert x == k ==> x !in pre;
    }
  }

  /** Weighting the distinct values by their occurrences gives the plain sum
      (weight the key) or the count (weight 1). */
  lemma {:induction false} WeightedDistinct(xs: seq<nat>, byKey: bool)
    ensures Weighted(Distinct(xs), xs, byKey) == if byKey then SumNat(xs) else |xs|
    decreases |xs|
  {
    if xs != [] {
      var init, x := xs[..|xs| - 1], xs[|xs| - 1];
      WeightedDistinct(init, byKey);
      WeightedDistinctStep(init, x, xs, byKey);
    }
  }

  /** One more value adds its weight to the weighted sum over the distinct values. */
  lemma WeightedDistinctStep(init: seq<nat>, x: nat, xs: seq<nat>, byKey: bool)
    requires xs != [] && init == xs[..|xs| - 1] && x == xs[|xs| - 1]
    requires Weighted(Distinct(init), init, byKey) == if byKey then SumNat(init) else |init|
    ensures Weighted(Distinct(xs), xs, byKey) == if byKey then SumNat(xs) else |xs|
  {
    WeightedDistinctGrowth(init, x, xs, byKey);
    SumOrCountSnoc(xs, byKey);
  }

  lemma WeightedDistinctGrowth(init: seq<nat>, x: nat, xs: seq<nat>, byKey: bool)
    requires xs != [] && init == xs[..|xs| - 1] && x == xs[|xs| - 1]
    ensures Weighted(Distinct(xs), xs, byKey) == Weighted(Distinct(init), init, byKey) + Weight(x, byKey)
  {
    var d0 := Distinct(init);
    assert xs == init + [x];
    WeightedSnoc(d0, init, x, byKey);
    if x in d0 {
      DistinctSnocSeen(xs);
    } else {
      WeightedDistinctNew(init, x, xs, byKey);
    }
  }

  /** The plain sum, or the count, grows by the last value's weight. */
  lemma SumOrCountSnoc(xs: seq<nat>, byKey: bool)
    requires xs != []
    ensures (if byKey then SumNat(xs) else |xs|) ==
      (if byKey then SumNat(xs[..|xs| - 1]) else |xs[..|xs| - 1]|) + Weight(xs[|xs| - 1], byKey)
  {
  }

  /** A value seen before adds no new distinct value. */
  lemma DistinctSnocSeen(xs: seq<nat>)
    requires xs != [] && xs[|xs| - 1] in Distinct(xs[..|xs| - 1])
    ensures Distinct(xs) == Distinct(xs[..|xs| - 1])
  {
  }

  lemma WeightedDistinctNew(init: seq<nat>, x: nat, xs: seq<nat>, byKey: bool)
    requires xs == init + [x] && x !in Distinct(init)
    ensures Weighted(Distinct(xs), xs, byKey) == Weighted(Distinct(init), xs, byKey) + Weight(x, byKey)
  {
    var d0 := Distinct(init);
    assert xs[..|xs| - 1] == init && xs[|xs| - 1] == x;
    assert Distinct(xs) == d0 + [x];
    WeightedNewKey(d0, init, x, xs, byKey);
  }

  /** A key seen once, as the last value, adds its weight once. */
  lemma WeightedNewKey(d0: seq<nat>, init: seq<nat>, x: nat, xs: seq<nat>, byKey: bool)
    requires xs == init + [x] && x !in init
    ensures Weighted(d0 + [x], xs, byKey) == Weighted(d0, xs, byKey) + Weight(x, byKey)
  {
    var d := d0 + [x];
    assert d[..|d| - 1] == d0;
    OccurrencesAbsent(init, x);
    assert xs[..|xs| - 1] == init;
    assert Occurrences(xs, x) == 1;
  }

  lemma {:induction false} ZipWeightedTally(keys: seq<nat>, xs: seq<nat>, byKey: bool)
    ensures var values := seq(|keys|, i requires 0 <= i < |keys| => Occurrences(xs, keys[i]));
      ZipWeighted(if byKey then keys else seq(|keys|, _ => 1), values) == Weighted(keys, xs, byKey)
    decreases |keys|
  {
    if keys != [] {
      var pre := keys[..|keys| - 1];
      ZipWeightedTally(pre, xs, byKey);
      var values := seq(|keys|, i requires 0 <= i < |keys| => Occurrences(xs, keys[i]));
      var w := if byKey then keys else seq(|keys|, _ => 1);
      ZipWeightedSnoc(w, values);
      assert w[..|w| - 1] == if byKey then pre else seq(|pre|, _ => 1);
      assert values[..|values| - 1] == seq(|pre|, i requires 0 <= i < |pre| => Occurrences(xs, pre[i]));
    }
  }

  lemma {:induction false} ZipWeightedSnoc(a: seq<nat>, b: seq<nat>)
    requires |a| == |b| && a != []
    ensures ZipWeighted(a, b) == ZipWeighted(a[..|a| - 1], b[..|b| - 1]) + a[|a| - 1] * b[|b| - 1]
    decreases |a|
  {
    if |a| > 1 {
      ZipWeightedSnoc(a[1..], b[1..]);
      assert a[1..][..|a| - 2] == a[..|a| - 1][1..];
      assert b[1..][..|b| - 2] == b[..|b| - 1][1..];
    }
  }

  lemma {:induction false} SumNatOnes(n: nat, values: seq<nat>)
    requires |values| == n
    ensures ZipWeighted(seq(n, _ => 1), values) == SumNat(values)
    decreases n
  {
    if n > 0 {
      ZipWeightedSnoc(seq(n, _ => 1), values);
      assert seq(n, _ => 1)[..n - 1] == seq(n - 1, _ => 1);
      SumNatOnes(n - 1, values[..n - 1]);
    }
  }

  /** The winning average is the mean winning streak: the sum of the
      recorded lengths over their number (so, by `Ratio`, ZeroDivisionError
      exactly when no winning streak was recorded). */
  lemma AvgWinningStrikeIsMean(wins: seq<nat>)
    ensures AvgWinningStrike(Tally(wins)) == Ratio(SumNat(wins), |wins|)
  {
    CounterSums(wins);
  }

  /** The corrected losing average is the mean losing streak. */
  lemma AvgLosingStrikeIsMean(losses: seq<nat>)
    ensures AvgLosingStrike(Tally(losses)) == Ratio(SumNat(losses), |losses|)
  {
    CounterSums(losses);
  }

  /** A counter weighs up to the sum of its values and counts them all. */
  lemma CounterSums(xs: seq<nat>)
    ensures ZipWeighted(Tally(xs).keys, Tally(xs).values) == SumNat(xs)
    ensures SumNat(Tally(xs).values) == |xs|
  {
    var c := Tally(xs);
    ZipWeightedTally(c.keys, xs, true);
    WeightedDistinct(xs, true);
    ZipWeightedTally(c.keys, xs, false);
    WeightedDistinct(xs, false);
    SumNatOnes(|c.keys|, c.values);
  }

  /** The strikes of `+,-,+,-,+`: the first win is recorded as 0, the final
      win is never recorded. */
  lemma StrikesExample()
    ensures StrikeLengths([1, -1, 1, -1, 1], 1) == [0, 1]
    ensures StrikeLengths([1, -1, 1, -1, 1], -1) == [1, 1]
  {
    var s := [1, -1, 1, -1, 1];
    assert s[..4] == [1, -1, 1, -1];
    assert [1, -1, 1, -1][..3] == [1, -1, 1];
    assert [1, -1, 1][..2] == [1, -1];
    assert [1, -1][..1] == [1];
    assert Runs([1]) == [Run(1, 1)];
    assert Runs([1, -1]) == [Run(1, 1), Run(-1, 1)];
    assert Runs([1, -1, 1]) == [Run(1, 1), Run(-1, 1), Run(1, 1)];
    assert Runs([1, -1, 1, -1]) == [Run(1, 1), Run(-1, 1), Run(1, 1), Run(-1, 1)];
    var rs := [Run(1, 1), Run(-1, 1), Run(1, 1), Run(-1, 1), Run(1, 1)];
    assert Runs(s) == rs;
    assert RecordedUnder(rs, 1, 4) == [0, 1];
    assert RecordedUnder(rs, -1, 4) == [1, 1];
  }

  /** Tallied, those give wins {0: 1, 1: 1} and losses {1: 2}. The source's
      losing average then gives 0.5 where the mean losing streak is 1. */
  lemma AvgLosingStrikeExample()
    ensures Tally([0, 1]) == Counter([0, 1], [1, 1])
    ensures Tally([1, 1]) == Counter([1], [2])
    ensures AvgLosingStrikeAsWritten(Tally([1, 1]), Tally([0, 1])) == Ok(0.5)
    ensures AvgLosingStrike(Tally([1, 1])) == Ok(1.0)
  {
    TallyWinsExample();
    TallyLossesExample();
    AvgLosingOfCounters(Counter([1], [2]), Counter([0, 1], [1, 1]));
  }

  lemma AvgLosingOfCounters(losses: Counter, wins: Counter)
    requires losses == Counter([1], [2]) && wins == Counter([0, 1], [1, 1])
    ensures AvgLosingStrikeAsWritten(losses, wins) == Ok(0.5)
    ensures AvgLosingStrike(losses) == Ok(1.0)
  {
    assert ZipWeighted([1], [1, 1]) == 1;
    assert SumNat([2]) == 2 by { assert [2][..0] == []; }
    assert ZipWeighted([1], [2]) == 2;
  }

  lemma TallyWinsExample()
    ensures Tally([0, 1]) == Counter([0, 1], [1, 1])
  {
    TallyTwoValues(0, 1);
  }

  lemma TallyLossesExample()
    ensures Tally([1, 1]) == Counter([1], [2])
  {
    TallyRepeated(1);
  }

  /** Two different values are counted once each, in their order. */
  lemma TallyTwoValues(a: nat, b: nat)
    requires a != b
    ensures Tally([a, b]) == Counter([a, b], [1, 1])
  {
    var w: seq<nat> := [a, b];
    var one: seq<nat> := [a];
    assert w[..1] == one && one[..0] == [];
    assert Distinct(one) == [a];
    assert Occurrences(one, a) == 1 && Occurrences(one, b) == 0;
    assert Distinct(w) == [a, b];
    assert Occurrences(w, a) == 1 && Occurrences(w, b) == 1;
    var keys: seq<nat> := [a, b];
    assert seq(|keys|, i requires 0 <= i < |keys| => Occurrences(w, keys[i])) == [1, 1];
  }

  /** A value recorded twice is one key counted twice. */
  lemma TallyRepeated(a: nat)
    ensures Tally([a, a]) == Counter([a], [2])
  {
    var l: seq<nat> := [a, a];
    var one: seq<nat> := [a];
    assert l[..1] == one && one[..0] == [];
    assert Distinct(one) == [a];
    assert Occurrences(one, a) == 1;
    assert Distinct(l) == [a];
    assert Occurrences(l, a) == 2;
    var keys: seq<nat> := [a];
    assert seq(|keys|, i requires 0 <= i < |keys| => Occurrences(l, keys[i])) == [2];
  }
}
