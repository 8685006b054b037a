/** The metrics of a backtest, computed over the normalised trade log.

    Both `BtMetrics` (the class of the parser package) and the free functions
    of the older `Backtest` package compute these the same way on exact
    values; where the two differ, the differences are in the modules
    `BtMetrics` and `BacktestMetrics`. `v` is always the column the metric
    reads: the pips or the profit of each trade, in log order. */
module Metrics {
  import opened Wrappers
  import opened Series
  import opened Trades

  // ---------------------------------------------------------------------
  // Profit factor

  /** Sum of the strictly positive values (`df[df[c] > 0][c].sum()`). */
  function PositiveSum(v: seq<real>): real {
    Sum(Keep(v, IsPositive))
  }

  /** Sum of the strictly negative values (`df[df[c] < 0][c].sum()`). */
  function NegativeSum(v: seq<real>): real {
    Sum(Keep(v, IsNegative))
  }

  lemma PositiveSumNonNegative(v: seq<real>)
    ensures PositiveSum(v) >= 0.0
  {
    KeepMembers(v, IsPositive);
    SumNonNegative(Keep(v, IsPositive));
  }

  /** The losses sum to a negative amount exactly when some value is negative. */
  lemma NegativeSumSign(v: seq<real>)
    ensures NegativeSum(v) <= 0.0
    ensures NegativeSum(v) < 0.0 <==> exists i :: 0 <= i < |v| && v[i] < 0.0
  {
    var k := Keep(v, IsNegative);
    KeepMembers(v, IsNegative);
    if exists i :: 0 <= i < |v| && v[i] < 0.0 {
      var i :| 0 <= i < |v| && v[i] < 0.0;
      KeepNonEmpty(v, IsNegative, i);
      SumNegative(k);
    } else {
      KeepEmpty(v, IsNegative);
    }
  }

  /** A profit factor: a ratio, or the infinity taken when nothing was lost. */
  datatype ProfitFactor = Finite(ratio: real) | Infinite

  /** Gross gain over gross loss, where zero values count on neither side;
      infinite when no value is negative. */
  function ProfitFactorOf(v: seq<real>): (pf: ProfitFactor)
    ensures pf.Infinite? <==> forall i :: 0 <= i < |v| ==> v[i] >= 0.0
    ensures pf.Finite? ==> pf.ratio >= 0.0 && pf.ratio * -NegativeSum(v) == PositiveSum(v)
  {
    NegativeSumSign(v);
    PositiveSumNonNegative(v);
    var profit, loss := PositiveSum(v), -NegativeSum(v);
    if loss > 0.0 then Finite(profit / loss) else Infinite
  }

  /** Multiplying every value by the same positive factor (pips against money
      at a fixed pip value, say) leaves the profit factor unchanged. */
  lemma ProfitFactorScale(v: seq<real>, c: real)
    requires c > 0.0
    ensures ProfitFactorOf(Scale(v, c)) == ProfitFactorOf(v)
  {
    var w := Scale(v, c);
    SumsScale(v, c);
    var p, l := PositiveSum(v), -NegativeSum(v);
    NegativeSumSign(v);
    NegativeSumSign(w);
    if l > 0.0 {
      RatioScale(p, l, c);
    }
  }

  lemma SumsScale(v: seq<real>, c: real)
    requires c > 0.0
    ensures PositiveSum(Scale(v, c)) == c * PositiveSum(v)
    ensures NegativeSum(Scale(v, c)) == c * NegativeSum(v)
  {
    KeepScale(v, c);
    PositiveSumScale(v, c);
    NegativeSumScale(v, c);
  }

  lemma PositiveSumScale(v: seq<real>, c: real)
    requires c > 0.0
    requires Keep(Scale(v, c), IsPositive) == Scale(Keep(v, IsPositive), c)
    ensures PositiveSum(Scale(v, c)) == c * PositiveSum(v)
  {
    SumOfScaled(Keep(v, IsPositive), Keep(Scale(v, c), IsPositive), c);
  }

  lemma NegativeSumScale(v: seq<real>, c: real)
    requires c > 0.0
    requires Keep(Scale(v, c), IsNegative) == Scale(Keep(v, IsNegative), c)
    ensures NegativeSum(Scale(v, c)) == c * NegativeSum(v)
  {
    SumOfScaled(Keep(v, IsNegative), Keep(Scale(v, c), IsNegative), c);
  }

  lemma SumOfScaled(k: seq<real>, w: seq<real>, c: real)
    requires w == Scale(k, c)
    ensures Sum(w) == c * Sum(k)
  {
    SumScale(k, c);
  }

  lemma RatioScale(p: real, l: real, c: real)
    requires c > 0.0 && l > 0.0
    ensures (c * p) / (c * l) == p / l
  {
    var q := p / l;
    assert q * l == p;
    assert q * (c * l) == c * p;
  }

  /** Facts about a quotient by a positive number. */
  lemma Quotient(a: real, b: real)
    requires b > 0.0
    ensures (a / b) * b == a
    ensures a >= 0.0 ==> a / b >= 0.0
    ensures a < 0.0 ==> a / b < 0.0
  {
    var q := a / b;
    assert q * b == a;
  }

  // ---------------------------------------------------------------------
  // Drawdown: cumulative sum minus its running maximum

  /** The largest of `s[0..i]` (`cummax`). */
  function RunningMax(s: seq<real>, i: nat): (m: real)
    requires i < |s|
    ensures forall j :: 0 <= j <= i ==> s[j] <= m
    ensures exists j :: 0 <= j <= i && s[j] == m
    decreases i
  {
    if i == 0 then s[0]
    else
      var m := RunningMax(s, i - 1);
      if s[i] > m then s[i] else m
  }

  /** `cumsum() - cumsum().cummax()`: how far the equity curve is below its
      best level so far. It is never positive, it is zero on the first trade,
      and it is zero exactly at a trade that reaches a new high. */
  function Drawdown(v: seq<real>): (dd: seq<real>)
    ensures |dd| == |v|
    ensures forall i :: 0 <= i < |v| ==> dd[i] <= 0.0
    ensures |v| > 0 ==> dd[0] == 0.0
  {
    var cs := CumSum(v);
    seq(|v|, i requires 0 <= i < |v| => cs[i] - RunningMax(cs, i))
  }

  /** The drawdown is zero exactly at a trade whose cumulative result is at
      least every earlier one, a new high of the equity curve. */
  lemma DrawdownZeroAtHigh(v: seq<real>, i: nat)
    requires i < |v|
    ensures Drawdown(v)[i] == 0.0 <==> forall j :: 0 <= j <= i ==> CumSum(v)[j] <= CumSum(v)[i]
  {
    var cs := CumSum(v);
    var m := RunningMax(cs, i);
    assert Drawdown(v)[i] == cs[i] - m;
  }

  /** The smallest value of a non-empty sequence (`Series.min()`); `None`
      stands for the NaN that pandas gives for an empty series. */
  function Minimum(s: seq<real>): (m: Option<real>)
    ensures m.None? <==> s == []
    ensures m.Some? ==> m.value in s && forall j :: 0 <= j < |s| ==> m.value <= s[j]
  {
    if s == [] then None else Some(s[ArgMin(s)])
  }

  /** The largest value of a non-empty sequence (`max`, `Series.max()`). */
  function Maximum(s: seq<real>): (m: Option<real>)
    ensures m.None? <==> s == []
    ensures m.Some? ==> m.value in s && forall j :: 0 <= j < |s| ==> s[j] <= m.value
  {
    if s == [] then None else Some(s[ArgMax(s)])
  }

  /** The 'DD' metric: the deepest drawdown, never positive. */
  function MaxDrawdown(v: seq<real>): (m: Option<real>)
    ensures m.None? <==> v == []
    ensures m.Some? ==> m.value <= 0.0
  {
    Minimum(Drawdown(v))
  }

  // ---------------------------------------------------------------------
  // dd2: the accumulator that restarts at every losing trade

  /** The series `dd2` builds: after a losing trade the entry is 0, after any
      other trade it is the previous entry (0 before the first) minus the value. */
  function Dd2Spec(v: seq<real>): (d: seq<real>)
    ensures |d| == |v|
    decreases |v|
  {
    if v == [] then []
    else
      var prev := Dd2Spec(v[..|v| - 1]);
      var x := v[|v| - 1];
      var acc := if prev == [] then 0.0 else prev[|prev| - 1];
      prev + [if x < 0.0 then 0.0 else acc - x]
  }

  /** `dd2`: the loop over the values with the accumulator `dd_actual`. */
  method Dd2(v: seq<real>) returns (d: seq<real>)
    ensures d == Dd2Spec(v)
  {
    d := [];
    var ddActual := 0.0;
    for i := 0 to |v|
      invariant d == Dd2Spec(v[..i])
      invariant ddActual == if i == 0 then 0.0 else d[i - 1]
    {
      var p := v[i];
      assert v[..i + 1][..i] == v[..i];
      ddActual := ddActual - p;
      if p < 0.0 {
        ddActual := 0.0;
      }
      d := d + [ddActual];
    }
    assert v[..|v|] == v;
  }

  lemma {:induction false} Dd2Prefix(v: seq<real>, k: nat)
    requires k <= |v|
    ensures Dd2Spec(v)[..k] == Dd2Spec(v[..k])
    decreases |v|
  {
    if k < |v| {
      var init := v[..|v| - 1];
      Dd2Prefix(init, k);
      assert init[..k] == v[..k];
      assert Dd2Spec(v)[..|v| - 1] == Dd2Spec(init);
      assert Dd2Spec(v)[..k] == Dd2Spec(v)[..|v| - 1][..k];
    } else {
      assert v[..k] == v;
    }
  }

  /** The entry rule of `dd2`, stated position by position. */
  lemma Dd2Step(v: seq<real>, i: nat)
    requires i < |v|
    ensures Dd2Spec(v)[i] == if v[i] < 0.0 then 0.0 else (if i == 0 then 0.0 else Dd2Spec(v)[i - 1]) - v[i]
  {
    Dd2Prefix(v, i + 1);
    var w := v[..i + 1];
    assert w[..|w| - 1] == v[..i];
    Dd2Prefix(v, i);
    assert Dd2Spec(v)[i] == Dd2Spec(w)[i];
    if i > 0 {
      assert Dd2Spec(v)[i - 1] == Dd2Spec(v[..i])[i - 1];
    }
  }

  /** Closed form of `dd2`: at a trade that is not a loss, the entry is minus
      the sum of the values since the last losing trade (or since the start). */
  lemma {:induction false} Dd2ClosedForm(v: seq<real>, k: nat, i: nat)
    requires k <= i < |v|
    requires k == 0 || v[k - 1] < 0.0
    requires forall j :: k <= j <= i ==> v[j] >= 0.0
    ensures Dd2Spec(v)[i] == -Sum(v[k..i + 1])
    decreases i
  {
    Dd2Step(v, i);
    if i == k {
      if k > 0 {
        Dd2Step(v, k - 1);
      }
      assert v[k..i + 1] == [v[i]];
      assert v[k..i + 1][..0] == [];
    } else {
      Dd2ClosedForm(v, k, i - 1);
      assert v[k..i + 1][..i - k] == v[k..i];
    }
  }

  /** Every `dd2` entry is at most 0. */
  lemma {:induction false} Dd2NonPositive(v: seq<real>, i: nat)
    requires i < |v|
    ensures Dd2Spec(v)[i] <= 0.0
    decreases i
  {
    Dd2Step(v, i);
    if i > 0 {
      Dd2NonPositive(v, i - 1);
    }
  }

  // ---------------------------------------------------------------------
  // Stagnation periods

  predicate IsNonZero(x: real) { x != 0.0 }

  /** `[close_time.iloc[dd.index(d)] for d in dd if d != 0]`: for every
      non-zero drawdown value, the close time of the FIRST trade that has
      that same value. */
  function StagnationMoments(dd: seq<real>, close: seq<int>): (m: seq<int>)
    requires |close| == |dd|
    ensures |m| == |Keep(dd, IsNonZero)|
  {
    var nz := Keep(dd, IsNonZero);
    KeepMembers(dd, IsNonZero);
    seq(|nz|, k requires 0 <= k < |nz| => close[IndexOf(dd, nz[k])])
  }

  /** `pd.Series(s).diff().to_list()[1:]`: differences of neighbours. */
  function Diffs(s: seq<int>): (r: seq<int>)
    ensures |r| == if s == [] then 0 else |s| - 1
    ensures forall k :: 0 <= k < |r| ==> s[k] + r[k] == s[k + 1]
  {
    if s == [] then [] else seq(|s| - 1, k requires 0 <= k < |s| - 1 => s[k + 1] - s[k])
  }

  /** Stagnation periods: one fewer than the non-zero drawdown entries, or
      none at all. */
  function StagnationPeriods(ops: seq<Operation>, pipsMode: bool): (r: seq<int>)
    ensures var k := |Keep(Drawdown(Column(ops, pipsMode)), IsNonZero)|;
      |r| == if k == 0 then 0 else k - 1
  {
    Diffs(StagnationMoments(Drawdown(Column(ops, pipsMode)), CloseTimes(ops)))
  }

  /** Each moment is the close time of the first trade whose drawdown equals
      the k-th non-zero drawdown value. */
  lemma StagnationFirstOccurrence(dd: seq<real>, close: seq<int>, k: nat)
    requires |close| == |dd|
    requires k < |Keep(dd, IsNonZero)|
    ensures exists j :: (0 <= j < |dd| && dd[j] == Keep(dd, IsNonZero)[k] && dd[j] != 0.0 &&
      StagnationMoments(dd, close)[k] == close[j] &&
      (forall i :: 0 <= i < j ==> dd[i] != dd[j]))
  {
    var nz := Keep(dd, IsNonZero);
    KeepMembers(dd, IsNonZero);
    var j := IndexOf(dd, nz[k]);
    assert dd[j] == nz[k];
  }

  // ---------------------------------------------------------------------
  // Exposure: trades lying inside a trade's interval

  /** `inner` opens no earlier and closes no later than `outer` (both inclusive). */
  predicate Within(outer: Operation, inner: Operation) {
    inner.openTime >= outer.openTime && inner.closeTime <= outer.closeTime
  }

  /** Positions `j < k` of the trades within `o`, ascending
      (`df[(Open >= o.open) & (Close <= o.close)].index`). */
  function WithinIndices(ops: seq<Operation>, o: Operation, k: nat): (r: seq<nat>)
    requires k <= |ops|
    ensures forall j: nat :: j in r <==> j < k && Within(o, ops[j])
    ensures forall a, b :: 0 <= a < b < |r| ==> r[a] < r[b]
    ensures forall a :: 0 <= a < |r| ==> r[a] < k
    decreases k
  {
    if k == 0 then []
    else WithinIndices(ops, o, k - 1) + (if Within(o, ops[k - 1]) then [k - 1] else [])
  }

  /** Total volume of the trades `j < k` within `o`. */
  function VolumeWithin(ops: seq<Operation>, o: Operation, k: nat): real
    requires k <= |ops|
    decreases k
  {
    if k == 0 then 0.0
    else VolumeWithin(ops, o, k - 1) + (if Within(o, ops[k - 1]) then ops[k - 1].volume else 0.0)
  }

  /** `exposures`: for every trade, how many trades and how much volume lie
      within its interval. */
  method Exposures(ops: seq<Operation>) returns (exp: seq<nat>, vols: seq<real>)
    ensures |exp| == |ops| && |vols| == |ops|
    ensures forall i :: 0 <= i < |ops| ==>
      exp[i] == |WithinIndices(ops, ops[i], |ops|)| && vols[i] == VolumeWithin(ops, ops[i], |ops|)
  {
    exp, vols := [], [];
    for i := 0 to |ops|
      invariant |exp| == i && |vols| == i
      invariant forall j :: 0 <= j < i ==>
        exp[j] == |WithinIndices(ops, ops[j], |ops|)| && vols[j] == VolumeWithin(ops, ops[j], |ops|)
    {
      var within := WithinIndices(ops, ops[i], |ops|);
      exp := exp + [|within|];
      vols := vols + [VolumeWithin(ops, ops[i], |ops|)];
    }
  }

  /** Every trade lies within its own interval, so every exposure count is
      between 1 and the number of trades. */
  lemma ExposureBounds(ops: seq<Operation>, i: nat)
    requires i < |ops|
    ensures 1 <= |WithinIndices(ops, ops[i], |ops|)| <= |ops|
  {
    var r := WithinIndices(ops, ops[i], |ops|);
    assert i in r;
    AscendingBelowLength(r, |ops|);
  }

  /** A strictly ascending sequence of numbers below `n` has at most `n` entries. */
  lemma {:induction false} AscendingBelowLength(r: seq<nat>, n: nat)
    requires forall a, b :: 0 <= a < b < |r| ==> r[a] < r[b]
    requires forall a :: 0 <= a < |r| ==> r[a] < n
    ensures |r| <= n
    decreases n
  {
    if r != [] {
      var init := r[..|r| - 1];
      assert forall a :: 0 <= a < |init| ==> init[a] < r[|r| - 1];
      AscendingBelowLength(init, r[|r| - 1]);
    }
  }

  /** With non-negative volumes, a trade's exposure volume is at least its own volume. */
  lemma {:induction false} ExposureVolumeOwn(ops: seq<Operation>, i: nat, k: nat)
    requires i < k <= |ops|
    requires forall j :: 0 <= j < |ops| ==> ops[j].volume >= 0.0
    ensures VolumeWithin(ops, ops[i], k) >= ops[i].volume
    decreases k
  {
    if i < k - 1 {
      ExposureVolumeOwn(ops, i, k - 1);
    } else {
      VolumeWithinNonNegative(ops, ops[i], k - 1);
    }
  }

  lemma {:induction false} VolumeWithinNonNegative(ops: seq<Operation>, o: Operation, k: nat)
    requires k <= |ops|
    requires forall j :: 0 <= j < |ops| ==> ops[j].volume >= 0.0
    ensures VolumeWithin(ops, o, k) >= 0.0
    decreases k
  {
    if k > 0 {
      VolumeWithinNonNegative(ops, o, k - 1);
    }
  }

  // ---------------------------------------------------------------------
  // Removing overlapping operations

  /** Trade `j` neither contains nor lies within any other trade. */
  predicate Isolated(ops: seq<Operation>, j: nat)
    requires j < |ops|
  {
    forall i :: 0 <= i < |ops| && i != j ==> !Within(ops[i], ops[j]) && !Within(ops[j], ops[i])
  }

  /** Trade `i`'s interval holds some other trade besides itself, so the loop
      removes every trade within it; `j` is one of those. */
  predicate RemovedBy(ops: seq<Operation>, i: nat, j: nat)
    requires i < |ops|
  {
    |WithinIndices(ops, ops[i], |ops|)| > 1 && j in WithinIndices(ops, ops[i], |ops|)
  }

  /** A trade survives the loop exactly when it is isolated. */
  lemma RemovedIffOverlaps(ops: seq<Operation>, j: nat)
    requires j < |ops|
    ensures (forall i :: 0 <= i < |ops| ==> !RemovedBy(ops, i, j)) <==> Isolated(ops, j)
  {
    var n := |ops|;
    if exists i :: 0 <= i < n && RemovedBy(ops, i, j) {
      var i :| 0 <= i < n && RemovedBy(ops, i, j);
      var w := WithinIndices(ops, ops[i], n);
      if i == j {
        assert w[0] != w[1];
        var other := if w[0] != j then w[0] else w[1];
        assert other in w && other != j;
        assert Within(ops[j], ops[other]);
      } else {
        assert Within(ops[i], ops[j]);
      }
    } else {
      forall i | 0 <= i < n && i != j
        ensures !Within(ops[i], ops[j]) && !Within(ops[j], ops[i])
      {
        if Within(ops[i], ops[j]) {
          TwoWithin(ops, i, i, j);
          assert RemovedBy(ops, i, j);
        }
        if Within(ops[j], ops[i]) {
          TwoWithin(ops, j, j, i);
          assert RemovedBy(ops, j, j);
        }
      }
    }
  }

  /** Two different trades within trade `o` make its set of such trades larger than one. */
  lemma TwoWithin(ops: seq<Operation>, o: nat, a: nat, b: nat)
    requires o < |ops| && a < |ops| && b < |ops| && a != b
    requires Within(ops[o], ops[a]) && Within(ops[o], ops[b])
    ensures |WithinIndices(ops, ops[o], |ops|)| > 1
    ensures a in WithinIndices(ops, ops[o], |ops|) && b in WithinIndices(ops, ops[o], |ops|)
  {
    var w := WithinIndices(ops, ops[o], |ops|);
    assert a in w && b in w;
  }

  /** No trade among the first `k` removes trade `j`. */
  predicate SurvivesUpTo(ops: seq<Operation>, k: nat, j: nat)
    requires k <= |ops|
  {
    forall i :: 0 <= i < k ==> !RemovedBy(ops, i, j)
  }

  /** The index set `set(range(n))`. */
  function Indices(n: nat): (r: set<nat>)
    ensures forall j: nat :: j in r <==> j < n
  {
    if n == 0 then {} else Indices(n - 1) + {n - 1}
  }

  /** `remove_overlapping_ops`: each index of the original set is visited in
      ascending order; when its interval holds another trade, every trade in
      it is dropped from the index set. The model returns the kept trades
      in ascending position, with their positions; the source returns them
      in the iteration order of its final set. */
  method RemoveOverlappingOps(ops: seq<Operation>) returns (kept: seq<Operation>, positions: seq<nat>)
    ensures |kept| == |positions|
    ensures forall a, b :: 0 <= a < b < |positions| ==> positions[a] < positions[b]
    ensures forall a :: 0 <= a < |positions| ==> positions[a] < |ops| && kept[a] == ops[positions[a]]
    ensures forall j :: 0 <= j < |ops| ==> (j in positions <==> Isolated(ops, j))
  {
    var n := |ops|;
    var indices := SurvivingIndices(ops);
    positions := Ascending(indices, n);
    kept := seq(|positions|, a requires 0 <= a < |positions| => ops[positions[a]]);
    forall j | 0 <= j < n ensures j in positions <==> Isolated(ops, j) {
      assert j in indices <==> SurvivesUpTo(ops, n, j);
      RemovedIffOverlaps(ops, j);
    }
  }

  /** The loop of `remove_overlapping_ops` over `set(range(n))`: the indices
      no trade removes. */
  method SurvivingIndices(ops: seq<Operation>) returns (indices: set<nat>)
    ensures forall j: nat :: j in indices <==> j < |ops| && SurvivesUpTo(ops, |ops|, j)
  {
    var n := |ops|;
    indices := Indices(n);
    for idx := 0 to n
      invariant forall j: nat :: j in indices <==> j < n && SurvivesUpTo(ops, idx, j)
    {
      ghost var before := indices;
      var duplicated := WithinIndices(ops, ops[idx], n);
      if |duplicated| > 1 {
        indices := indices - (set j | j in duplicated);
      }
      forall j: nat ensures j in indices <==> j < n && SurvivesUpTo(ops, idx + 1, j) {
        assert j in indices <==> j in before && !RemovedBy(ops, idx, j);
      }
    }
  }

  /** `list(indices)`, taken as the set's members below `n` in ascending
      order. CPython lists a set in hash-table order, and a set rebuilt by
      `difference` with few members left can list them out of order. */
  method Ascending(indices: set<nat>, n: nat) returns (positions: seq<nat>)
    ensures forall a, b :: 0 <= a < b < |positions| ==> positions[a] < positions[b]
    ensures forall a :: 0 <= a < |positions| ==> positions[a] < n
    ensures forall m :: 0 <= m < n ==> (m in positions <==> m in indices)
  {
    positions := [];
    for j := 0 to n
      invariant forall a, b :: 0 <= a < b < |positions| ==> positions[a] < positions[b]
      invariant forall a :: 0 <= a < |positions| ==> positions[a] < j
      invariant forall m :: 0 <= m < j ==> (m in positions <==> m in indices)
    {
      if j in indices {
        positions := positions + [j];
      }
    }
  }

  // ---------------------------------------------------------------------
  // Time in market

  /** What trade `i` adds to the time in market: up to its close from the
      previous trade's close when it opened before that close, else its whole
      duration. */
  function AddedTime(ops: seq<Operation>, i: nat): int
    requires 1 <= i < |ops|
  {
    if ops[i].openTime < ops[i - 1].closeTime then ops[i].closeTime - ops[i - 1].closeTime
    else ops[i].duration
  }

  /** `total_time` after the trades `0..k-1`. */
  function TotalTime(ops: seq<Operation>, k: nat): int
    requires 1 <= k <= |ops|
    decreases k
  {
    if k == 1 then ops[0].duration else TotalTime(ops, k - 1) + AddedTime(ops, k - 1)
  }

  /** A span as days, hours, minutes and seconds. */
  datatype Clock = Clock(days: int, hours: int, minutes: int, seconds: int)

  /** The `timedelta` arithmetic at the end of `calculate_time_in_market`:
      `days` is floored, so the other three are always in their clock ranges
      even for a negative total. */
  function Decompose(total: int): (c: Clock)
    ensures 0 <= c.hours < 24 && 0 <= c.minutes < 60 && 0 <= c.seconds < 60
    ensures c.days * 86400 + c.hours * 3600 + c.minutes * 60 + c.seconds == total
  {
    var days := total / 86400;
    var hours := (total - days * 86400) / 3600;
    var minutes := (total - days * 86400 - hours * 3600) / 60;
    var seconds := total - days * 86400 - hours * 3600 - minutes * 60;
    Clock(days, hours, minutes, seconds)
  }

  /** `calculate_time_in_market`, the loop with the accumulator `total_time`. */
  method TimeInMarket(ops: seq<Operation>) returns (r: Result<Clock>)
    ensures ops == [] ==> r == Err(IndexError)
    ensures ops != [] ==> r == Ok(Decompose(TotalTime(ops, |ops|)))
  {
    if |ops| == 0 {
      return Err(IndexError);
    }
    var totalTime := ops[0].duration;
    for idx := 1 to |ops|
      invariant totalTime == TotalTime(ops, idx)
    {
      if ops[idx].openTime < ops[idx - 1].closeTime {
        var addedTime := ops[idx].closeTime - ops[idx - 1].closeTime;
        totalTime := totalTime + addedTime;
      } else {
        totalTime := totalTime + ops[idx].duration;
      }
    }
    r := Ok(Decompose(totalTime));
  }

  function SumDurations(ops: seq<Operation>, k: nat): int
    requires k <= |ops|
    decreases k
  {
    if k == 0 then 0 else SumDurations(ops, k - 1) + ops[k - 1].duration
  }

  /** When every duration is close minus open, time in market never exceeds
      the sum of the durations, and equals it when no trade opens before the
      previous one closed. */
  lemma {:induction false} TimeInMarketBound(ops: seq<Operation>, k: nat)
    requires 1 <= k <= |ops|
    requires DurationsConsistent(ops)
    ensures TotalTime(ops, k) <= SumDurations(ops, k)
    ensures (forall i :: 1 <= i < k ==> ops[i].openTime >= ops[i - 1].closeTime) ==>
      TotalTime(ops, k) == SumDurations(ops, k)
    decreases k
  {
    if k > 1 {
      TimeInMarketBound(ops, k - 1);
    }
  }

  /** A trade nested inside the previous one makes the total SHRINK: trades
      over [0, 100] and [10, 50] give 50 seconds, not 100. */
  lemma TimeInMarketNested(a: Operation, b: Operation)
    requires a.openTime == 0 && a.closeTime == 100 && a.duration == 100
    requires b.openTime == 10 && b.closeTime == 50 && b.duration == 40
    ensures TotalTime([a, b], 2) == 50
  {
  }

  // ---------------------------------------------------------------------
  // Win percentage, gross profit and loss

  predicate IsNonPositive(x: real) { x <= 0.0 }

  /** `count / n * 100`: the share of `count` in `n`, as a percentage. */
  function Share(count: nat, n: nat): real
    requires n > 0
  {
    count as real / n as real * 100.0
  }

  /** A share is a percentage of the whole: `count` parts in `n` are
      `share * n / 100`, and it lies within 0 and 100 when the part does. */
  lemma ShareOfWhole(count: nat, n: nat)
    requires n > 0
    ensures Share(count, n) * n as real == 100.0 * count as real
    ensures count <= n ==> 0.0 <= Share(count, n) <= 100.0
  {
    var q := count as real / n as real;
    assert q * n as real == count as real;
  }

  /** The shares of a part and of the rest add up to 100. */
  lemma ShareComplement(c: nat, d: nat, n: nat)
    requires n > 0 && c + d == n
    ensures Share(c, n) + Share(d, n) == 100.0
  {
    var x, y, m := c as real / n as real, d as real / n as real, n as real;
    assert x * m == c as real && y * m == d as real;
    assert (x + y) * m == x * m + y * m;
    assert (x + y - 1.0) * m == 0.0;
    assert x + y == 1.0;
    assert x * 100.0 + y * 100.0 == (x + y) * 100.0;
  }

  /** Percentage of trades with a strictly positive value; dividing by the
      number of trades fails on an empty log. */
  function PctWin(v: seq<real>): (r: Result<real>)
    ensures r.Err? <==> v == []
    ensures r.Err? ==> r.error == ZeroDivisionError
    ensures r.Ok? ==> r.value == Share(|Keep(v, IsPositive)|, |v|)
  {
    if |v| == 0 then Err(ZeroDivisionError)
    else Ok(|Keep(v, IsPositive)| as real / |v| as real * 100.0)
  }

  /** `pct_loss`: 100 minus the win percentage. */
  function PctLoss(v: seq<real>): (r: Result<real>)
    ensures r.Err? <==> v == []
  {
    var w :- PctWin(v);
    Ok(100.0 - w)
  }

  /** The win percentage is the share of trades with a positive value, and
      lies within 0 and 100. */
  lemma PctWinShare(v: seq<real>)
    requires v != []
    ensures 0.0 <= PctWin(v).value <= 100.0
    ensures PctWin(v).value * |v| as real == 100.0 * |Keep(v, IsPositive)| as real
  {
    ShareOfWhole(|Keep(v, IsPositive)|, |v|);
  }

  /** Win and loss percentages add up to exactly 100, and the loss percentage
      is the share of trades whose value is not positive. */
  lemma PctWinLoss(v: seq<real>)
    requires v != []
    ensures PctLoss(v).Ok? && PctWin(v).value + PctLoss(v).value == 100.0
    ensures PctLoss(v).value == Share(|Keep(v, IsNonPositive)|, |v|)
    ensures 0.0 <= PctLoss(v).value <= 100.0
  {
    var n, c, d := |v|, |Keep(v, IsPositive)|, |Keep(v, IsNonPositive)|;
    KeepCountPartition(v, IsPositive, IsNonPositive);
    ShareComplement(c, d, n);
    ShareOfWhole(d, n);
    assert PctLoss(v) == Ok(100.0 - PctWin(v).value);
  }

  /** `gross_profit`: the sum of the values that are at least 0. */
  function GrossProfit(v: seq<real>): (g: real)
    ensures g >= 0.0
  {
    var k := Keep(v, IsNonNegative);
    KeepMembers(v, IsNonNegative);
    SumNonNegative(k);
    Sum(k)
  }

  /** `gross_loss`: the sum of the values below 0. */
  function GrossLoss(v: seq<real>): (g: real)
    ensures g <= 0.0
  {
    NegativeSumSign(v);
    NegativeSum(v)
  }

  /** Gross profit and gross loss together are the net result, and zero
      values make gross profit the same sum the profit factor uses. */
  lemma GrossSplit(v: seq<real>)
    ensures GrossProfit(v) + GrossLoss(v) == Sum(v)
    ensures GrossProfit(v) == PositiveSum(v)
  {
    KeepPartition(v, IsNonNegative, IsNegative);
    KeepDropsZeros(v, IsNonNegative, IsPositive);
  }

  // ---------------------------------------------------------------------
  // Averages

  /** Arithmetic mean; `None` is the NaN pandas gives for an empty selection. */
  function Mean(s: seq<real>): (m: Option<real>)
    ensures m.None? <==> s == []
    ensures m.Some? ==> m.value * |s| as real == Sum(s)
  {
    if s == [] then None else Some(Sum(s) / |s| as real)
  }

  /** The sign of a mean follows the sign of the values. */
  lemma MeanSign(s: seq<real>)
    requires s != []
    ensures (forall i :: 0 <= i < |s| ==> s[i] >= 0.0) ==> Mean(s).value >= 0.0
    ensures (forall i :: 0 <= i < |s| ==> s[i] < 0.0) ==> Mean(s).value < 0.0
  {
    Quotient(Sum(s), |s| as real);
    if forall i :: 0 <= i < |s| ==> s[i] >= 0.0 {
      SumNonNegative(s);
    }
    if forall i :: 0 <= i < |s| ==> s[i] < 0.0 {
      SumNegative(s);
    }
  }

  /** Something is selected exactly when some value satisfies the predicate. */
  lemma KeepNonNegativeEmpty(v: seq<real>)
    ensures Keep(v, IsNonNegative) == [] <==> forall i :: 0 <= i < |v| ==> v[i] < 0.0
  {
    if exists i :: 0 <= i < |v| && v[i] >= 0.0 {
      var i :| 0 <= i < |v| && v[i] >= 0.0;
      KeepNonEmpty(v, IsNonNegative, i);
    } else {
      KeepEmpty(v, IsNonNegative);
    }
  }

  lemma KeepNegativeEmpty(v: seq<real>)
    ensures Keep(v, IsNegative) == [] <==> forall i :: 0 <= i < |v| ==> v[i] >= 0.0
  {
    if exists i :: 0 <= i < |v| && v[i] < 0.0 {
      var i :| 0 <= i < |v| && v[i] < 0.0;
      KeepNonEmpty(v, IsNegative, i);
    } else {
      KeepEmpty(v, IsNegative);
    }
  }

  /** The pandas mean of the values that are at least 0, NaN (absent) when
      there are none; 'Avg Win' takes `.item()` of it. */
  function AvgWin(v: seq<real>): (m: Option<real>)
    ensures m.None? <==> forall i :: 0 <= i < |v| ==> v[i] < 0.0
    ensures m.Some? ==> m.value >= 0.0
  {
    var k := Keep(v, IsNonNegative);
    KeepNonNegativeEmpty(v);
    KeepMembers(v, IsNonNegative);
    if k != [] then MeanSign(k); Mean(k) else Mean(k)
  }

  /** The pandas mean of the values below 0, NaN (absent) when there are
      none; 'Avg Loss' takes `.item()` of it. */
  function AvgLoss(v: seq<real>): (m: Option<real>)
    ensures m.None? <==> forall i :: 0 <= i < |v| ==> v[i] >= 0.0
    ensures m.Some? ==> m.value < 0.0
  {
    var k := Keep(v, IsNegative);
    KeepNegativeEmpty(v);
    KeepMembers(v, IsNegative);
    if k != [] then MeanSign(k); Mean(k) else Mean(k)
  }

  // ---------------------------------------------------------------------
  // Closing days, best and worst operations, other one-liners

  /** A calendar date; which date a time falls on is given from outside. */
  datatype Date = Date(year: int, month: int, day: int)

  /** `calculate_closing_days`: the number of distinct close dates. */
  function ClosingDays(ops: seq<Operation>, dateOf: int -> Date): (n: nat)
    ensures ops == [] ==> n == 0
    ensures ops != [] ==> 1 <= n <= |ops|
  {
    var dates := seq(|ops|, i requires 0 <= i < |ops| => dateOf(ops[i].closeTime));
    DistinctLength(dates);
    assert ops != [] ==> dates[0] in Distinct(dates);
    |Distinct(dates)|
  }

  lemma {:induction false} DistinctLength<T(!new)>(s: seq<T>)
    ensures |Distinct(s)| <= |s|
    decreases |s|
  {
    if s != [] {
      DistinctLength(s[..|s| - 1]);
    }
  }

  /** The closing days are exactly the number of distinct close dates. */
  lemma ClosingDaysCount(ops: seq<Operation>, dateOf: int -> Date)
    ensures ClosingDays(ops, dateOf) ==
      |set i | 0 <= i < |ops| :: dateOf(ops[i].closeTime)|
  {
    var dates := seq(|ops|, i requires 0 <= i < |ops| => dateOf(ops[i].closeTime));
    var d := Distinct(dates);
    var left := set i | 0 <= i < |ops| :: dateOf(ops[i].closeTime);
    var right := set x | x in d;
    forall x | x in left ensures x in right {
      var i :| 0 <= i < |ops| && x == dateOf(ops[i].closeTime);
      assert dates[i] == x;
    }
    forall x | x in right ensures x in left {
      assert x in dates;
      var i :| 0 <= i < |dates| && dates[i] == x;
      assert dateOf(ops[i].closeTime) == x;
    }
    assert left == right;
    NoDuplicatesCard(d);
  }

  /** A sequence without repeated elements has as many elements as its set. */
  lemma {:induction false} NoDuplicatesCard<T>(d: seq<T>)
    requires forall i, j :: 0 <= i < j < |d| ==> d[i] != d[j]
    ensures |set x | x in d| == |d|
    decreases |d|
  {
    if d != [] {
      var init := d[..|d| - 1];
      NoDuplicatesCard(init);
      assert (set x | x in d) == (set x | x in init) + {d[|d| - 1]};
      assert d[|d| - 1] !in (set x | x in init);
    }
  }

  /** A trade's extreme value, scaled, with the close time of the first trade
      that reaches it. */
  datatype Extreme = Extreme(magnitude: real, moment: int)

  /** `best_operation`: the largest value times 10 in pips mode or times 1 in
      money mode; `idxmax` of an empty column raises. */
  function BestOperation(ops: seq<Operation>, pipsMode: bool): (r: Result<Extreme>)
    ensures r.Err? <==> ops == []
    ensures r.Err? ==> r.error == ValueError
    ensures var v := Column(ops, pipsMode);
      r.Ok? ==> exists k :: (0 <= k < |ops| &&
        r.value.magnitude == (if pipsMode then 10.0 else 1.0) * v[k] &&
        r.value.moment == ops[k].closeTime &&
        (forall j :: 0 <= j < |ops| ==> v[j] <= v[k]) &&
        (forall j :: 0 <= j < k ==> v[j] < v[k]))
  {
    if ops == [] then Err(ValueError)
    else
      var v := Column(ops, pipsMode);
      var k := ArgMax(v);
      Ok(Extreme((if pipsMode then 10.0 else 1.0) * v[k], ops[k].closeTime))
  }

  /** `worst_operation`: the smallest value times 1 in pips mode or times 10
      in money mode (the factors of `best_operation` swapped). */
  function WorstOperation(ops: seq<Operation>, pipsMode: bool): (r: Result<Extreme>)
    ensures r.Err? <==> ops == []
    ensures r.Err? ==> r.error == ValueError
    ensures var v := Column(ops, pipsMode);
      r.Ok? ==> exists k :: (0 <= k < |ops| &&
        r.value.magnitude == (if pipsMode then 1.0 else 10.0) * v[k] &&
        r.value.moment == ops[k].closeTime &&
        (forall j :: 0 <= j < |ops| ==> v[k] <= v[j]) &&
        (forall j :: 0 <= j < k ==> v[k] < v[j]))
  {
    if ops == [] then Err(ValueError)
    else
      var v := Column(ops, pipsMode);
      var k := ArgMin(v);
      Ok(Extreme((if pipsMode then 1.0 else 10.0) * v[k], ops[k].closeTime))
  }

  /** `calculate_total_time`: last close minus first open. */
  function BacktestTime(ops: seq<Operation>): (r: Result<int>)
    ensures r.Err? <==> ops == []
    ensures r.Err? ==> r.error == IndexError
    ensures r.Ok? ==> r.value + ops[0].openTime == ops[|ops| - 1].closeTime
  {
    if ops == [] then Err(IndexError) else Ok(ops[|ops| - 1].closeTime - ops[0].openTime)
  }

  /** `calculate_rf`: gross profit over the absolute deepest drawdown. A zero
      drawdown divides by zero (0/0 is Decimal's InvalidOperation, anything
      else over 0 its DivisionByZero); an empty log gives NaN (`None`). */
  function RecoveryFactor(v: seq<real>): (r: Result<Option<real>>)
    ensures v == [] ==> r == Ok(None)
    ensures v != [] ==> (r.Err? <==> MaxDrawdown(v).value == 0.0)
    ensures r.Err? ==> r.error == if GrossProfit(v) == 0.0 then InvalidOperation else ZeroDivisionError
    ensures r.Ok? && r.value.Some? ==> r.value.value >= 0.0
    ensures v != [] && r.Ok? ==> MaxDrawdown(v).value < 0.0 && r == Ok(Some(GrossProfit(v) / -MaxDrawdown(v).value))
  {
    RecoveryRatio(GrossProfit(v), MaxDrawdown(v))
  }

  /** Gross profit `gp` over minus the drawdown `dd` (`None` for NaN). */
  function RecoveryRatio(gp: real, dd: Option<real>): (r: Result<Option<real>>)
    requires gp >= 0.0
    requires dd.Some? ==> dd.value <= 0.0
    ensures dd.None? ==> r == Ok(None)
    ensures dd.Some? ==> (r.Err? <==> dd.value == 0.0)
    ensures r.Err? ==> r.error == if gp == 0.0 then InvalidOperation else ZeroDivisionError
    ensures r.Ok? && r.value.Some? ==> dd.Some? && r.value.value >= 0.0 && r.value.value * dd.value == -gp
    ensures dd.Some? && dd.value < 0.0 ==> r == Ok(Some(gp / -dd.value))
  {
    match dd
    case None => Ok(None)
    case Some(d) =>
      if d == 0.0 then
        if gp == 0.0 then Err(InvalidOperation) else Err(ZeroDivisionError)
      else
        Quotient(gp, -d);
        Ok(Some(gp / -d))
  }
}
