/** The metrics object of the parser package: the table of every metric,
    filled when the object is built, the lookup of one metric by name, and
    the validity check of a backtest against a table of inclusive bounds. */
module BtMetrics {
  import opened Wrappers
  import opened Series
  import opened Trades
  import opened Metrics
  import opened Strikes

  /** The metrics the object knows by name. 'Time in Market' is computed
      into the table but is not among them. */
  const ALL_METRICS: set<string> := set n | n in TABLE_KEYS && n != "Time in Market"

  /** The keys of the table the constructor fills, in its order. */
  const TABLE_KEYS: seq<string> :=
    ["PF", "EP", "DD", "Stagnation Period", "DD2", "Max. Exposure", "Max. Losing Strike",
     "Max. Winning Strike", "Avg. Losing Strike", "Avg. Winning Strike", "Max. Lots", "Min. Lots",
     "Time in Market", "Pct. Win", "Pct. Loss", "Closing Days", "SQN", "Sharpe", "Best Op", "Worst Op",
     "Avg Win", "Avg Loss", "Backtest Time", "Gross Profit", "Gross Loss", "Kratio", "RF", "Num Ops"]

  /** What a metric holds: a number (a `Decimal`, an `int` or a float), the
      Decimal NaN of an empty selection, the infinite profit factor, a time
      span in seconds, a value with the moment it happened, or a span
      broken into days, hours, minutes and seconds. */
  datatype MetricValue =
    | Number(x: real)
    | NaN
    | PlusInfinity
    | Span(seconds: int)
    | Moment(magnitude: real, moment: int)
    | Duration(clock: Clock)

  function OfOption(m: Option<real>): MetricValue {
    match m
    case None => NaN
    case Some(x) => Number(x)
  }

  /** `max` of a list of time spans; ValueError when it is empty. */
  function LongestSpan(s: seq<int>): (r: Result<int>)
    ensures r.Err? <==> s == []
    ensures r.Err? ==> r.error == ValueError
    ensures r.Ok? ==> r.value in s && forall j :: 0 <= j < |s| ==> s[j] <= r.value
    decreases |s|
  {
    if s == [] then Err(ValueError)
    else if |s| == 1 then Ok(s[0])
    else
      var m := LongestSpan(s[..|s| - 1]).value;
      assert s[..|s| - 1][0] in s;
      Ok(if s[|s| - 1] > m then s[|s| - 1] else m)
  }

  /** The volume within each trade's interval (`exposures()[1]`). */
  function ExposureVolumes(ops: seq<Operation>): (vols: seq<real>)
    ensures |vols| == |ops|
  {
    seq(|ops|, i requires 0 <= i < |ops| => VolumeWithin(ops, ops[i], |ops|))
  }

  /** The profit factor as the evidently intended metric: the ratio, or
      infinity when nothing was lost. */
  function PfMetric(v: seq<real>): (m: MetricValue)
    ensures m.PlusInfinity? <==> forall i :: 0 <= i < |v| ==> v[i] >= 0.0
    ensures m.Number? ==> m.x >= 0.0 && m.x * -NegativeSum(v) == PositiveSum(v)
  {
    match ProfitFactorOf(v)
    case Finite(r) => Number(r)
    case Infinite => PlusInfinity
  }

  /** `calculate_pf` as written: the infinite branch builds `Decimal('inf')`
      and then quantizes it to two places, which raises InvalidOperation. */
  function PfAsWritten(v: seq<real>): (r: Result<MetricValue>)
    ensures r.Err? <==> forall i :: 0 <= i < |v| ==> v[i] >= 0.0
    ensures r.Err? ==> r.error == InvalidOperation
    ensures r.Ok? ==> r.value == PfMetric(v)
  {
    match ProfitFactorOf(v)
    case Finite(r) => Ok(Number(r))
    case Infinite => Err(InvalidOperation)
  }

  /** A log with only winning trades has an infinite profit factor, which
      the source cannot quantize. */
  lemma PfOfWinnersOnly()
    ensures PfAsWritten([10.0, 5.0]) == Err(InvalidOperation)
    ensures PfMetric([10.0, 5.0]) == PlusInfinity
    ensures PfMetric([10.0, -5.0]) == Number(2.0)
  {
    var v := [10.0, -5.0];
    assert v[..|v| - 1] == [10.0];
    assert [10.0][..0] == [];
    assert Keep(v, IsPositive) == [10.0];
    assert Keep(v, IsNegative) == [-5.0];
  }

  /** A strike value: the maximum of a counter, or a counter's average. */
  function StrikeNumber(r: Result<nat>): Result<MetricValue> {
    var n :- r;
    Ok(Number(n as real))
  }

  /** The strike counters of the log. The strike metrics are always
      computed in pips, whatever the mode of the object. */
  function StrikeCounters(ops: seq<Operation>): (Counter, Counter) {
    var signs := Signs(Column(ops, true));
    (Tally(StrikeLengths(signs, 1)), Tally(StrikeLengths(signs, -1)))
  }

  /** The four strike entries: the longest losing and winning runs and
      their average lengths. */
  datatype StrikeEntries = StrikeEntries(
    maxLosing: MetricValue, maxWinning: MetricValue, avgLosing: MetricValue, avgWinning: MetricValue)

  /** The strike entries in the order of the table. `max` of a counter with
      no run raises ValueError; once both maxima exist neither average can
      divide by zero. The losing average is the one `get_avg_losing_strike`
      computes, the losing keys weighted by the winning counts; the winning
      average is the mean winning streak. */
  function StrikeValues(ops: seq<Operation>): (r: Result<StrikeEntries>)
    ensures var signs := Signs(Column(ops, true));
      r.Ok? <==> StrikeLengths(signs, 1) != [] && StrikeLengths(signs, -1) != []
    ensures r.Err? ==> r.error == ValueError
    ensures var (wins, losses) := StrikeCounters(ops);
      r.Ok? ==> (AvgLosingStrikeAsWritten(losses, wins).Ok? &&
                 r.value.avgLosing == Number(AvgLosingStrikeAsWritten(losses, wins).value))
    ensures var w := StrikeLengths(Signs(Column(ops, true)), 1);
      r.Ok? ==> r.value.avgWinning == Number(SumNat(w) as real / |w| as real)
  {
    var signs := Signs(Column(ops, true));
    var w, l := StrikeLengths(signs, 1), StrikeLengths(signs, -1);
    MaxStrikeOfTally(w);
    MaxStrikeOfTally(l);
    CounterSums(l);
    CounterSums(w);
    AvgWinningStrikeIsMean(w);
    var (wins, losses) := StrikeCounters(ops);
    var maxLosing :- StrikeNumber(MaxStrike(losses));
    var maxWinning :- StrikeNumber(MaxStrike(wins));
    var avgLosing := Number(AvgLosingStrikeAsWritten(losses, wins).value);
    var avgWinning := Number(AvgWinningStrike(wins).value);
    Ok(StrikeEntries(maxLosing, maxWinning, avgLosing, avgWinning))
  }

  /** `calculate_avg_win`: `.mean().item()` of the values at least 0. The
      mean of an empty selection is the plain float `nan`, which has no
      `item`, so a log without such a value raises AttributeError. */
  function AvgWinItem(v: seq<real>): (r: Result<real>)
    ensures r.Err? <==> forall i :: 0 <= i < |v| ==> v[i] < 0.0
    ensures r.Err? ==> r.error == AttributeError
    ensures r.Ok? ==> r.value >= 0.0 && AvgWin(v) == Some(r.value)
    ensures var k := Keep(v, IsNonNegative);
      r.Ok? ==> r.value * |k| as real == Sum(k)
  {
    var k := Keep(v, IsNonNegative);
    KeepNonNegativeEmpty(v);
    if k == [] then Err(AttributeError)
    else
      Quotient(Sum(k), |k| as real);
      Ok(AvgWin(v).value)
  }

  /** `calculate_avg_loss`: the same over the values below 0. */
  function AvgLossItem(v: seq<real>): (r: Result<real>)
    ensures r.Err? <==> forall i :: 0 <= i < |v| ==> v[i] >= 0.0
    ensures r.Err? ==> r.error == AttributeError
    ensures r.Ok? ==> r.value < 0.0 && AvgLoss(v) == Some(r.value)
    ensures var k := Keep(v, IsNegative);
      r.Ok? ==> r.value * |k| as real == Sum(k)
  {
    var k := Keep(v, IsNegative);
    KeepNegativeEmpty(v);
    if k == [] then Err(AttributeError)
    else
      Quotient(Sum(k), |k| as real);
      Ok(AvgLoss(v).value)
  }

  /** The entries of the table whose computation can raise on a log that
      has a stagnation period. */
  datatype RaisingEntries = RaisingEntries(
    pf: MetricValue, stagnation: int, strikes: StrikeEntries, sqn: MetricValue, sharpe: MetricValue,
    avgWin: real, avgLoss: real, kratio: MetricValue, rf: Option<real>)

  /** Those entries, in the order of the table. The profit factor comes
      first and raises InvalidOperation on any log without a losing value,
      the empty one included; the expectancy and the drawdown after it only
      quantize, which a Decimal NaN survives; the stagnation period comes
      next. Once they exist the log is not empty, so the entries between the
      ones listed here (the maximum exposure, the lots, the time in market,
      the percentages, the best and worst operations, the backtest time)
      cannot raise. 'Avg Win' raises AttributeError on a log without a value
      at least 0; 'Avg Loss' would on one without a negative value, which the
      profit factor has already refused. */
  function Raising(ops: seq<Operation>, pipsMode: bool, outside: string -> Result<MetricValue>)
    : (r: Result<RaisingEntries>)
    ensures r.Ok? ==> ops != []
    ensures var v := Column(ops, pipsMode);
      (forall i :: 0 <= i < |v| ==> v[i] >= 0.0) ==> r == Err(InvalidOperation)
    ensures var v := Column(ops, pipsMode);
      (exists i :: 0 <= i < |v| && v[i] < 0.0) && StagnationPeriods(ops, pipsMode) == [] ==> r == Err(ValueError)
    ensures r.Ok? ==> r.value.pf == PfMetric(Column(ops, pipsMode)) && r.value.pf.Number?
    ensures var v := Column(ops, pipsMode);
      (ops != [] && (forall i :: 0 <= i < |v| ==> v[i] < 0.0) && StagnationPeriods(ops, pipsMode) != [] &&
       StrikeValues(ops).Ok? && outside("SQN").Ok? && outside("Sharpe").Ok?) ==> r == Err(AttributeError)
    ensures r.Ok? ==> StrikeValues(ops) == Ok(r.value.strikes)
    ensures var v := Column(ops, pipsMode);
      r.Ok? ==> AvgWinItem(v) == Ok(r.value.avgWin) && AvgLossItem(v) == Ok(r.value.avgLoss)
    ensures r.Ok? ==> RecoveryFactor(Column(ops, pipsMode)) == Ok(r.value.rf) && outside("Kratio") == Ok(r.value.kratio)
  {
    var v := Column(ops, pipsMode);
    var pf :- PfAsWritten(v);
    var stagnation :- LongestSpan(StagnationPeriods(ops, pipsMode));
    var strikes :- StrikeValues(ops);
    var sqn :- outside("SQN");
    var sharpe :- outside("Sharpe");
    var avgWin :- AvgWinItem(v);
    var avgLoss := AvgLossItem(v).value;
    var kratio :- outside("Kratio");
    var rf :- RecoveryFactor(v);
    Ok(RaisingEntries(pf, stagnation, strikes, sqn, sharpe, avgWin, avgLoss, kratio, rf))
  }

  /** The table the constructor fills, one field per metric. */
  datatype MetricTable = MetricTable(
    pf: MetricValue, ep: MetricValue, dd: MetricValue, stagnation: MetricValue, dd2: MetricValue,
    maxExposure: MetricValue, maxLosingStrike: MetricValue, maxWinningStrike: MetricValue,
    avgLosingStrike: MetricValue, avgWinningStrike: MetricValue, maxLots: MetricValue, minLots: MetricValue,
    timeInMarket: MetricValue, pctWin: MetricValue, pctLoss: MetricValue, closingDays: MetricValue,
    sqn: MetricValue, sharpe: MetricValue, bestOp: MetricValue, worstOp: MetricValue, avgWin: MetricValue,
    avgLoss: MetricValue, backtestTime: MetricValue, grossProfit: MetricValue, grossLoss: MetricValue,
    kratio: MetricValue, rf: MetricValue, numOps: MetricValue)

  /** The table as the dictionary keyed by metric name. */
  function Dict(t: MetricTable): map<string, MetricValue> {
    map[
      "PF" := t.pf, "EP" := t.ep, "DD" := t.dd, "Stagnation Period" := t.stagnation, "DD2" := t.dd2,
      "Max. Exposure" := t.maxExposure, "Max. Losing Strike" := t.maxLosingStrike,
      "Max. Winning Strike" := t.maxWinningStrike, "Avg. Losing Strike" := t.avgLosingStrike,
      "Avg. Winning Strike" := t.avgWinningStrike, "Max. Lots" := t.maxLots, "Min. Lots" := t.minLots,
      "Time in Market" := t.timeInMarket, "Pct. Win" := t.pctWin, "Pct. Loss" := t.pctLoss,
      "Closing Days" := t.closingDays, "SQN" := t.sqn, "Sharpe" := t.sharpe, "Best Op" := t.bestOp,
      "Worst Op" := t.worstOp, "Avg Win" := t.avgWin, "Avg Loss" := t.avgLoss, "Backtest Time" := t.backtestTime,
      "Gross Profit" := t.grossProfit, "Gross Loss" := t.grossLoss, "Kratio" := t.kratio, "RF" := t.rf,
      "Num Ops" := t.numOps]
  }

  /** The whole table of a non-empty log: the two percentages are shares
      that add up to a hundred, the least lot size is at most the largest,
      and the operation count is the length of the log. */
  function Entries(ops: seq<Operation>, pipsMode: bool, dateOf: int -> Date, e: RaisingEntries): (t: MetricTable)
    requires ops != []
    ensures t.pctWin.Number? && t.pctLoss.Number? && t.pctWin.x + t.pctLoss.x == 100.0
    ensures 0.0 <= t.pctWin.x <= 100.0 && 0.0 <= t.pctLoss.x <= 100.0
    ensures t.maxLots.Number? && t.minLots.Number? && t.minLots.x <= t.maxLots.x
    ensures t.numOps == Number(|ops| as real)
  {
    var v := Column(ops, pipsMode);
    PctWinShare(v);
    PctWinLoss(v);
    var best, worst := BestOperation(ops, pipsMode).value, WorstOperation(ops, pipsMode).value;
    MetricTable(
      e.pf, OfOption(Mean(v)), OfOption(MaxDrawdown(v)), Span(e.stagnation), OfOption(Minimum(Dd2Spec(v))),
      Number(Maximum(ExposureVolumes(ops)).value), e.strikes.maxLosing, e.strikes.maxWinning,
      e.strikes.avgLosing, e.strikes.avgWinning,
      Number(Maximum(Volumes(ops)).value), Number(Minimum(Volumes(ops)).value),
      Duration(Decompose(TotalTime(ops, |ops|))), Number(PctWin(v).value), Number(PctLoss(v).value),
      Number(ClosingDays(ops, dateOf) as real), e.sqn, e.sharpe,
      Moment(best.magnitude, best.moment), Moment(worst.magnitude, worst.moment),
      Number(e.avgWin), Number(e.avgLoss), Span(BacktestTime(ops).value),
      Number(GrossProfit(v)), Number(GrossLoss(v)), e.kratio, OfOption(e.rf), Number(|ops| as real))
  }

  /** The table the constructor fills (`_metrics_functions`); the first
      entry whose computation raises makes the constructor raise, so a log
      without a losing value is never measured, and a log of losses only
      whose earlier entries succeed raises AttributeError at 'Avg Win'.
      SQN, Sharpe and K-ratio are given by `outside`. */
  function Table(ops: seq<Operation>, pipsMode: bool, dateOf: int -> Date, outside: string -> Result<MetricValue>)
    : (r: Result<MetricTable>)
    ensures r.Ok? ==> ops != []
    ensures var v := Column(ops, pipsMode);
      (forall i :: 0 <= i < |v| ==> v[i] >= 0.0) ==> r == Err(InvalidOperation)
    ensures var v := Column(ops, pipsMode);
      (ops != [] && (forall i :: 0 <= i < |v| ==> v[i] < 0.0) && StagnationPeriods(ops, pipsMode) != [] &&
       StrikeValues(ops).Ok? && outside("SQN").Ok? && outside("Sharpe").Ok?) ==> r == Err(AttributeError)
  {
    var e :- Raising(ops, pipsMode, outside);
    Ok(Entries(ops, pipsMode, dateOf, e))
  }

  /** Fewer than two non-zero drawdown entries leave no stagnation period,
      and `max` of none raises ValueError, unless the profit factor has
      already raised InvalidOperation for a log without a losing value. */
  lemma TableWithoutStagnation(ops: seq<Operation>, pipsMode: bool, dateOf: int -> Date, outside: string -> Result<MetricValue>)
    requires |Keep(Drawdown(Column(ops, pipsMode)), IsNonZero)| <= 1
    ensures var v := Column(ops, pipsMode);
      Table(ops, pipsMode, dateOf, outside) ==
        Err(if forall i :: 0 <= i < |v| ==> v[i] >= 0.0 then InvalidOperation else ValueError)
  {
  }

  /** The empty log has no losing value, so its profit factor raises. */
  lemma EmptyLogNotMeasured(pipsMode: bool, dateOf: int -> Date, outside: string -> Result<MetricValue>)
    ensures Table([], pipsMode, dateOf, outside) == Err(InvalidOperation)
  {
  }

  /** Three losses fall to a 2 and then a 5 below their first close. */
  lemma ThreeLossesDrawdown()
    ensures Drawdown([-1.0, -2.0, -3.0]) == [0.0, -2.0, -5.0]
  {
    var v := [-1.0, -2.0, -3.0];
    assert v[..1] == [-1.0] && v[..2] == [-1.0, -2.0] && v[..3] == v;
    assert [-1.0, -2.0][..1] == [-1.0] && [-1.0][..0] == [];
    assert Sum([-1.0]) == -1.0 && Sum([-1.0, -2.0]) == -3.0 && Sum(v) == -6.0;
    var cs := CumSum(v);
    assert cs == [-1.0, -3.0, -6.0];
    assert RunningMax(cs, 2) == -1.0;
  }

  /** Signs +, -, + record one winning run of 0 and one losing run of 1. */
  lemma AlternatingStrikes()
    ensures StrikeLengths([1, -1, 1], 1) == [0]
    ensures StrikeLengths([1, -1, 1], -1) == [1]
  {
    var s := [1, -1, 1];
    assert s[..2] == [1, -1] && [1, -1][..1] == [1];
    assert Runs([1]) == [Run(1, 1)];
    assert Runs([1, -1]) == [Run(1, 1), Run(-1, 1)];
    assert Runs(s) == [Run(1, 1), Run(-1, 1), Run(1, 1)];
  }

  /** A log of three losses in money has two non-zero drawdowns, which
      leave one stagnation period. */
  lemma ThreeLossesStagnate(ops: seq<Operation>)
    requires Column(ops, false) == [-1.0, -2.0, -3.0]
    ensures StagnationPeriods(ops, false) != []
  {
    var v := Column(ops, false);
    ThreeLossesDrawdown();
    var dd := Drawdown(v);
    assert dd[..2] == [0.0, -2.0] && [0.0, -2.0][..1] == [0.0] && [0.0][..0] == [];
    assert Keep(dd, IsNonZero) == [-2.0, -5.0];
  }

  lemma ThreeLossesNegative(ops: seq<Operation>)
    requires Column(ops, false) == [-1.0, -2.0, -3.0]
    ensures var v := Column(ops, false); ops != [] && forall i :: 0 <= i < |v| ==> v[i] < 0.0
  {
  }

  /** Pips +, -, + record both a winning and a losing strike. */
  lemma AlternatingPipsStrikes(ops: seq<Operation>)
    requires Column(ops, true) == [1.0, -1.0, 1.0]
    ensures StrikeValues(ops).Ok?
  {
    assert Signs(Column(ops, true)) == [1, -1, 1];
    AlternatingStrikes();
  }

  /** In money mode, a log of three losses whose pips alternate +, -, +
      passes the profit factor, the stagnation period and both strikes,
      and raises AttributeError at 'Avg Win'. */
  lemma LossesOnlyRaiseAtAvgWin(ops: seq<Operation>, dateOf: int -> Date, outside: string -> Result<MetricValue>)
    requires Column(ops, false) == [-1.0, -2.0, -3.0] && Column(ops, true) == [1.0, -1.0, 1.0]
    requires outside("SQN").Ok? && outside("Sharpe").Ok?
    ensures Table(ops, false, dateOf, outside) == Err(AttributeError)
  {
    ThreeLossesStagnate(ops);
    AlternatingPipsStrikes(ops);
    ThreeLossesNegative(ops);
    LossesOnlyTable(ops, false, dateOf, outside);
  }

  /** The AttributeError case of `Table`, with its condition as a
      precondition so that a caller can establish it piece by piece. */
  lemma LossesOnlyTable(ops: seq<Operation>, pipsMode: bool, dateOf: int -> Date, outside: string -> Result<MetricValue>)
    requires var v := Column(ops, pipsMode);
      ops != [] && (forall i :: 0 <= i < |v| ==> v[i] < 0.0) && StagnationPeriods(ops, pipsMode) != [] &&
      StrikeValues(ops).Ok? && outside("SQN").Ok? && outside("Sharpe").Ok?
    ensures Table(ops, pipsMode, dateOf, outside) == Err(AttributeError)
  {
  }

  /** Entries of a filled table read back: the log has a losing value, so
      the profit factor is the finite ratio; the strike averages are the
      ones the source computes; each other entry is the function of the log
      that defines it. */
  lemma TableValues(ops: seq<Operation>, pipsMode: bool, dateOf: int -> Date, outside: string -> Result<MetricValue>, t: MetricTable)
    requires Table(ops, pipsMode, dateOf, outside) == Ok(t)
    ensures var v := Column(ops, pipsMode);
      ops != [] && (exists i :: 0 <= i < |v| && v[i] < 0.0) &&
      t.pf == PfMetric(v) && t.pf.Number? &&
      t.closingDays == Number(ClosingDays(ops, dateOf) as real) &&
      t.pctWin == Number(PctWin(v).value) &&
      t.pctLoss == Number(PctLoss(v).value) &&
      t.grossProfit == Number(GrossProfit(v)) &&
      t.maxExposure == Number(Maximum(ExposureVolumes(ops)).value) &&
      t.timeInMarket == Duration(Decompose(TotalTime(ops, |ops|))) &&
      (exists i :: 0 <= i < |v| && v[i] >= 0.0) &&
      AvgWinItem(v).Ok? && t.avgWin == Number(AvgWinItem(v).value) &&
      AvgLossItem(v).Ok? && t.avgLoss == Number(AvgLossItem(v).value) &&
      RecoveryFactor(v).Ok? && t.rf == OfOption(RecoveryFactor(v).value) &&
      outside("Kratio").Ok? && t.kratio == outside("Kratio").value
  {
    TableRaising(ops, pipsMode, dateOf, outside, t);
    var e := Raising(ops, pipsMode, outside).value;
    assert t == Entries(ops, pipsMode, dateOf, e);
  }

  /** The strike averages of a filled table: the losing one as
      `get_avg_losing_strike` computes it, the winning one the mean winning
      streak. */
  lemma TableStrikes(ops: seq<Operation>, pipsMode: bool, dateOf: int -> Date, outside: string -> Result<MetricValue>, t: MetricTable)
    requires Table(ops, pipsMode, dateOf, outside) == Ok(t)
    ensures var (wins, losses) := StrikeCounters(ops);
      AvgLosingStrikeAsWritten(losses, wins).Ok? &&
      t.avgLosingStrike == Number(AvgLosingStrikeAsWritten(losses, wins).value)
    ensures var w := StrikeLengths(Signs(Column(ops, true)), 1);
      w != [] && t.avgWinningStrike == Number(SumNat(w) as real / |w| as real)
  {
    TableRaising(ops, pipsMode, dateOf, outside, t);
    var e := Raising(ops, pipsMode, outside).value;
    assert t == Entries(ops, pipsMode, dateOf, e);
    assert StrikeValues(ops) == Ok(e.strikes);
  }

  /** The dictionary is keyed by exactly the names of the table. */
  lemma DictKeys(t: MetricTable)
    ensures forall n :: n in Dict(t) <==> n in TABLE_KEYS
  {
  }

  /** The dictionary holds, under their names, the fields the default
      criteria read and the profit factor. */
  lemma DictEntries(t: MetricTable)
    ensures var d := Dict(t);
      d["Kratio"] == t.kratio && d["RF"] == t.rf && d["Num Ops"] == t.numOps
  {
  }

  lemma DictMoreEntries(t: MetricTable)
    ensures var d := Dict(t);
      d["Max. Exposure"] == t.maxExposure && d["Closing Days"] == t.closingDays
  {
  }

  lemma DictPf(t: MetricTable)
    ensures Dict(t)["PF"] == t.pf
  {
  }

  /** The entries that can raise, read back from a table that was filled. */
  lemma TableRaising(ops: seq<Operation>, pipsMode: bool, dateOf: int -> Date, outside: string -> Result<MetricValue>, t: MetricTable)
    requires Table(ops, pipsMode, dateOf, outside) == Ok(t)
    ensures Raising(ops, pipsMode, outside).Ok? && ops != [] && t == Entries(ops, pipsMode, dateOf, Raising(ops, pipsMode, outside).value)
  {
  }

  // ---------------------------------------------------------------------
  // Criteria

  /** A bound of a criterion: a number, or plus or minus `np.inf`. */
  datatype Limit = Bound(value: real) | PlusInf | MinusInf

  /** One entry of a criteria table: the metric and its inclusive bounds. */
  datatype Criterion = Criterion(name: string, min: Limit, max: Limit)

  const DEFAULT_CRITERIA: seq<Criterion> :=
    [Criterion("Kratio", Bound(0.20), PlusInf),
     Criterion("RF", Bound(8.9), PlusInf),
     Criterion("Num Ops", Bound(250.0), PlusInf),
     Criterion("Max. Exposure", Bound(0.0), Bound(0.22)),
     Criterion("Closing Days", Bound(100.0), PlusInf)]

  /** `metric >= bound`: defined on numbers and infinities; a Decimal NaN
      raises InvalidOperation, a time span or a tuple raises TypeError. */
  function AtLeast(m: MetricValue, l: Limit): (r: Result<bool>)
    ensures r.Ok? <==> m.Number? || m.PlusInfinity?
    ensures r.Err? ==> r.error == (if m.NaN? then InvalidOperation else TypeError)
  {
    match m
    case Number(x) => Ok(match l case Bound(b) => x >= b case PlusInf => false case MinusInf => true)
    case PlusInfinity => Ok(true)
    case NaN => Err(InvalidOperation)
    case _ => Err(TypeError)
  }

  /** `metric <= bound`. */
  function AtMost(m: MetricValue, l: Limit): (r: Result<bool>)
    ensures r.Ok? <==> m.Number? || m.PlusInfinity?
    ensures r.Err? ==> r.error == (if m.NaN? then InvalidOperation else TypeError)
  {
    match m
    case Number(x) => Ok(match l case Bound(b) => x <= b case PlusInf => true case MinusInf => false)
    case PlusInfinity => Ok(l.PlusInf?)
    case NaN => Err(InvalidOperation)
    case _ => Err(TypeError)
  }

  /** `metric >= Min and metric <= Max`; `and` does not evaluate its right
      side once the left is false. */
  function Meets(m: MetricValue, c: Criterion): Result<bool> {
    var low :- AtLeast(m, c.min);
    if !low then Ok(false) else AtMost(m, c.max)
  }

  /** The reference reading of a bound on a comparable value. */
  predicate Above(m: MetricValue, l: Limit)
    requires m.Number? || m.PlusInfinity?
  {
    match l
    case Bound(b) => m.PlusInfinity? || m.x >= b
    case PlusInf => m.PlusInfinity?
    case MinusInf => true
  }

  predicate Below(m: MetricValue, l: Limit)
    requires m.Number? || m.PlusInfinity?
  {
    match l
    case Bound(b) => m.Number? && m.x <= b
    case PlusInf => true
    case MinusInf => false
  }

  /** A comparable value meets a criterion exactly when it lies within both
      bounds. */
  lemma MeetsWithin(m: MetricValue, c: Criterion)
    ensures Meets(m, c).Ok? <==> m.Number? || m.PlusInfinity?
    ensures Meets(m, c).Ok? ==> (Meets(m, c).value <==> Above(m, c.min) && Below(m, c.max))
  {
  }

  /** The first loop of `is_valid`: every criterion's metric looked up
      (`_calculate_one_metric`, IndexError for an unknown name). */
  function Lookup(metrics: map<string, MetricValue>, criteria: seq<Criterion>): (r: Result<()>)
    ensures r.Ok? <==> forall i :: 0 <= i < |criteria| ==> criteria[i].name in ALL_METRICS
    ensures r.Err? ==> r.error == IndexError
    decreases |criteria|
  {
    if criteria == [] then Ok(())
    else if criteria[0].name !in ALL_METRICS then Err(IndexError)
    else
      assert forall i :: 1 <= i < |criteria| ==> criteria[i] == criteria[1..][i - 1];
      Lookup(metrics, criteria[1..])
  }

  /** The second loop of `is_valid`: `res = val and res` over the criteria;
      every comparison is evaluated, so any incomparable metric raises. */
  function Checks(metrics: map<string, MetricValue>, criteria: seq<Criterion>): (r: Result<bool>)
    requires forall i :: 0 <= i < |criteria| ==> criteria[i].name in metrics
    decreases |criteria|
  {
    if criteria == [] then Ok(true)
    else
      var init, c := criteria[..|criteria| - 1], criteria[|criteria| - 1];
      var res :- Checks(metrics, init);
      var val :- Meets(metrics[c.name], c);
      Ok(val && res)
  }

  /** Every criterion's metric is comparable and within its bounds. */
  predicate AllMet(metrics: map<string, MetricValue>, criteria: seq<Criterion>)
    requires forall i :: 0 <= i < |criteria| ==> criteria[i].name in metrics
  {
    forall i :: 0 <= i < |criteria| ==>
      Meets(metrics[criteria[i].name], criteria[i]).Ok? && Meets(metrics[criteria[i].name], criteria[i]).value
  }

  /** The checks succeed exactly when every metric is comparable, and then
      they yield true exactly when every criterion is met. */
  lemma {:induction false} ChecksAll(metrics: map<string, MetricValue>, criteria: seq<Criterion>)
    requires forall i :: 0 <= i < |criteria| ==> criteria[i].name in metrics
    ensures Checks(metrics, criteria).Ok? <==>
      forall i :: 0 <= i < |criteria| ==> Meets(metrics[criteria[i].name], criteria[i]).Ok?
    ensures Checks(metrics, criteria).Ok? ==> (Checks(metrics, criteria).value <==> AllMet(metrics, criteria))
    decreases |criteria|
  {
    if criteria != [] {
      var init := criteria[..|criteria| - 1];
      ChecksAll(metrics, init);
      assert forall i :: 0 <= i < |init| ==> init[i] == criteria[i];
    }
  }

  /** `is_valid` as a function of the table and the criteria. */
  function ValidSpec(metrics: map<string, MetricValue>, criteria: seq<Criterion>): Result<bool>
    requires ALL_METRICS <= metrics.Keys
  {
    var _ :- Lookup(metrics, criteria);
    Checks(metrics, criteria)
  }

  /** `is_valid` answers true exactly when every named metric is known,
      comparable and within its bounds; it raises IndexError for an unknown
      name and a comparison error for an incomparable metric. */
  lemma ValidIff(metrics: map<string, MetricValue>, criteria: seq<Criterion>)
    requires ALL_METRICS <= metrics.Keys
    ensures ValidSpec(metrics, criteria).Ok? <==>
      (forall i :: 0 <= i < |criteria| ==> criteria[i].name in ALL_METRICS) &&
      forall i :: 0 <= i < |criteria| ==> Meets(metrics[criteria[i].name], criteria[i]).Ok?
    ensures ValidSpec(metrics, criteria) == Ok(true) <==>
      (forall i :: 0 <= i < |criteria| ==> criteria[i].name in ALL_METRICS) && AllMet(metrics, criteria)
  {
    if forall i :: 0 <= i < |criteria| ==> criteria[i].name in ALL_METRICS {
      ChecksAll(metrics, criteria);
    }
  }

  /** An empty criteria table accepts every backtest. */
  lemma NoCriteriaValid(metrics: map<string, MetricValue>)
    requires ALL_METRICS <= metrics.Keys
    ensures ValidSpec(metrics, []) == Ok(true)
  {
  }

  /** 'Time in Market' is in the table but cannot be asked for. */
  lemma TimeInMarketUnknown(metrics: map<string, MetricValue>, min: Limit, max: Limit)
    requires ALL_METRICS <= metrics.Keys
    ensures ValidSpec(metrics, [Criterion("Time in Market", min, max)]) == Err(IndexError)
  {
  }

  /** Every metric the default criteria name is known. */
  lemma DefaultNamesKnown()
    ensures forall i :: 0 <= i < |DEFAULT_CRITERIA| ==> DEFAULT_CRITERIA[i].name in ALL_METRICS
  {
    assert "Kratio" == TABLE_KEYS[25] && "RF" == TABLE_KEYS[26] && "Num Ops" == TABLE_KEYS[27];
    assert "Max. Exposure" == TABLE_KEYS[5] && "Closing Days" == TABLE_KEYS[15];
  }

  /** By the default criteria a backtest is valid exactly when its K-ratio is
      at least 0.20, its recovery factor at least 8.9, it has at least 250
      operations, its maximum exposure is between 0 and 0.22 lots and it
      closed on at least 100 days. */
  lemma DefaultCriteriaMeaning(metrics: map<string, MetricValue>, kratio: real, rf: real, n: real, exposure: real, days: real)
    requires ALL_METRICS <= metrics.Keys
    requires "Kratio" in metrics && metrics["Kratio"] == Number(kratio)
    requires "RF" in metrics && metrics["RF"] == Number(rf)
    requires "Num Ops" in metrics && metrics["Num Ops"] == Number(n)
    requires "Max. Exposure" in metrics && metrics["Max. Exposure"] == Number(exposure)
    requires "Closing Days" in metrics && metrics["Closing Days"] == Number(days)
    ensures ValidSpec(metrics, DEFAULT_CRITERIA) ==
      Ok(kratio >= 0.20 && rf >= 8.9 && n >= 250.0 && 0.0 <= exposure <= 0.22 && days >= 100.0)
  {
    var xs := [kratio, rf, n, exposure, days];
    DefaultNamesKnown();
    DefaultLookups(metrics, xs);
    ValidOfNumbers(metrics, DEFAULT_CRITERIA, xs);
    DefaultBounds(xs);
  }

  lemma DefaultLookups(metrics: map<string, MetricValue>, xs: seq<real>)
    requires |xs| == 5
    requires "Kratio" in metrics && metrics["Kratio"] == Number(xs[0])
    requires "RF" in metrics && metrics["RF"] == Number(xs[1])
    requires "Num Ops" in metrics && metrics["Num Ops"] == Number(xs[2])
    requires "Max. Exposure" in metrics && metrics["Max. Exposure"] == Number(xs[3])
    requires "Closing Days" in metrics && metrics["Closing Days"] == Number(xs[4])
    ensures forall i :: 0 <= i < |DEFAULT_CRITERIA| ==>
      (DEFAULT_CRITERIA[i].name in metrics && metrics[DEFAULT_CRITERIA[i].name] == Number(xs[i]))
  {
  }

  lemma DefaultBounds(xs: seq<real>)
    requires |xs| == 5
    ensures InBounds(xs, DEFAULT_CRITERIA) <==>
      xs[0] >= 0.20 && xs[1] >= 8.9 && xs[2] >= 250.0 && 0.0 <= xs[3] <= 0.22 && xs[4] >= 100.0
  {
    assert Between(xs[0], DEFAULT_CRITERIA[0]) <==> xs[0] >= 0.20;
    assert Between(xs[3], DEFAULT_CRITERIA[3]) <==> 0.0 <= xs[3] <= 0.22;
  }

  /** A number lies within a criterion's bounds. */
  predicate Between(x: real, c: Criterion) {
    Above(Number(x), c.min) && Below(Number(x), c.max)
  }

  predicate InBounds(xs: seq<real>, criteria: seq<Criterion>)
    requires |xs| == |criteria|
  {
    forall i :: 0 <= i < |xs| ==> Between(xs[i], criteria[i])
  }

  /** When every metric a table of criteria names is a number, `is_valid`
      answers whether each number lies within its bounds. */
  lemma ValidOfNumbers(metrics: map<string, MetricValue>, criteria: seq<Criterion>, xs: seq<real>)
    requires ALL_METRICS <= metrics.Keys && |xs| == |criteria|
    requires forall i :: 0 <= i < |criteria| ==> criteria[i].name in ALL_METRICS
    requires forall i :: 0 <= i < |criteria| ==> metrics[criteria[i].name] == Number(xs[i])
    ensures ValidSpec(metrics, criteria) == Ok(InBounds(xs, criteria))
  {
    ValidIff(metrics, criteria);
    forall i | 0 <= i < |criteria|
      ensures Meets(metrics[criteria[i].name], criteria[i]) == Ok(Between(xs[i], criteria[i]))
    {
      MeetsWithin(metrics[criteria[i].name], criteria[i]);
    }
  }

  /** A backtest of fewer than 250 operations never passes the default
      criteria. */
  lemma FewOperationsInvalid(metrics: map<string, MetricValue>, n: real)
    requires ALL_METRICS <= metrics.Keys
    requires "Num Ops" in metrics && metrics["Num Ops"] == Number(n) && n < 250.0
    ensures ValidSpec(metrics, DEFAULT_CRITERIA) != Ok(true)
  {
    DefaultNamesKnown();
    ValidIff(metrics, DEFAULT_CRITERIA);
    assert Meets(metrics[DEFAULT_CRITERIA[2].name], DEFAULT_CRITERIA[2]) == Ok(false);
  }

  /** The operation count of a filled table is the length of the log. */
  lemma TableCountsOperations(ops: seq<Operation>, pipsMode: bool, dateOf: int -> Date, outside: string -> Result<MetricValue>, t: MetricTable)
    requires Table(ops, pipsMode, dateOf, outside) == Ok(t)
    ensures t.numOps == Number(|ops| as real)
  {
    TableRaising(ops, pipsMode, dateOf, outside, t);
  }

  /** A recovery factor of 5 fails the default criteria. */
  lemma LowRecoveryInvalid(metrics: map<string, MetricValue>)
    requires ALL_METRICS <= metrics.Keys
    requires "Kratio" in metrics && metrics["Kratio"] == Number(1.0)
    requires "RF" in metrics && metrics["RF"] == Number(5.0)
    requires "Num Ops" in metrics && metrics["Num Ops"] == Number(300.0)
    requires "Max. Exposure" in metrics && metrics["Max. Exposure"] == Number(0.1)
    requires "Closing Days" in metrics && metrics["Closing Days"] == Number(120.0)
    ensures ValidSpec(metrics, DEFAULT_CRITERIA) == Ok(false)
  {
    DefaultCriteriaMeaning(metrics, 1.0, 5.0, 300.0, 0.1, 120.0);
  }

  // ---------------------------------------------------------------------
  // The object

  class BtMetrics {
    /** The trade log of the backtest. */
    const operations: seq<Operation>
    /** Metrics in pips (true) or in money (false). */
    const pipsMode: bool
    /** The table filled at construction (`_metrics_functions`). */
    const metrics: map<string, MetricValue>
    /** The 'Strike Type' column `_get_strikes` writes into the log. */
    var strikeTypes: seq<int>

    /** The table holds every metric the object knows. */
    ghost predicate Filled()
      reads this
    {
      forall n :: n in metrics <==> n in TABLE_KEYS
    }

    constructor (operations: seq<Operation>, pipsMode: bool, table: MetricTable)
      ensures this.operations == operations && this.pipsMode == pipsMode && metrics == Dict(table)
      ensures strikeTypes == []
      ensures Filled()
    {
      this.operations := operations;
      this.pipsMode := pipsMode;
      metrics := Dict(table);
      strikeTypes := [];
      DictKeys(table);
    }

    /** Building the object fills the whole table; the first metric that
        raises makes the construction raise. */
    static method Create(ops: seq<Operation>, pipsMode: bool, dateOf: int -> Date, outside: string -> Result<MetricValue>)
      returns (r: Result<BtMetrics>)
      ensures r.Ok? <==> Table(ops, pipsMode, dateOf, outside).Ok?
      ensures r.Err? ==> r.error == Table(ops, pipsMode, dateOf, outside).error
      ensures r.Ok? ==> (fresh(r.value) && r.value.Filled() && r.value.operations == ops &&
        r.value.pipsMode == pipsMode && r.value.metrics == Dict(Table(ops, pipsMode, dateOf, outside).value))
    {
      var t := Table(ops, pipsMode, dateOf, outside);
      if t.Err? {
        return Err(t.error);
      }
      var m := new BtMetrics(ops, pipsMode, t.value);
      return Ok(m);
    }

    /** `_calculate_one_metric`: the table's entry for a known metric,
        IndexError for any other name. */
    method CalculateOneMetric(name: string) returns (r: Result<MetricValue>)
      requires Filled()
      ensures name in ALL_METRICS ==> name in metrics && r == Ok(metrics[name])
      ensures name !in ALL_METRICS ==> r == Err(IndexError)
    {
      if name in ALL_METRICS {
        return Ok(metrics[name]);
      }
      return Err(IndexError);
    }

    /** `is_valid`: the metrics of the criteria looked up, then `res = val
        and res` over the criteria. */
    method IsValid(criteria: seq<Criterion>) returns (r: Result<bool>)
      requires Filled()
      ensures ALL_METRICS <= metrics.Keys && r == ValidSpec(metrics, criteria)
    {
      var looked := LookUpAll(criteria);
      if looked.Err? {
        return Err(looked.error);
      }
      r := CheckAll(looked.value, criteria);
    }

    /** The first loop of `is_valid`: each criterion's metric, by
        `calculate_one_metric`. */
    method LookUpAll(criteria: seq<Criterion>) returns (r: Result<map<string, MetricValue>>)
      requires Filled()
      ensures ALL_METRICS <= metrics.Keys
      ensures r.Ok? <==> Lookup(metrics, criteria).Ok?
      ensures r.Err? ==> r.error == IndexError
      ensures r.Ok? ==> forall j :: 0 <= j < |criteria| ==>
        criteria[j].name in r.value && r.value[criteria[j].name] == metrics[criteria[j].name]
    {
      var looked: map<string, MetricValue> := map[];
      for k := 0 to |criteria|
        invariant Lookup(metrics, criteria) == Lookup(metrics, criteria[k..])
        invariant forall j :: 0 <= j < k ==> criteria[j].name in ALL_METRICS
        invariant forall j :: 0 <= j < k ==> criteria[j].name in looked && looked[criteria[j].name] == metrics[criteria[j].name]
      {
        var one := CalculateOneMetric(criteria[k].name);
        assert criteria[k..][1..] == criteria[k + 1..];
        if one.Err? {
          return Err(one.error);
        }
        looked := looked[criteria[k].name := one.value];
      }
      assert criteria[|criteria|..] == [];
      r := Ok(looked);
    }

    /** The second loop of `is_valid`, over the looked-up metrics. */
    method CheckAll(looked: map<string, MetricValue>, criteria: seq<Criterion>) returns (r: Result<bool>)
      requires forall j :: 0 <= j < |criteria| ==>
        criteria[j].name in looked && criteria[j].name in metrics && looked[criteria[j].name] == metrics[criteria[j].name]
      ensures r == Checks(metrics, criteria)
    {
      var res := true;
      for k := 0 to |criteria|
        invariant Checks(metrics, criteria[..k]) == Ok(res)
      {
        var c := criteria[k];
        ChecksSnoc(metrics, criteria, k);
        var val := Meets(looked[c.name], c);
        if val.Err? {
          ChecksPrefixFails(metrics, criteria, k + 1);
          return Err(val.error);
        }
        res := val.value && res;
      }
      assert criteria[..|criteria|] == criteria;
      r := Ok(res);
    }

    /** The `valid` property: 'Y' or 'N' by the default criteria. */
    method Valid() returns (r: Result<string>)
      requires Filled()
      ensures ALL_METRICS <= metrics.Keys
      ensures ValidSpec(metrics, DEFAULT_CRITERIA).Ok? <==> r.Ok?
      ensures r.Ok? ==> (r.value == "Y" <==> ValidSpec(metrics, DEFAULT_CRITERIA).value)
      ensures r.Ok? ==> (r.value == "Y" || r.value == "N")
    {
      var v := IsValid(DEFAULT_CRITERIA);
      if v.Err? {
        return Err(v.error);
      }
      return Ok(if v.value then "Y" else "N");
    }

    /** `_get_strikes`: writes the 'Strike Type' column (+1 for a winning
        value, -1 otherwise) and counts the recorded run lengths. */
    method GetStrikes(pips: bool) returns (wins: Counter, losses: Counter)
      modifies this
      ensures strikeTypes == Signs(Column(operations, pips))
      ensures wins == Tally(StrikeLengths(strikeTypes, 1)) && losses == Tally(StrikeLengths(strikeTypes, -1))
    {
      var signs, w, l := StrikeRunLengths(Column(operations, pips));
      strikeTypes := signs;
      wins, losses := Tally(w), Tally(l);
    }
  }

  /** One more criterion: its comparison after those of the prefix. */
  lemma ChecksSnoc(metrics: map<string, MetricValue>, criteria: seq<Criterion>, k: nat)
    requires forall i :: 0 <= i < |criteria| ==> criteria[i].name in metrics
    requires k < |criteria|
    ensures Checks(metrics, criteria[..k + 1]) ==
      (var res :- Checks(metrics, criteria[..k]); var val :- Meets(metrics[criteria[k].name], criteria[k]); Ok(val && res))
  {
    assert criteria[..k + 1][..k] == criteria[..k];
  }

  /** Once a comparison in a prefix fails, the checks of the whole table fail
      the same way. */
  lemma {:induction false} ChecksPrefixFails(metrics: map<string, MetricValue>, criteria: seq<Criterion>, k: nat)
    requires forall i :: 0 <= i < |criteria| ==> criteria[i].name in metrics
    requires k <= |criteria| && Checks(metrics, criteria[..k]).Err?
    ensures Checks(metrics, criteria) == Checks(metrics, criteria[..k])
    decreases |criteria| - k
  {
    if k < |criteria| {
      assert criteria[..k + 1][..k] == criteria[..k];
      ChecksPrefixFails(metrics, criteria, k + 1);
    } else {
      assert criteria[..k] == criteria;
    }
  }

  /** The strike entries are those of the log counted in pips, whatever
      the mode of the object; they exist only when both a winning and a
      losing run were recorded. */
  lemma StrikesInPips(ops: seq<Operation>)
    ensures var signs := Signs(Column(ops, true));
      var wins, losses := Tally(StrikeLengths(signs, 1)), Tally(StrikeLengths(signs, -1));
      StrikeValues(ops).Ok? ==>
        (MaxStrike(wins).Ok? && MaxStrike(losses).Ok? &&
         StrikeValues(ops).value.maxWinning == Number(MaxStrike(wins).value as real) &&
         StrikeValues(ops).value.maxLosing == Number(MaxStrike(losses).value as real))
  {
  }
}
