/** The free-function metrics of the backtest package, where they differ from
    the metrics object: the profit factor without a loss, the loss percentage
    and the averages rounded to whole numbers. Everything else they compute
    is the shared definition in the metrics module. */
module BacktestMetrics {
  import opened Wrappers
  import opened Series
  import opened Metrics

  /** `calculate_pf` as written: with no losing value it evaluates
      `np.inf()`, calling a float, which raises TypeError. */
  function PfAsWritten(v: seq<real>): (r: Result<real>)
    ensures r.Err? <==> forall i :: 0 <= i < |v| ==> v[i] >= 0.0
    ensures r.Err? ==> r.error == TypeError
    ensures r.Ok? ==> r.value >= 0.0 && r.value * -NegativeSum(v) == PositiveSum(v)
  {
    match ProfitFactorOf(v)
    case Finite(pf) => Ok(pf)
    case Infinite => Err(TypeError)
  }

  /** Where there is a loss the free function agrees with the intended
      profit factor; a log of winners shows the difference. */
  lemma PfAsWrittenAgrees(v: seq<real>)
    ensures PfAsWritten(v).Ok? <==> ProfitFactorOf(v).Finite?
    ensures PfAsWritten(v).Ok? ==> PfAsWritten(v).value == ProfitFactorOf(v).ratio
  {
  }

  lemma PfOfWinnersRaises()
    ensures PfAsWritten([1.0]) == Err(TypeError)
    ensures ProfitFactorOf([1.0]) == Infinite
  {
  }

  /** `pct_losser` as written: the win percentage. */
  function PctLosserAsWritten(v: seq<real>): (r: Result<real>)
    ensures r == PctWin(v)
  {
    PctWin(v)
  }

  /** One winner and two losers: the as-written loss percentage is the
      third of winners, the intended one the two thirds of the rest. */
  lemma PctLosserExample()
    ensures PctLosserAsWritten([1.0, -1.0, -1.0]) == Ok(100.0 / 3.0)
    ensures PctLoss([1.0, -1.0, -1.0]) == Ok(200.0 / 3.0)
  {
    var v := [1.0, -1.0, -1.0];
    assert v[..2][..1] == [1.0] && v[..2] == [1.0, -1.0] && [1.0][..0] == [];
    assert Keep(v, IsPositive) == [1.0];
  }

  /** `np.round(x, 0)`: the nearest whole number, a tie going to the even
      neighbour. */
  function RoundHalfEven(x: real): (r: int)
    ensures r as real - 0.5 <= x <= r as real + 0.5
    ensures (x == r as real - 0.5 || x == r as real + 0.5) ==> r % 2 == 0
  {
    var f := x.Floor;
    var d := x - f as real;
    if d < 0.5 then f
    else if d > 0.5 then f + 1
    else if f % 2 == 0 then f
    else f + 1
  }

  /** Whole numbers round to themselves, and rounding keeps the order. */
  lemma RoundWhole(n: int)
    ensures RoundHalfEven(n as real) == n
  {
  }

  lemma RoundMonotone(x: real, y: real)
    requires x <= y
    ensures RoundHalfEven(x) <= RoundHalfEven(y)
  {
  }

  /** `calculate_avg_win`: the mean of the values that are at least 0,
      rounded; with no such value the mean is NaN and `int` of it raises
      ValueError. */
  function AvgWinRounded(v: seq<real>): (r: Result<int>)
    ensures r.Err? <==> forall i :: 0 <= i < |v| ==> v[i] < 0.0
    ensures r.Err? ==> r.error == ValueError
    ensures r.Ok? ==> r.value >= 0 && r.value as real - 0.5 <= AvgWin(v).value <= r.value as real + 0.5
  {
    match AvgWin(v)
    case None => Err(ValueError)
    case Some(m) => Ok(RoundHalfEven(m))
  }

  /** `calculate_avg_loss`: the rounded mean of the values below 0. */
  function AvgLossRounded(v: seq<real>): (r: Result<int>)
    ensures r.Err? <==> forall i :: 0 <= i < |v| ==> v[i] >= 0.0
    ensures r.Err? ==> r.error == ValueError
    ensures r.Ok? ==> r.value <= 0 && r.value as real - 0.5 <= AvgLoss(v).value <= r.value as real + 0.5
  {
    match AvgLoss(v)
    case None => Err(ValueError)
    case Some(m) => Ok(RoundHalfEven(m))
  }

  /** Rounding halves go to the even neighbour: an average win of 2.5 is 2,
      one of 3.5 is 4. */
  lemma AvgWinRoundedTieDown()
    ensures AvgWinRounded([2.0, 3.0, -1.0]) == Ok(2)
  {
    var v := [2.0, 3.0, -1.0];
    assert v[..2][..1] == [2.0] && v[..2] == [2.0, 3.0] && [2.0][..0] == [];
    assert Keep(v, IsNonNegative) == [2.0, 3.0];
    assert [2.0, 3.0][..1] == [2.0];
    assert AvgWin(v) == Some(2.5);
  }

  lemma AvgWinRoundedTieUp()
    ensures AvgWinRounded([3.0, 4.0]) == Ok(4)
  {
    var w := [3.0, 4.0];
    assert w[..1] == [3.0] && [3.0][..0] == [];
    assert Keep(w, IsNonNegative) == [3.0, 4.0];
    assert AvgWin(w) == Some(3.5);
  }
}
