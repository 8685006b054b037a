/** The normalised trade log every parser produces and every metric reads:
    one record per closed operation, with the thirteen final columns in the
    order the parsers emit them. Times are integer seconds on one time line,
    durations are differences of such times. */
module Trades {
  import opened Series

  datatype Operation = Operation(
    openTime: int,
    closeTime: int,
    sl: real,
    tp: real,
    duration: int,
    kind: string,
    volume: real,
    symbol: string,
    openPrice: real,
    closePrice: real,
    pips: real,
    profit: real,
    balance: real)

  /** The names of the columns, in the order of the fields above. */
  const COLUMNS: seq<string> :=
    ["Open Time", "Close Time", "S/L", "T/P", "Duration", "Type", "Volume", "Symbol", "Open Price",
     "Close Price", "Pips", "Profit", "Balance"]

  /** The column the metrics work on: 'Pips' in pips mode, 'Profit' in money mode. */
  function Column(ops: seq<Operation>, pipsMode: bool): (v: seq<real>)
    ensures |v| == |ops|
  {
    seq(|ops|, i requires 0 <= i < |ops| => if pipsMode then ops[i].pips else ops[i].profit)
  }

  function Volumes(ops: seq<Operation>): (v: seq<real>)
    ensures |v| == |ops|
  {
    seq(|ops|, i requires 0 <= i < |ops| => ops[i].volume)
  }

  function CloseTimes(ops: seq<Operation>): (v: seq<int>)
    ensures |v| == |ops|
  {
    seq(|ops|, i requires 0 <= i < |ops| => ops[i].closeTime)
  }

  /** The 'Duration' column is the close time minus the open time on every row,
      as every parser writes it. */
  predicate DurationsConsistent(ops: seq<Operation>) {
    forall i :: 0 <= i < |ops| ==> ops[i].duration == ops[i].closeTime - ops[i].openTime
  }

  /** The 'Balance' column as every parser fills it: the deposit plus the
      running sum of the profits (`deposit + ops.Profit.cumsum()`). */
  function WithBalance(ops: seq<Operation>, deposit: real): (r: seq<Operation>)
    ensures |r| == |ops|
  {
    var profits := Column(ops, false);
    seq(|ops|, i requires 0 <= i < |ops| => ops[i].(balance := deposit + Sum(profits[..i + 1])))
  }

  /** Each duration is close - open; the balance is the deposit plus the
      running sum of the profits, so it starts at deposit + the first profit
      and then moves by each trade's profit. */
  predicate BalanceFollows(ops: seq<Operation>, deposit: real) {
    DurationsConsistent(ops) &&
    (forall i :: 0 <= i < |ops| ==> ops[i].balance == deposit + Sum(Column(ops, false)[..i + 1])) &&
    (|ops| > 0 ==> ops[0].balance == deposit + ops[0].profit) &&
    forall i :: 0 < i < |ops| ==> ops[i].balance - ops[i - 1].balance == ops[i].profit
  }

  /** Filling the balance keeps every other column and makes the balance
      follow the profits. */
  lemma WithBalanceFollows(ops: seq<Operation>, deposit: real)
    requires DurationsConsistent(ops)
    ensures BalanceFollows(WithBalance(ops, deposit), deposit)
    ensures forall i :: 0 <= i < |ops| ==> WithBalance(ops, deposit)[i] == ops[i].(balance := WithBalance(ops, deposit)[i].balance)
  {
    var r := WithBalance(ops, deposit);
    var profits := Column(ops, false);
    assert Column(r, false) == profits;
    forall i | 0 < i < |r| ensures r[i].balance - r[i - 1].balance == r[i].profit {
      assert profits[..i + 1] == profits[..i] + [profits[i]];
      SumAppend(profits[..i], [profits[i]]);
      assert [profits[i]][..0] == [];
    }
    if |r| > 0 {
      assert profits[..1] == [profits[0]];
      assert [profits[0]][..0] == [];
    }
  }
}
