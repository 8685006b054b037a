/** What every backtest parser shares: the enumerations and their text
    forms, the direction multiplier of each trade, the precision of a price
    and the pip value of each trade. The same helpers exist three times in
    the source (the parser base class, the older parser base class and the
    free functions of the script module); they behave alike and are modelled
    once. */
module BtParser {
  import opened Wrappers
  import opened Series
  import opened Text

  datatype BtPeriod = IS | OS | ISOS
  datatype BtOrderType = Buy | Sell | Both
  datatype BtPlatform = MT4 | MT5 | GBX | STM

  function PeriodValue(p: BtPeriod): int {
    match p
    case IS => 0
    case OS => 1
    case ISOS => 2
  }

  function OrderTypeValue(t: BtOrderType): int {
    match t
    case Buy => -1
    case Sell => 1
    case Both => 0
  }

  function PlatformValue(p: BtPlatform): int {
    match p
    case MT4 => 0
    case MT5 => 1
    case GBX => 2
    case STM => 3
  }

  /** The separator between a file's stem and its extension, and between
      the fields of a Genbox file stem. */
  const EXTENSION_SEP: char := '.'
  const GENBOX_FIELD_SEP: char := '_'

  /** `UKN = 0` repeats the value of MT4, so the enumeration makes `UKN` a
      second name for MT4 rather than a member of its own. */
  const UKN: BtPlatform := MT4

  /** `BtPlatform.__str__`: the text MetaTrader 4 reports is the text of
      exactly the platforms sharing the value of `UKN`. */
  function PlatformToText(p: BtPlatform): (t: string)
    ensures t != "UNKNOWN"
    ensures t == "METATRADER4" <==> PlatformValue(p) == PlatformValue(UKN)
  {
    match p
    case MT4 => "METATRADER4"
    case MT5 => "METATRADER5"
    case GBX => "GENBOX"
    case STM => "STATEMENT"
  }

  /** The unknown platform is reported as MetaTrader 4: its `'UNKNOWN'` arm
      can never be reached. */
  lemma UnknownPlatformText()
    ensures PlatformValue(UKN) == PlatformValue(MT4)
    ensures PlatformToText(UKN) == "METATRADER4"
    ensures forall p: BtPlatform :: PlatformToText(p) != "UNKNOWN"
  {
  }

  /** Distinct platforms have distinct texts. */
  lemma PlatformTextInjective(p: BtPlatform, q: BtPlatform)
    ensures PlatformToText(p) == PlatformToText(q) ==> p == q
  {
  }

  /** `BtPeriod.__str__`; reading the text back as `_bt_period` does gives
      the period again. */
  function PeriodToText(p: BtPeriod): (t: string)
    ensures (if t == "IS" then IS else if t == "OS" then OS else ISOS) == p
  {
    match p
    case IS => "IS"
    case OS => "OS"
    case ISOS => "ISOS"
  }

  /** `BtOrderType.__str__`: a trade of this text is a buy exactly for
      `Buy` and a sell exactly for `Sell`, in the lower-case comparison the
      pip direction uses. */
  function OrderTypeToText(t: BtOrderType): (s: string)
    ensures IsBuy(s) <==> t == Buy
    ensures IsSell(s) <==> t == Sell
  {
    assert Lower("Buy") == "buy";
    assert Lower("Sell") == "sell";
    assert Lower("Buy&Sell") == "buy&sell";
    match t
    case Buy => "Buy"
    case Sell => "Sell"
    case Both => "Buy&Sell"
  }

  /** `from_text_to_ordertype`: only the upper-case names are recognised; any
      other text yields the `ValueError` class (returned, not raised), which
      the model reports as `Err(ValueError)`. */
  function TextToOrderType(text: string): (r: Result<BtOrderType>)
    ensures r.Ok? <==> text == "BUY" || text == "SELL" || text == "BUY&SELL"
    ensures r.Err? ==> r.error == ValueError
    ensures r.Ok? ==> Upper(OrderTypeToText(r.value)) == text
  {
    assert Upper("Buy") == "BUY";
    assert Upper("Sell") == "SELL";
    assert Upper("Buy&Sell") == "BUY&SELL";
    if text == "BUY" then Ok(Buy)
    else if text == "SELL" then Ok(Sell)
    else if text == "BUY&SELL" then Ok(Both)
    else Err(ValueError)
  }

  /** Upper-casing the text of an order type and reading it back gives the
      order type again. */
  lemma OrderTypeRoundTrip(t: BtOrderType)
    ensures TextToOrderType(Upper(OrderTypeToText(t))) == Ok(t)
  {
    assert Upper("Buy") == "BUY";
    assert Upper("Sell") == "SELL";
    assert Upper("Buy&Sell") == "BUY&SELL";
  }

  /** The reading is case-sensitive: the text form itself is not accepted. */
  lemma OrderTypeTextNotAccepted(t: BtOrderType)
    ensures TextToOrderType(OrderTypeToText(t)) == Err(ValueError)
  {
  }

  // ---------------------------------------------------------------------
  // Direction of each trade

  predicate IsBuy(kind: string) { Lower(kind) == "buy" }
  predicate IsSell(kind: string) { Lower(kind) == "sell" }

  /** The multipliers `get_order_multiplier` collects: +1 per buy, -1 per
      sell, nothing for any other type. */
  function Multipliers(kinds: seq<string>): (m: seq<int>)
    ensures |m| <= |kinds|
    ensures forall i :: 0 <= i < |m| ==> m[i] == 1 || m[i] == -1
    decreases |kinds|
  {
    if kinds == [] then []
    else
      var k := kinds[|kinds| - 1];
      Multipliers(kinds[..|kinds| - 1]) + (if IsBuy(k) then [1] else if IsSell(k) then [-1] else [])
  }

  /** `get_order_multiplier` (and `get_type_multiplier`). */
  method OrderMultiplier(kinds: seq<string>) returns (multiplier: seq<int>)
    ensures multiplier == Multipliers(kinds)
  {
    multiplier := [];
    for i := 0 to |kinds|
      invariant multiplier == Multipliers(kinds[..i])
    {
      assert kinds[..i + 1][..i] == kinds[..i];
      if Lower(kinds[i]) == "buy" {
        multiplier := multiplier + [1];
      } else if Lower(kinds[i]) == "sell" {
        multiplier := multiplier + [-1];
      }
    }
    assert kinds[..|kinds|] == kinds;
  }

  /** When every type is a buy or a sell (in any case), the multipliers line
      up with the trades: +1 for a buy, -1 for a sell. */
  lemma {:induction false} MultipliersAligned(kinds: seq<string>)
    requires forall i :: 0 <= i < |kinds| ==> IsBuy(kinds[i]) || IsSell(kinds[i])
    ensures |Multipliers(kinds)| == |kinds|
    ensures forall i :: 0 <= i < |kinds| ==> Multipliers(kinds)[i] == if IsBuy(kinds[i]) then 1 else -1
    decreases |kinds|
  {
    if kinds != [] {
      MultipliersAligned(kinds[..|kinds| - 1]);
    }
  }

  /** A type that is neither a buy nor a sell is skipped, so the
      multipliers come out shorter than the trades. */
  lemma {:induction false} MultipliersShorter(kinds: seq<string>, i: nat)
    requires i < |kinds| && !IsBuy(kinds[i]) && !IsSell(kinds[i])
    ensures |Multipliers(kinds)| < |kinds|
    decreases |kinds|
  {
    if i < |kinds| - 1 {
      MultipliersShorter(kinds[..|kinds| - 1], i);
    }
  }

  // ---------------------------------------------------------------------
  // Precision of a price

  /** `get_symbol_digits`: the length of the piece after the first '.' of the
      price's text; no '.' means there is no second piece (IndexError). */
  function SymbolDigits(price: string): (r: Result<nat>)
    ensures r.Err? <==> '.' !in price
    ensures r.Err? ==> r.error == IndexError
    ensures r.Ok? ==>
      var rest := price[IndexOf(price, '.') + 1..];
      r.value <= |rest| && ('.' !in rest ==> r.value == |rest|)
  {
    var parts := Split(price, '.');
    if '.' in price then
      var rest := price[IndexOf(price, '.') + 1..];
      SplitFirst(rest, '.');
      assert parts[1] == Split(rest, '.')[0];
      Ok(|parts[1]|)
    else
      assert parts == [price];
      Err(IndexError)
  }

  /** The digits are the characters after the price's only point. */
  lemma DigitsAfterPoint(price: string, i: nat)
    requires i < |price| && price[i] == '.'
    requires forall j :: 0 <= j < |price| && j != i ==> price[j] != '.'
    ensures SymbolDigits(price) == Ok(|price| - i - 1)
  {
    assert IndexOf(price, '.') == i;
    var rest := price[i + 1..];
    assert forall j :: 0 <= j < |rest| ==> rest[j] == price[i + 1 + j];
  }

  /** Every character after the point counts: five for a forex quote, one
      for an index quoted to tenths. */
  lemma SymbolDigitsExample()
    ensures SymbolDigits("1.12345") == Ok(5)
  {
    DigitsAfterPoint("1.12345", 1);
  }

  lemma SymbolDigitsTenths()
    ensures SymbolDigits("110.5") == Ok(1)
  {
    DigitsAfterPoint("110.5", 3);
  }

  /** A price written in scientific notation has no point at all. */
  lemma SymbolDigitsScientific()
    ensures SymbolDigits("1e-05") == Err(IndexError)
  {
    assert '.' !in "1e-05";
  }

  function Pow10(n: nat): (p: nat)
    ensures p >= 1
  {
    if n == 0 then 1 else 10 * Pow10(n - 1)
  }

  /** `get_point_value`: `10 ** (digits - 1)`, a float 0.1 when there are no
      digits; ten points make `10 ** digits`. */
  function PointValue(digits: nat): (p: real)
    ensures p > 0.0
    ensures p * 10.0 == Pow10(digits) as real
  {
    if digits == 0 then 0.1 else Pow10(digits - 1) as real
  }

  // ---------------------------------------------------------------------
  // Points and pips of a trade log

  /** The columns of a trade log the pip computation reads. `openText` is
      the text of the open price as Python writes the float. */
  datatype PriceRow = PriceRow(kind: string, symbol: string, openText: string, openPrice: real, closePrice: real)

  function Symbols(rows: seq<PriceRow>): (s: seq<string>)
    ensures |s| == |rows|
  {
    seq(|rows|, i requires 0 <= i < |rows| => rows[i].symbol)
  }

  function Kinds(rows: seq<PriceRow>): (s: seq<string>)
    ensures |s| == |rows|
  {
    seq(|rows|, i requires 0 <= i < |rows| => rows[i].kind)
  }

  /** Each row's precision is used only when the log has a Symbol column
      holding more than one symbol. */
  predicate PerRowPrecision(rows: seq<PriceRow>, hasSymbol: bool) {
    hasSymbol && |Distinct(Symbols(rows))| > 1
  }

  /** The digits of every open price; the first price without a '.' raises. */
  function AllDigits(texts: seq<string>): (r: Result<seq<nat>>)
    ensures r.Ok? <==> forall i :: 0 <= i < |texts| ==> '.' in texts[i]
    ensures r.Err? ==> r.error == IndexError
    ensures r.Ok? ==> (|r.value| == |texts| &&
      forall i :: 0 <= i < |texts| ==> SymbolDigits(texts[i]) == Ok(r.value[i]))
    decreases |texts|
  {
    if texts == [] then Ok([])
    else
      var d :- SymbolDigits(texts[0]);
      var ds :- AllDigits(texts[1..]);
      assert forall i :: 1 <= i < |texts| ==> texts[i] == texts[1..][i - 1];
      Ok([d] + ds)
  }

  function OpenTexts(rows: seq<PriceRow>): (s: seq<string>)
    ensures |s| == |rows|
  {
    seq(|rows|, i requires 0 <= i < |rows| => rows[i].openText)
  }

  /** `get_points`: either every row's own precision, or the first row's
      precision for every row (IndexError on an empty log). */
  function GetPoints(rows: seq<PriceRow>, hasSymbol: bool): (r: Result<seq<real>>)
    ensures rows == [] ==> r == Err(IndexError)
    ensures r.Err? ==> r.error == IndexError
    ensures r.Ok? ==> |r.value| == |rows|
  {
    if PerRowPrecision(rows, hasSymbol) then
      var ds :- AllDigits(OpenTexts(rows));
      Ok(seq(|ds|, i requires 0 <= i < |ds| => PointValue(ds[i])))
    else if rows == [] then Err(IndexError)
    else
      var d :- SymbolDigits(rows[0].openText);
      Ok(seq(|rows|, _ => PointValue(d)))
  }

  /** The points are each row's own, or all the first row's. */
  lemma GetPointsValues(rows: seq<PriceRow>, hasSymbol: bool)
    requires GetPoints(rows, hasSymbol).Ok?
    ensures var points := GetPoints(rows, hasSymbol).value;
      PerRowPrecision(rows, hasSymbol) ==>
        forall i :: 0 <= i < |rows| ==> (SymbolDigits(rows[i].openText).Ok? &&
          points[i] == PointValue(SymbolDigits(rows[i].openText).value))
    ensures var points := GetPoints(rows, hasSymbol).value;
      !PerRowPrecision(rows, hasSymbol) ==> (SymbolDigits(rows[0].openText).Ok? &&
        forall i :: 0 <= i < |rows| ==> points[i] == PointValue(SymbolDigits(rows[0].openText).value))
  {
    if PerRowPrecision(rows, hasSymbol) {
      var texts := OpenTexts(rows);
      assert forall i :: 0 <= i < |rows| ==> texts[i] == rows[i].openText;
    }
  }

  /** Precision fails exactly when a price it reads has no '.' (or there is
      no first row to read). */
  lemma GetPointsFails(rows: seq<PriceRow>, hasSymbol: bool)
    ensures GetPoints(rows, hasSymbol).Err? <==>
      rows == [] ||
      (PerRowPrecision(rows, hasSymbol) && exists i :: 0 <= i < |rows| && '.' !in rows[i].openText) ||
      (!PerRowPrecision(rows, hasSymbol) && '.' !in rows[0].openText)
  {
    if PerRowPrecision(rows, hasSymbol) {
      var texts := OpenTexts(rows);
      assert forall i :: 0 <= i < |rows| ==> texts[i] == rows[i].openText;
      assert GetPoints(rows, hasSymbol).Err? <==> AllDigits(texts).Err?;
    }
  }

  /** Element-wise product of two numpy arrays: equal lengths multiply
      pairwise, a single element is stretched over the other array, anything
      else cannot be broadcast (ValueError). */
  function Broadcast(a: seq<real>, b: seq<real>): (r: Result<seq<real>>)
    ensures r.Ok? <==> |a| == |b| || |a| == 1 || |b| == 1
    ensures r.Err? ==> r.error == ValueError
    ensures r.Ok? && |b| == |a| ==> |r.value| == |a| && forall i :: 0 <= i < |a| ==> r.value[i] == a[i] * b[i]
    ensures r.Ok? && |b| != |a| && |b| == 1 ==> |r.value| == |a| && forall i :: 0 <= i < |a| ==> r.value[i] == a[i] * b[0]
    ensures r.Ok? && |b| != |a| && |a| == 1 ==> |r.value| == |b| && forall i :: 0 <= i < |b| ==> r.value[i] == a[0] * b[i]
  {
    if |a| == |b| then Ok(seq(|a|, i requires 0 <= i < |a| => a[i] * b[i]))
    else if |b| == 1 then Ok(seq(|a|, i requires 0 <= i < |a| => a[i] * b[0]))
    else if |a| == 1 then Ok(seq(|b|, i requires 0 <= i < |b| => a[0] * b[i]))
    else Err(ValueError)
  }

  /** `[multiple * point for multiple, point in zip(points, multiplier)]`. */
  function Factors(points: seq<real>, multiplier: seq<int>): (f: seq<real>)
    ensures |f| == if |points| < |multiplier| then |points| else |multiplier|
  {
    var n := if |points| < |multiplier| then |points| else |multiplier|;
    seq(n, i requires 0 <= i < n => points[i] * multiplier[i] as real)
  }

  function PriceMoves(rows: seq<PriceRow>): (d: seq<real>)
    ensures |d| == |rows|
  {
    seq(|rows|, i requires 0 <= i < |rows| => rows[i].closePrice - rows[i].openPrice)
  }

  /** The price moves times the points carrying each trade's direction. */
  function SignedPips(rows: seq<PriceRow>, points: seq<real>): Result<seq<real>> {
    Broadcast(PriceMoves(rows), Factors(points, Multipliers(Kinds(rows))))
  }

  /** `get_pips`. */
  function GetPips(rows: seq<PriceRow>, hasSymbol: bool): (r: Result<seq<real>>)
    ensures rows == [] ==> r == Err(IndexError)
    ensures r.Err? ==> r.error == IndexError || r.error == ValueError
    ensures r.Ok? ==> GetPoints(rows, hasSymbol).Ok?
    ensures r.Ok? && |rows| != 1 ==> |r.value| == |rows|
  {
    var points :- GetPoints(rows, hasSymbol);
    SignedPips(rows, points)
  }

  /** The favourable price move of a trade: up for a buy, down otherwise. */
  function Move(row: PriceRow): real {
    if IsBuy(row.kind) then row.closePrice - row.openPrice else row.openPrice - row.closePrice
  }

  /** With only buys and sells, a buy earns (close - open) points and a sell
      (open - close) points, row by row. */
  lemma PipsDirection(rows: seq<PriceRow>, hasSymbol: bool, points: seq<real>)
    requires GetPoints(rows, hasSymbol) == Ok(points)
    requires forall i :: 0 <= i < |rows| ==> IsBuy(rows[i].kind) || IsSell(rows[i].kind)
    ensures GetPips(rows, hasSymbol) == SignedPips(rows, points)
    ensures SignedPips(rows, points).Ok? && |SignedPips(rows, points).value| == |rows|
    ensures forall i :: 0 <= i < |rows| ==> SignedPips(rows, points).value[i] == Move(rows[i]) * points[i]
  {
    SignedPipsDirection(rows, points);
  }

  lemma SignedPipsDirection(rows: seq<PriceRow>, points: seq<real>)
    requires |points| == |rows|
    requires forall i :: 0 <= i < |rows| ==> IsBuy(rows[i].kind) || IsSell(rows[i].kind)
    ensures SignedPips(rows, points).Ok? && |SignedPips(rows, points).value| == |rows|
    ensures forall i :: 0 <= i < |rows| ==> SignedPips(rows, points).value[i] == Move(rows[i]) * points[i]
  {
    SignedPipsAligned(rows, points);
    forall i | 0 <= i < |rows| ensures SignedPips(rows, points).value[i] == Move(rows[i]) * points[i] {
      SignedPipsAt(rows, points, i);
    }
  }

  lemma SignedPipsAligned(rows: seq<PriceRow>, points: seq<real>)
    requires |points| == |rows|
    requires forall i :: 0 <= i < |rows| ==> IsBuy(rows[i].kind) || IsSell(rows[i].kind)
    ensures SignedPips(rows, points).Ok? && |SignedPips(rows, points).value| == |rows|
  {
    MultipliersAligned(Kinds(rows));
  }

  /** One row of `PipsDirection`. */
  lemma SignedPipsAt(rows: seq<PriceRow>, points: seq<real>, i: nat)
    requires |points| == |rows|
    requires forall i :: 0 <= i < |rows| ==> IsBuy(rows[i].kind) || IsSell(rows[i].kind)
    requires i < |rows|
    ensures SignedPips(rows, points).Ok? && |SignedPips(rows, points).value| == |rows|
    ensures SignedPips(rows, points).value[i] ==
      Move(rows[i]) * points[i]
  {
    var kinds := Kinds(rows);
    MultipliersAligned(kinds);
    var m := Multipliers(kinds);
    var f := Factors(points, m);
    var moves := PriceMoves(rows);
    assert kinds[i] == rows[i].kind;
    assert m[i] == if IsBuy(rows[i].kind) then 1 else -1;
    assert f[i] == points[i] * m[i] as real;
    assert |f| == |moves|;
    var pips := Broadcast(moves, f).value;
    assert pips[i] == moves[i] * f[i];
    PipOfRow(moves[i], f[i], points[i], m[i], rows[i]);
  }

  lemma PipOfRow(move: real, factor: real, point: real, sign: int, row: PriceRow)
    requires move == row.closePrice - row.openPrice
    requires factor == point * sign as real
    requires sign == if IsBuy(row.kind) then 1 else -1
    ensures move * factor == Move(row) * point
  {
  }

  /** Once the points are known, the pips exist exactly when the collected
      multipliers can be broadcast against the trades: as many as there are
      trades, a single one, or a log of one trade. */
  lemma PipsBroadcast(rows: seq<PriceRow>, hasSymbol: bool)
    requires GetPoints(rows, hasSymbol).Ok?
    ensures var m := |Multipliers(Kinds(rows))|;
      GetPips(rows, hasSymbol).Ok? <==> m == |rows| || m == 1 || |rows| == 1
  {
  }

  /** The platform tag: exactly two tables mean MetaTrader 4, anything else Genbox. */
  function PlatformOf(tableCount: nat): (p: BtPlatform)
    ensures p == MT4 || p == GBX
  {
    if tableCount == 2 then MT4 else GBX
  }
}
