/** The MetaTrader 4 path of the script module: the symbol read from the
    report header, the grouping of the order history into one operation per
    order, the short forex names, and the classification of report files by
    their number of tables. */
module Mt4 {
  import opened Wrappers
  import opened Series
  import opened Text
  import opened Trades
  import opened BtParser

  const METATRADER: string := "MT4"
  const GENBOX: string := "GBX"

  // ---------------------------------------------------------------------
  // Classification of report files

  /** The tag of a report with `tables` tables. */
  function Tag(tables: nat): string {
    if tables == 2 then METATRADER else GENBOX
  }

  /** The tag agrees with the platform rule of the parser classes. */
  lemma TagIsPlatform(tables: nat)
    ensures Tag(tables) == METATRADER <==> PlatformOf(tables) == MT4
    ensures Tag(tables) == GENBOX <==> PlatformOf(tables) == GBX
  {
  }

  /** `classify_bts`: every file tagged by its number of tables; a file
      listed twice is tagged once. */
  method ClassifyBts(files: seq<string>, tableCount: string -> nat) returns (classification: map<string, string>)
    ensures forall f :: f in classification <==> f in files
    ensures forall f :: f in classification ==> classification[f] == Tag(tableCount(f))
  {
    classification := map[];
    for k := 0 to |files|
      invariant forall f :: f in classification <==> f in files[..k]
      invariant forall f :: f in classification ==> classification[f] == Tag(tableCount(f))
    {
      var file := files[k];
      assert files[..k + 1] == files[..k] + [file];
      if tableCount(file) == 2 {
        classification := classification[file := METATRADER];
      } else {
        classification := classification[file := GENBOX];
      }
    }
    assert files[..|files|] == files;
  }

  /** The first position of a value in a prefix is its first position in
      the whole sequence. */
  lemma IndexOfPrefix<T>(s: seq<T>, k: nat, x: T)
    requires k <= |s| && x in s[..k]
    ensures IndexOf(s[..k], x) == IndexOf(s, x)
  {
    var i, j := IndexOf(s[..k], x), IndexOf(s, x);
    assert s[i] == x;
    assert j <= i;
    assert s[..k][j] == s[j];
  }

  // ---------------------------------------------------------------------
  // Symbols

  /** The symbol `parse_mt4_html` reads from header cell (0, 2): its first
      space-separated word, lower-cased. */
  function Mt4Symbol(cell: string): (symbol: string)
    ensures ' ' !in Split(cell, ' ')[0]
    ensures |symbol| == |Split(cell, ' ')[0]|
  {
    Lower(Split(cell, ' ')[0])
  }

  /** The symbol is the word before the first space. */
  lemma Mt4SymbolFirstWord(word: string, rest: string)
    requires ' ' !in word
    ensures Mt4Symbol(word + " " + rest) == Lower(word)
    ensures Mt4Symbol(word) == Lower(word)
  {
    var cell := word + " " + rest;
    assert cell[|word|] == ' ';
    var i := IndexOf(cell, ' ');
    assert forall l :: 0 <= l < |word| ==> cell[l] == word[l];
    assert i == |word|;
    assert cell[..i] == word;
    SplitFirst(cell, ' ');
    SplitFirst(word, ' ');
  }

  const FOREX_PAIRS: map<string, string> :=
    map["EUR" := "e", "USD" := "u", "JPY" := "j", "AUD" := "a", "NZD" := "n",
        "CAD" := "cd", "CHF" := "cf", "GBP" := "g"]

  /** `get_forex_short_names`: '' unless the symbol has six letters; then
      the codes of its two currencies (KeyError for an unknown one). */
  function ForexShortName(symbol: string): (r: Result<string>)
    ensures |symbol| != 6 ==> r == Ok("")
    ensures |symbol| == 6 ==> (r.Ok? <==> symbol[..3] in FOREX_PAIRS && symbol[3..] in FOREX_PAIRS)
    ensures r.Err? ==> r.error == KeyError
    ensures |symbol| == 6 && r.Ok? ==> |r.value| >= 2
  {
    if |symbol| != 6 then Ok("")
    else
      var first, last := symbol[..3], symbol[3..];
      if first !in FOREX_PAIRS || last !in FOREX_PAIRS then Err(KeyError)
      else Ok(FOREX_PAIRS[first] + FOREX_PAIRS[last])
  }

  /** A major pair is named by its two codes. */
  lemma ForexShortNameExamples()
    ensures ForexShortName("EURUSD") == Ok("eu")
  {
    assert "EURUSD"[..3] == "EUR" && "EURUSD"[3..] == "USD";
    assert FOREX_PAIRS["EUR"] + FOREX_PAIRS["USD"] == "eu";
  }

  /** The Swiss franc's code has two letters. */
  lemma ForexShortNameFranc()
    ensures ForexShortName("GBPCHF") == Ok("gcf")
  {
    assert "GBPCHF"[..3] == "GBP" && "GBPCHF"[3..] == "CHF";
    assert FOREX_PAIRS["GBP"] + FOREX_PAIRS["CHF"] == "gcf";
  }

  /** Lower-case names and metals are not in the table (KeyError). */
  lemma ForexShortNameUnknown()
    ensures ForexShortName("eurusd") == Err(KeyError)
    ensures ForexShortName("XAUUSD") == Err(KeyError)
  {
    assert "eurusd"[..3] == "eur";
    assert "XAUUSD"[..3] == "XAU";
  }

  /** Each currency has its own code. */
  lemma CodesDistinct(a: string, b: string)
    requires a in FOREX_PAIRS && b in FOREX_PAIRS && FOREX_PAIRS[a] == FOREX_PAIRS[b]
    ensures a == b
  {
  }

  /** A code is one letter other than 'c', or two letters starting with 'c'. */
  lemma CodeShape(a: string)
    requires a in FOREX_PAIRS
    ensures var x := FOREX_PAIRS[a];
      (|x| == 1 && x[0] != 'c') || (|x| == 2 && x[0] == 'c')
  {
  }

  /** No currency code is the start of another. */
  lemma CodesPrefixFree(a: string, b: string)
    requires a in FOREX_PAIRS && b in FOREX_PAIRS
    requires |FOREX_PAIRS[a]| <= |FOREX_PAIRS[b]|
    requires FOREX_PAIRS[a] == FOREX_PAIRS[b][..|FOREX_PAIRS[a]|]
    ensures a == b
  {
    var x, y := FOREX_PAIRS[a], FOREX_PAIRS[b];
    CodeShape(a);
    CodeShape(b);
    assert x[0] == y[0];
    assert x == y;
    CodesDistinct(a, b);
  }

  /** Different six-letter symbols of known currencies have different short
      names: the codes form a prefix-free code. */
  lemma ForexShortNameInjective(s: string, t: string)
    requires |s| == 6 && |t| == 6
    requires ForexShortName(s).Ok? && ForexShortName(t).Ok?
    requires ForexShortName(s) == ForexShortName(t)
    ensures s == t
  {
    var a, b, c, d := s[..3], s[3..], t[..3], t[3..];
    var x, y, u, v := FOREX_PAIRS[a], FOREX_PAIRS[b], FOREX_PAIRS[c], FOREX_PAIRS[d];
    assert x + y == u + v;
    if |x| <= |u| {
      assert x == (u + v)[..|x|] == u[..|x|];
      CodesPrefixFree(a, c);
    } else {
      assert u == (x + y)[..|u|] == x[..|u|];
      CodesPrefixFree(c, a);
    }
    assert y == (x + y)[|x|..] == (u + v)[|u|..] == v;
    if |y| <= |v| {
      CodesPrefixFree(b, d);
    } else {
      CodesPrefixFree(d, b);
    }
    assert s == a + b && t == c + d;
  }

  // ---------------------------------------------------------------------
  // From order history to operations

  /** A row of the MT4 order history once its columns are converted: an
      order appears on one row when it opens and on later rows as it is
      modified and closed. */
  datatype Mt4Row = Mt4Row(order: int, time: int, kind: string, volume: real, price: real,
                           sl: real, tp: real, profit: real)

  function Orders(rows: seq<Mt4Row>): (o: seq<int>)
    ensures |o| == |rows|
  {
    seq(|rows|, i requires 0 <= i < |rows| => rows[i].order)
  }

  /** `df[df.Orden == orden]`: the rows of one order, in their order. */
  function Group(rows: seq<Mt4Row>, o: int): (g: seq<Mt4Row>)
    ensures |g| <= |rows|
    ensures forall k :: 0 <= k < |g| ==> g[k].order == o && g[k] in rows
    decreases |rows|
  {
    if rows == [] then []
    else
      var last := rows[|rows| - 1];
      Group(rows[..|rows| - 1], o) + (if last.order == o then [last] else [])
  }

  /** An order that appears has rows, the first of them its first row in
      the history. */
  lemma {:induction false} GroupFirst(rows: seq<Mt4Row>, o: int)
    requires o in Orders(rows)
    ensures |Group(rows, o)| > 0
    ensures Group(rows, o)[0] == rows[IndexOf(Orders(rows), o)]
    decreases |rows|
  {
    var init := rows[..|rows| - 1];
    var i := IndexOf(Orders(rows), o);
    if i < |rows| - 1 {
      assert Orders(init)[i] == o;
      IndexOfPrefix(Orders(rows), |rows| - 1, o);
      assert Orders(rows)[..|rows| - 1] == Orders(init);
      GroupFirst(init, o);
    } else {
      forall j | 0 <= j < |init| ensures init[j].order != o {
        assert Orders(rows)[j] == init[j].order;
      }
      GroupAbsent(init, o);
    }
  }

  lemma {:induction false} GroupAbsent(rows: seq<Mt4Row>, o: int)
    requires forall j :: 0 <= j < |rows| ==> rows[j].order != o
    ensures Group(rows, o) == []
    decreases |rows|
  {
    if rows != [] {
      GroupAbsent(rows[..|rows| - 1], o);
    }
  }

  /** The rows of an order, at least one when the order appears. */
  function GroupOf(rows: seq<Mt4Row>, o: int): (g: seq<Mt4Row>)
    requires o in Orders(rows)
    ensures |g| > 0 && g == Group(rows, o)
  {
    GroupFirst(rows, o);
    Group(rows, o)
  }

  /** The operation an order makes: opening values from its first row,
      closing values and profit from its last; pips are the price move from
      first to last row, whatever the order's direction. */
  function OrderRow(g: seq<Mt4Row>, symbol: string, point: real): (op: Operation)
    requires |g| > 0
    ensures op.duration == op.closeTime - op.openTime
  {
    var first, last := g[0], g[|g| - 1];
    Operation(first.time, last.time, first.sl, first.tp, last.time - first.time, first.kind, first.volume, symbol,
              first.price, last.price, (last.price - first.price) * point, last.profit, 0.0)
  }

  function OrderRows(rows: seq<Mt4Row>, orders: seq<int>, symbol: string, point: real): (ops: seq<Operation>)
    requires forall k :: 0 <= k < |orders| ==> orders[k] in Orders(rows)
    ensures |ops| == |orders|
    ensures DurationsConsistent(ops)
  {
    seq(|orders|, k requires 0 <= k < |orders| => OrderRow(GroupOf(rows, orders[k]), symbol, point))
  }

  /** `format_mt4_ops` as a function: IndexError on an empty history or a
      first price without a '.'; otherwise one operation per distinct order,
      in order of first appearance, and the balance. */
  function FormatSpec(rows: seq<Mt4Row>, symbol: string, deposit: real, showReal: real -> string): (r: Result<seq<Operation>>)
    ensures rows == [] ==> r == Err(IndexError)
    ensures r.Err? ==> r.error == IndexError
  {
    if rows == [] then Err(IndexError)
    else
      var digits :- SymbolDigits(showReal(rows[0].price));
      OrdersInHistory(rows);
      Ok(WithBalance(OrderRows(rows, Distinct(Orders(rows)), symbol, PointValue(digits)), deposit))
  }

  lemma OrdersInHistory(rows: seq<Mt4Row>)
    ensures forall k :: 0 <= k < |Distinct(Orders(rows))| ==> Distinct(Orders(rows))[k] in Orders(rows)
  {
  }

  /** `format_mt4_ops`: the loop over the distinct orders, then the balance. */
  method FormatMt4Ops(rows: seq<Mt4Row>, symbol: string, deposit: real, showReal: real -> string)
    returns (r: Result<seq<Operation>>)
    ensures r == FormatSpec(rows, symbol, deposit, showReal)
  {
    if |rows| == 0 {
      return Err(IndexError);
    }
    var digits := SymbolDigits(showReal(rows[0].price));
    if digits.Err? {
      return Err(digits.error);
    }
    var point := PointValue(digits.value);
    var orders := Distinct(Orders(rows));
    OrdersInHistory(rows);
    var ordenes: seq<Operation> := [];
    for k := 0 to |orders|
      invariant ordenes == OrderRows(rows, orders[..k], symbol, point)
    {
      var g := GroupOf(rows, orders[k]);
      ordenes := ordenes + [OrderRow(g, symbol, point)];
    }
    assert orders[..|orders|] == orders;
    r := Ok(WithBalance(ordenes, deposit));
  }

  /** The operation stands for order `o`: opened at the order's first row,
      which is its first row in the history, closed at its last, with its
      last profit, the symbol, and the undirected price move in points. */
  predicate OperationOfOrder(op: Operation, rows: seq<Mt4Row>, o: int, symbol: string, point: real) {
    o in Orders(rows) &&
    var g := Group(rows, o);
    |g| > 0 &&
    g[0] == rows[IndexOf(Orders(rows), o)] &&
    op.openTime == g[0].time && op.closeTime == g[|g| - 1].time &&
    op.sl == g[0].sl && op.tp == g[0].tp && op.kind == g[0].kind && op.volume == g[0].volume &&
    op.openPrice == g[0].price && op.closePrice == g[|g| - 1].price &&
    op.profit == g[|g| - 1].profit && op.symbol == symbol &&
    op.pips == (g[|g| - 1].price - g[0].price) * point
  }

  lemma OrderRowsAt(rows: seq<Mt4Row>, orders: seq<int>, symbol: string, point: real, k: nat)
    requires forall j :: 0 <= j < |orders| ==> orders[j] in Orders(rows)
    requires k < |orders|
    ensures OperationOfOrder(OrderRows(rows, orders, symbol, point)[k], rows, orders[k], symbol, point)
  {
    GroupFirst(rows, orders[k]);
  }

  lemma OperationOfOrderBalance(op: Operation, rows: seq<Mt4Row>, o: int, symbol: string, point: real, b: real)
    requires OperationOfOrder(op, rows, o, symbol, point)
    ensures OperationOfOrder(op.(balance := b), rows, o, symbol, point)
  {
  }

  /** The operations of a formatted history: one per distinct order, in
      order of first appearance, each standing for its order, with the
      balance following the profits. */
  lemma FormatOnePerOrder(rows: seq<Mt4Row>, symbol: string, deposit: real, showReal: real -> string)
    requires FormatSpec(rows, symbol, deposit, showReal).Ok?
    ensures rows != [] && SymbolDigits(showReal(rows[0].price)).Ok?
    ensures var ops := FormatSpec(rows, symbol, deposit, showReal).value;
      var orders := Distinct(Orders(rows));
      var point := PointValue(SymbolDigits(showReal(rows[0].price)).value);
      |ops| == |orders| && BalanceFollows(ops, deposit) &&
      forall k :: 0 <= k < |ops| ==> OperationOfOrder(ops[k], rows, orders[k], symbol, point)
  {
    var point := PointValue(SymbolDigits(showReal(rows[0].price)).value);
    var orders := Distinct(Orders(rows));
    OrdersInHistory(rows);
    var plain := OrderRows(rows, orders, symbol, point);
    var ops := WithBalance(plain, deposit);
    assert FormatSpec(rows, symbol, deposit, showReal).value == ops;
    WithBalanceFollows(plain, deposit);
    forall k | 0 <= k < |ops| ensures OperationOfOrder(ops[k], rows, orders[k], symbol, point) {
      OrderRowsAt(rows, orders, symbol, point, k);
      OperationOfOrderBalance(plain[k], rows, orders[k], symbol, point, ops[k].balance);
    }
  }

  /** The elements of `d` come in the order of their first occurrences in `s`. */
  predicate InFirstOccurrenceOrder(s: seq<int>, d: seq<int>) {
    forall i, j :: 0 <= i < j < |d| ==> FirstOccursBefore(s, d[i], d[j])
  }

  /** Both values occur in `s`, the first one earlier. */
  predicate FirstOccursBefore(s: seq<int>, a: int, b: int) {
    a in s && b in s && IndexOf(s, a) < IndexOf(s, b)
  }

  /** The distinct orders come in the order of their first rows. */
  lemma {:induction false} DistinctInOrder(s: seq<int>)
    ensures InFirstOccurrenceOrder(s, Distinct(s))
    decreases |s|
  {
    if s != [] {
      var init, x := s[..|s| - 1], s[|s| - 1];
      assert s == init + [x];
      DistinctInOrder(init);
      DistinctInOrderStep(init, x);
    }
  }

  lemma DistinctInOrderStep(init: seq<int>, x: int)
    requires InFirstOccurrenceOrder(init, Distinct(init))
    ensures InFirstOccurrenceOrder(init + [x], Distinct(init + [x]))
  {
    var s := init + [x];
    var d := Distinct(init);
    assert s[..|s| - 1] == init;
    if x in d {
      assert Distinct(s) == d;
      OrderSurvivesSnoc(init, x, d);
    } else {
      assert Distinct(s) == d + [x];
      OrderExtendsWithNew(init, x, d);
    }
  }

  /** Appending an element keeps the first occurrence of every earlier one. */
  lemma IndexOfSnoc(init: seq<int>, x: int, y: int)
    requires y in init
    ensures IndexOf(init + [x], y) == IndexOf(init, y)
  {
    var s := init + [x];
    assert s[..|init|] == init;
    IndexOfPrefix(s, |init|, y);
  }

  lemma OrderSurvivesSnoc(init: seq<int>, x: int, d: seq<int>)
    requires InFirstOccurrenceOrder(init, d)
    ensures InFirstOccurrenceOrder(init + [x], d)
  {
    forall i, j | 0 <= i < j < |d|
      ensures FirstOccursBefore(init + [x], d[i], d[j])
    {
      assert FirstOccursBefore(init, d[i], d[j]);
      IndexOfSnoc(init, x, d[i]);
      IndexOfSnoc(init, x, d[j]);
    }
  }

  lemma OrderExtendsWithNew(init: seq<int>, x: int, d: seq<int>)
    requires x !in init && (forall y :: y in d ==> y in init)
    requires InFirstOccurrenceOrder(init, d)
    ensures InFirstOccurrenceOrder(init + [x], d + [x])
  {
    assert IndexOf(init + [x], x) == |init| by {
      assert forall l :: 0 <= l < |init| ==> (init + [x])[l] == init[l];
    }
    forall i, j | 0 <= i < j < |d + [x]|
      ensures FirstOccursBefore(init + [x], (d + [x])[i], (d + [x])[j])
    {
      PairInOrder(init, x, d, i, j);
    }
  }

  lemma PairInOrder(init: seq<int>, x: int, d: seq<int>, i: nat, j: nat)
    requires x !in init && (forall y :: y in d ==> y in init)
    requires InFirstOccurrenceOrder(init, d)
    requires IndexOf(init + [x], x) == |init|
    requires i < j < |d| + 1
    ensures FirstOccursBefore(init + [x], (d + [x])[i], (d + [x])[j])
  {
    var r := d + [x];
    assert r[i] == d[i] && d[i] in init;
    IndexOfSnoc(init, x, d[i]);
    if j < |d| {
      assert r[j] == d[j];
      IndexOfSnoc(init, x, d[j]);
    } else {
      assert r[j] == x;
    }
  }
}
