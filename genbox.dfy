/** The Genbox report pipeline: from the first table of the report, as
    `read_html` gives it, to the normalised trade log; and what the file
    name says about the backtest (its period and its name). The pipeline is
    written three times in the source (the parser class, the older parser
    class and the script module) with the same steps. */
module Genbox {
  import opened Wrappers
  import opened Series
  import opened Text
  import opened Trades
  import opened BtParser

  /** A cell is missing (NaN) or holds the text of the report. */
  type Cell = Option<string>
  type RawRow = seq<Cell>
  type RawTable = seq<RawRow>

  const END_OF_DATA: string := "Closed P/L:"
  const TICKET: string := "Ticket"

  const OPS_INITIAL_COLUMN_NAMES: seq<string> :=
    ["Open Time", "Type", "Volume", "Symbol", "Open Price", "S/L", "T/P", "Close Time", "Close Price",
     "Commission", "Taxes", "Swap", "Profit"]
  const OPS_DROP_COLUMN_NAMES: seq<string> := ["Commission", "Taxes", "Swap"]
  const OPS_FINAL_COLUMN_NAMES: seq<string> :=
    ["Open Time", "Close Time", "S/L", "T/P", "Duration", "Type", "Volume", "Symbol", "Open Price",
     "Close Price", "Pips", "Profit", "Balance"]

  /** The trade log's columns are the final column names, none of the fee
      columns among them. */
  lemma FinalColumns()
    ensures OPS_FINAL_COLUMN_NAMES == COLUMNS
    ensures forall name :: name in OPS_DROP_COLUMN_NAMES ==> name !in OPS_FINAL_COLUMN_NAMES
    ensures forall name :: name in OPS_INITIAL_COLUMN_NAMES && name !in OPS_DROP_COLUMN_NAMES ==> name in OPS_FINAL_COLUMN_NAMES
  {
  }

  // ---------------------------------------------------------------------
  // Rows

  function MaxNatOf(a: nat, b: nat): nat { if a < b then b else a }

  /** The table's width: its longest row; `read_html` pads shorter rows
      with missing cells. */
  function Width(t: RawTable): (w: nat)
    ensures forall k :: 0 <= k < |t| ==> |t[k]| <= w
    decreases |t|
  {
    if t == [] then 0 else MaxNatOf(Width(t[..|t| - 1]), |t[|t| - 1]|)
  }

  /** Every cell of the row is present. */
  predicate Present(row: RawRow) {
    forall c :: 0 <= c < |row| ==> row[c].Some?
  }

  /** A row with a cell in every column. */
  predicate Complete(row: RawRow, width: nat) {
    |row| == width && Present(row)
  }

  function Texts(row: RawRow): (r: seq<string>)
    requires Present(row)
    ensures |r| == |row|
  {
    seq(|row|, c requires 0 <= c < |row| => row[c].value)
  }

  /** `dropna()`: the complete rows, in order, as text. */
  function CompleteRows(t: RawTable, width: nat): (rows: seq<seq<string>>)
    ensures |rows| <= |t|
    ensures forall k :: 0 <= k < |rows| ==> |rows[k]| == width
    decreases |t|
  {
    if t == [] then []
    else
      var last := t[|t| - 1];
      CompleteRows(t[..|t| - 1], width) + (if Complete(last, width) then [Texts(last)] else [])
  }

  /** `iloc[2:, :]` then `dropna()`. */
  function DropNa(raw: RawTable): (rows: seq<seq<string>>)
    ensures forall k :: 0 <= k < |rows| ==> |rows[k]| == Width(raw)
  {
    CompleteRows(if |raw| <= 2 then [] else raw[2..], Width(raw))
  }

  /** Complete rows are all kept, in order. */
  lemma {:induction false} CompleteRowsKeepAll(t: RawTable, width: nat)
    requires forall k :: 0 <= k < |t| ==> Complete(t[k], width)
    ensures |CompleteRows(t, width)| == |t|
    ensures forall k :: 0 <= k < |t| ==> Present(t[k]) && CompleteRows(t, width)[k] == Texts(t[k])
    decreases |t|
  {
    if t != [] {
      CompleteRowsKeepAll(t[..|t| - 1], width);
    }
  }

  /** A row with a missing cell is dropped. */
  lemma {:induction false} CompleteRowsDrop(t: RawTable, width: nat, i: nat)
    requires i < |t| && !Complete(t[i], width)
    ensures |CompleteRows(t, width)| < |t|
    decreases |t|
  {
    var init := t[..|t| - 1];
    if i < |t| - 1 {
      CompleteRowsDrop(init, width, i);
    }
    assert CompleteRows(t, width) == CompleteRows(init, width) + (if Complete(t[|t| - 1], width) then [Texts(t[|t| - 1])] else []);
  }

  // ---------------------------------------------------------------------
  // Frames

  /** The column names and the rows below them. */
  datatype Frame = Frame(header: seq<string>, body: seq<seq<string>>)

  predicate Rectangular(f: Frame) {
    forall k :: 0 <= k < |f.body| ==> |f.body[k]| == |f.header|
  }

  /** The first row names the columns (`ops.columns = ops.iloc[0, :]`,
      IndexError without rows); it and the deposit row below it are dropped
      (`drop([0, 1])`, KeyError without a second row). */
  function Promote(rows: seq<seq<string>>): (r: Result<Frame>)
    ensures |rows| == 0 ==> r == Err(IndexError)
    ensures |rows| == 1 ==> r == Err(KeyError)
    ensures |rows| >= 2 ==> r.Ok? && r.value.header == rows[0] && r.value.body == rows[2..]
  {
    if |rows| == 0 then Err(IndexError)
    else if |rows| == 1 then Err(KeyError)
    else Ok(Frame(rows[0], rows[2..]))
  }

  /** A rectangular table stays rectangular once its header is promoted. */
  lemma PromoteRectangular(rows: seq<seq<string>>, width: nat)
    requires forall k :: 0 <= k < |rows| ==> |rows[k]| == width
    ensures Promote(rows).Ok? ==> Rectangular(Promote(rows).value)
  {
    if |rows| >= 2 {
      var f := Promote(rows).value;
      forall k | 0 <= k < |f.body| ensures |f.body[k]| == |f.header| {
        assert f.body[k] == rows[k + 2];
      }
    }
  }

  /** The row carries the end-of-data marker in the Ticket column. */
  predicate IsSentinel(row: seq<string>, c: nat) {
    c < |row| && row[c] == END_OF_DATA
  }

  /** The position of the first row carrying the marker. */
  function FirstSentinel(body: seq<seq<string>>, c: nat): (r: Option<nat>)
    ensures r.Some? ==> (r.value < |body| && IsSentinel(body[r.value], c) &&
      forall k :: 0 <= k < r.value ==> !IsSentinel(body[k], c))
    ensures r.None? ==> forall k :: 0 <= k < |body| ==> !IsSentinel(body[k], c)
    decreases |body|
  {
    if body == [] then None
    else if IsSentinel(body[0], c) then Some(0)
    else
      match FirstSentinel(body[1..], c)
      case None =>
        assert forall k :: 1 <= k < |body| ==> body[k] == body[1..][k - 1];
        None
      case Some(k) =>
        assert forall j :: 1 <= j < |body| ==> body[j] == body[1..][j - 1];
        Some(k + 1)
  }

  function RemoveAt(s: seq<string>, c: nat): (r: seq<string>)
    requires c < |s|
    ensures |r| == |s| - 1
    ensures forall j :: 0 <= j < |r| ==> r[j] == if j < c then s[j] else s[j + 1]
  {
    s[..c] + s[c + 1..]
  }

  /** `ops.Ticket == 'Closed P/L:'` (AttributeError without a Ticket column),
      the first such row (IndexError if there is none), the rows before it,
      and the Ticket column moved into the index (`set_index`). */
  function Truncate(f: Frame): (r: Result<Frame>)
    requires Rectangular(f)
    ensures TICKET !in f.header ==> r == Err(AttributeError)
    ensures TICKET in f.header && FirstSentinel(f.body, IndexOf(f.header, TICKET)).None? ==> r == Err(IndexError)
    ensures r.Ok? ==> TICKET in f.header && FirstSentinel(f.body, IndexOf(f.header, TICKET)).Some?
    ensures r.Ok? ==> Rectangular(r.value) && |r.value.header| == |f.header| - 1
    ensures r.Ok? ==>
      var c := IndexOf(f.header, TICKET);
      |r.value.body| == FirstSentinel(f.body, c).value &&
      r.value.header == RemoveAt(f.header, c) &&
      forall k :: 0 <= k < |r.value.body| ==> r.value.body[k] == RemoveAt(f.body[k], c)
  {
    if TICKET !in f.header then Err(AttributeError)
    else
      var c := IndexOf(f.header, TICKET);
      match FirstSentinel(f.body, c)
      case None => Err(IndexError)
      case Some(idx) =>
        Ok(Frame(RemoveAt(f.header, c), seq(idx, k requires 0 <= k < idx => RemoveAt(f.body[k], c))))
  }

  // ---------------------------------------------------------------------
  // Column conversions

  /** How a column is converted: `to_datetime`, `astype(str)` (whose result
      is discarded, so it converts nothing), `astype(float)`. */
  datatype Conversion = ToTime | ToText | ToReal

  /** The conversions in the order the source applies them, by column
      position: the two times, the two texts, then the numeric columns. */
  const CONVERSIONS: seq<(nat, Conversion)> :=
    [(0, ToTime), (7, ToTime), (1, ToText), (3, ToText),
     (2, ToReal), (4, ToReal), (5, ToReal), (6, ToReal), (8, ToReal),
     (9, ToReal), (10, ToReal), (11, ToReal), (12, ToReal)]

  predicate Converts(cell: string, how: Conversion, parseTime: string -> Option<int>, parseReal: string -> Option<real>) {
    match how
    case ToTime => parseTime(cell).Some?
    case ToText => true
    case ToReal => parseReal(cell).Some?
  }

  /** The frame has the column and every cell of it converts. */
  predicate ColumnConverts(f: Frame, col: nat, how: Conversion,
                           parseTime: string -> Option<int>, parseReal: string -> Option<real>)
    requires Rectangular(f)
  {
    col < |f.header| && forall k :: 0 <= k < |f.body| ==> Converts(f.body[k][col], how, parseTime, parseReal)
  }

  /** Converting one column: IndexError when the frame has no such column,
      ValueError when some cell does not convert. */
  function ConvertColumn(f: Frame, col: nat, how: Conversion,
                         parseTime: string -> Option<int>, parseReal: string -> Option<real>): (r: Result<()>)
    requires Rectangular(f)
    ensures r.Ok? <==> ColumnConverts(f, col, how, parseTime, parseReal)
    ensures col >= |f.header| ==> r == Err(IndexError)
    ensures col < |f.header| && r.Err? ==> r == Err(ValueError)
  {
    if col >= |f.header| then Err(IndexError)
    else if forall k :: 0 <= k < |f.body| ==> Converts(f.body[k][col], how, parseTime, parseReal) then Ok(())
    else Err(ValueError)
  }

  /** The conversions applied in order; the first that fails decides. */
  function ConvertAll(f: Frame, cs: seq<(nat, Conversion)>,
                      parseTime: string -> Option<int>, parseReal: string -> Option<real>): (r: Result<()>)
    requires Rectangular(f)
    ensures r.Ok? <==> forall j :: 0 <= j < |cs| ==> ColumnConverts(f, cs[j].0, cs[j].1, parseTime, parseReal)
    decreases |cs|
  {
    if cs == [] then Ok(())
    else
      var _ :- ConvertColumn(f, cs[0].0, cs[0].1, parseTime, parseReal);
      assert forall j :: 1 <= j < |cs| ==> cs[j] == cs[1..][j - 1];
      ConvertAll(f, cs[1..], parseTime, parseReal)
  }

  /** The conversion loop: `to_datetime` on columns 0 and 7, `astype(str)` on
      1 and 3, `astype(float)` on every column of `num_col`. */
  method Convert(f: Frame, parseTime: string -> Option<int>, parseReal: string -> Option<real>) returns (r: Result<()>)
    requires Rectangular(f)
    ensures r == ConvertAll(f, CONVERSIONS, parseTime, parseReal)
  {
    r := ConvertEach(f, CONVERSIONS, parseTime, parseReal);
  }

  /** Applies the conversions one after the other, stopping at the first
      that raises. */
  method ConvertEach(f: Frame, cs: seq<(nat, Conversion)>, parseTime: string -> Option<int>, parseReal: string -> Option<real>)
    returns (r: Result<()>)
    requires Rectangular(f)
    ensures r == ConvertAll(f, cs, parseTime, parseReal)
  {
    for k := 0 to |cs|
      invariant ConvertAll(f, cs, parseTime, parseReal) == ConvertAll(f, cs[k..], parseTime, parseReal)
    {
      var step := ConvertColumn(f, cs[k].0, cs[k].1, parseTime, parseReal);
      ConvertAllStep(f, cs[k..], parseTime, parseReal);
      assert cs[k..][1..] == cs[k + 1..];
      if step.Err? {
        return step;
      }
    }
    assert cs[|cs|..] == [];
    return Ok(());
  }

  lemma ConvertAllStep(f: Frame, cs: seq<(nat, Conversion)>, parseTime: string -> Option<int>, parseReal: string -> Option<real>)
    requires Rectangular(f) && cs != []
    ensures var step := ConvertColumn(f, cs[0].0, cs[0].1, parseTime, parseReal);
      ConvertAll(f, cs, parseTime, parseReal) == if step.Err? then step else ConvertAll(f, cs[1..], parseTime, parseReal)
  {
  }

  /** The 13 columns of a report row once the Ticket column is in the
      index, converted. */
  datatype Fields = Fields(openTime: int, kind: string, volume: real, symbol: string, openPrice: real,
                           sl: real, tp: real, closeTime: int, closePrice: real,
                           commission: real, taxes: real, swap: real, profit: real)

  /** A row with 13 cells whose time and numeric cells all convert. */
  predicate Convertible(row: seq<string>, parseTime: string -> Option<int>, parseReal: string -> Option<real>) {
    |row| == 13 &&
    parseTime(row[0]).Some? && parseTime(row[7]).Some? &&
    parseReal(row[2]).Some? && parseReal(row[4]).Some? && parseReal(row[5]).Some? &&
    parseReal(row[6]).Some? && parseReal(row[8]).Some? && parseReal(row[9]).Some? &&
    parseReal(row[10]).Some? && parseReal(row[11]).Some? && parseReal(row[12]).Some?
  }

  /** Once every conversion succeeds on a 13-column frame, every row converts. */
  lemma ConvertAllRows(f: Frame, parseTime: string -> Option<int>, parseReal: string -> Option<real>)
    requires Rectangular(f) && |f.header| == 13
    requires ConvertAll(f, CONVERSIONS, parseTime, parseReal).Ok?
    ensures AllConvertible(f, parseTime, parseReal)
  {
    var cs := CONVERSIONS;
    forall j | 0 <= j < |cs| ensures ColumnConverts(f, cs[j].0, cs[j].1, parseTime, parseReal) {
      ConvertedColumn(f, cs, j, parseTime, parseReal);
    }
    forall k | 0 <= k < |f.body| ensures Convertible(f.body[k], parseTime, parseReal) {
      ConvertibleRow(f, k, parseTime, parseReal);
    }
  }

  lemma ConvertedColumn(f: Frame, cs: seq<(nat, Conversion)>, j: nat,
                        parseTime: string -> Option<int>, parseReal: string -> Option<real>)
    requires Rectangular(f) && j < |cs|
    requires ConvertAll(f, cs, parseTime, parseReal).Ok?
    ensures ColumnConverts(f, cs[j].0, cs[j].1, parseTime, parseReal)
  {
  }

  lemma ConvertibleRow(f: Frame, k: nat, parseTime: string -> Option<int>, parseReal: string -> Option<real>)
    requires Rectangular(f) && |f.header| == 13 && k < |f.body|
    requires forall j :: 0 <= j < |CONVERSIONS| ==> ColumnConverts(f, CONVERSIONS[j].0, CONVERSIONS[j].1, parseTime, parseReal)
    ensures Convertible(f.body[k], parseTime, parseReal)
  {
    var cs := CONVERSIONS;
    var row := f.body[k];
    assert Converts(row[cs[0].0], cs[0].1, parseTime, parseReal);
    assert Converts(row[cs[1].0], cs[1].1, parseTime, parseReal);
    assert Converts(row[cs[4].0], cs[4].1, parseTime, parseReal);
    assert Converts(row[cs[5].0], cs[5].1, parseTime, parseReal);
    assert Converts(row[cs[6].0], cs[6].1, parseTime, parseReal);
    assert Converts(row[cs[7].0], cs[7].1, parseTime, parseReal);
    assert Converts(row[cs[8].0], cs[8].1, parseTime, parseReal);
    assert Converts(row[cs[9].0], cs[9].1, parseTime, parseReal);
    assert Converts(row[cs[10].0], cs[10].1, parseTime, parseReal);
    assert Converts(row[cs[11].0], cs[11].1, parseTime, parseReal);
    assert Converts(row[cs[12].0], cs[12].1, parseTime, parseReal);
  }

  function FieldsOf(row: seq<string>, parseTime: string -> Option<int>, parseReal: string -> Option<real>): Fields
    requires Convertible(row, parseTime, parseReal)
  {
    Fields(parseTime(row[0]).value, row[1], parseReal(row[2]).value, row[3], parseReal(row[4]).value,
           parseReal(row[5]).value, parseReal(row[6]).value, parseTime(row[7]).value, parseReal(row[8]).value,
           parseReal(row[9]).value, parseReal(row[10]).value, parseReal(row[11]).value, parseReal(row[12]).value)
  }

  /** The columns `get_pips` reads; the open price's text is the float as
      Python writes it. */
  function PriceRows(fields: seq<Fields>, showReal: real -> string): (rows: seq<PriceRow>)
    ensures |rows| == |fields|
  {
    seq(|fields|, i requires 0 <= i < |fields| =>
      PriceRow(fields[i].kind, fields[i].symbol, showReal(fields[i].openPrice), fields[i].openPrice, fields[i].closePrice))
  }

  /** Duration, Balance and Pips added, fee columns dropped, columns put in
      the final order. */
  function Assemble(fields: seq<Fields>, pips: seq<real>, deposit: real): (ops: seq<Operation>)
    requires |pips| == |fields|
    ensures |ops| == |fields|
  {
    WithBalance(seq(|fields|, i requires 0 <= i < |fields| =>
      var x := fields[i];
      Operation(x.openTime, x.closeTime, x.sl, x.tp, x.closeTime - x.openTime, x.kind, x.volume, x.symbol,
                x.openPrice, x.closePrice, pips[i], x.profit, 0.0)), deposit)
  }

  /** Every row of the frame converts. */
  predicate AllConvertible(f: Frame, parseTime: string -> Option<int>, parseReal: string -> Option<real>) {
    forall k :: 0 <= k < |f.body| ==> Convertible(f.body[k], parseTime, parseReal)
  }

  /** The converted rows, the Ticket column gone. */
  function ConvertedRows(f: Frame, parseTime: string -> Option<int>, parseReal: string -> Option<real>): (fields: seq<Fields>)
    requires AllConvertible(f, parseTime, parseReal)
    ensures |fields| == |f.body|
  {
    seq(|f.body|, k requires 0 <= k < |f.body| => FieldsOf(f.body[k], parseTime, parseReal))
  }

  /** The last steps: renaming to 13 names (ValueError on any other width),
      Duration, Balance, the fee columns dropped, then Pips (whose length
      must match the rows, or pandas raises ValueError). */
  function Finish(ops: Frame, deposit: real, parseTime: string -> Option<int>, parseReal: string -> Option<real>,
                  showReal: real -> string): Result<seq<Operation>>
    requires Rectangular(ops) && ConvertAll(ops, CONVERSIONS, parseTime, parseReal).Ok?
  {
    if |ops.header| != 13 then Err(ValueError)
    else
      ConvertAllRows(ops, parseTime, parseReal);
      FromFields(ConvertedRows(ops, parseTime, parseReal), deposit, showReal)
  }

  /** Duration, Balance and Pips computed from the converted rows. */
  function FromFields(fields: seq<Fields>, deposit: real, showReal: real -> string): Result<seq<Operation>> {
    WithPips(fields, GetPips(PriceRows(fields, showReal), true), deposit)
  }

  /** Assigning the pips column: its error, or ValueError when its length
      is not the number of rows. */
  function WithPips(fields: seq<Fields>, pips: Result<seq<real>>, deposit: real): (r: Result<seq<Operation>>)
    ensures r.Ok? ==> pips.Ok? && |pips.value| == |fields| && r.value == Assemble(fields, pips.value, deposit)
  {
    var p :- pips;
    if |p| != |fields| then Err(ValueError) else Ok(Assemble(fields, p, deposit))
  }

  /** `parse_html` as a function of the report's first table. */
  function ParseSpec(raw: RawTable, deposit: real, parseTime: string -> Option<int>, parseReal: string -> Option<real>,
                     showReal: real -> string): Result<seq<Operation>>
  {
    var rows := DropNa(raw);
    PromoteRectangular(rows, Width(raw));
    var f :- Promote(rows);
    var ops :- Truncate(f);
    var _ :- ConvertAll(ops, CONVERSIONS, parseTime, parseReal);
    Finish(ops, deposit, parseTime, parseReal, showReal)
  }

  /** `parse_html`: the report's table reshaped step by step. */
  method ParseHtml(raw: RawTable, deposit: real, parseTime: string -> Option<int>, parseReal: string -> Option<real>,
                   showReal: real -> string) returns (r: Result<seq<Operation>>)
    ensures r == ParseSpec(raw, deposit, parseTime, parseReal, showReal)
  {
    var rows := DropNa(raw);
    PromoteRectangular(rows, Width(raw));
    var promoted := Promote(rows);
    if promoted.Err? {
      return Err(promoted.error);
    }
    var truncated := Truncate(promoted.value);
    if truncated.Err? {
      return Err(truncated.error);
    }
    var ops := truncated.value;
    var converted := Convert(ops, parseTime, parseReal);
    if converted.Err? {
      return Err(converted.error);
    }
    r := Finish(ops, deposit, parseTime, parseReal, showReal);
  }

  // ---------------------------------------------------------------------
  // What the pipeline promises

  /** The frame below the promoted header. */
  function Promoted(raw: RawTable): Result<Frame> {
    Promote(DropNa(raw))
  }

  /** With fewer than two complete rows after the first two, there is no
      header (IndexError) or no deposit row (KeyError). */
  lemma ParseTooShort(raw: RawTable, deposit: real, parseTime: string -> Option<int>, parseReal: string -> Option<real>,
                      showReal: real -> string)
    ensures |DropNa(raw)| == 0 ==> ParseSpec(raw, deposit, parseTime, parseReal, showReal) == Err(IndexError)
    ensures |DropNa(raw)| == 1 ==> ParseSpec(raw, deposit, parseTime, parseReal, showReal) == Err(KeyError)
  {
  }

  /** Without a Ticket column the marker cannot be looked up
      (AttributeError); without a marker row, `to_list()[0]` raises
      IndexError. */
  lemma ParseNoSentinel(raw: RawTable, deposit: real, parseTime: string -> Option<int>, parseReal: string -> Option<real>,
                        showReal: real -> string)
    requires Promoted(raw).Ok?
    ensures var f := Promoted(raw).value;
      TICKET !in f.header ==> ParseSpec(raw, deposit, parseTime, parseReal, showReal) == Err(AttributeError)
    ensures var f := Promoted(raw).value;
      TICKET in f.header && FirstSentinel(f.body, IndexOf(f.header, TICKET)).None? ==>
        ParseSpec(raw, deposit, parseTime, parseReal, showReal) == Err(IndexError)
  {
    PromoteRectangular(DropNa(raw), Width(raw));
  }

  /** The frame the last steps see: the promoted, truncated frame whose
      columns all converted. */
  lemma ParseSteps(raw: RawTable, deposit: real, parseTime: string -> Option<int>,
                   parseReal: string -> Option<real>, showReal: real -> string)
    requires ParseSpec(raw, deposit, parseTime, parseReal, showReal).Ok?
    ensures Promoted(raw).Ok? && Rectangular(Promoted(raw).value)
    ensures Truncate(Promoted(raw).value).Ok?
    ensures var ops := Truncate(Promoted(raw).value).value;
      ConvertAll(ops, CONVERSIONS, parseTime, parseReal).Ok? &&
      ParseSpec(raw, deposit, parseTime, parseReal, showReal) == Finish(ops, deposit, parseTime, parseReal, showReal)
  {
    PromoteRectangular(DropNa(raw), Width(raw));
  }

  /** The last steps keep the frame's rows, in order, with their values. */
  lemma FinishRows(ops: Frame, deposit: real, parseTime: string -> Option<int>, parseReal: string -> Option<real>,
                   showReal: real -> string)
    requires Rectangular(ops) && ConvertAll(ops, CONVERSIONS, parseTime, parseReal).Ok?
    requires Finish(ops, deposit, parseTime, parseReal, showReal).Ok?
    ensures var log := Finish(ops, deposit, parseTime, parseReal, showReal).value;
      |ops.header| == 13 && |log| == |ops.body| &&
      forall i :: 0 <= i < |log| ==> (Convertible(ops.body[i], parseTime, parseReal) &&
        log[i].profit == parseReal(ops.body[i][12]).value &&
        log[i].openTime == parseTime(ops.body[i][0]).value &&
        log[i].closeTime == parseTime(ops.body[i][7]).value &&
        log[i].symbol == ops.body[i][3] &&
        log[i].kind == ops.body[i][1])
  {
    FinishFromFields(ops, deposit, parseTime, parseReal, showReal);
    var fields := ConvertedRows(ops, parseTime, parseReal);
    FromFieldsRows(fields, deposit, showReal);
    ConvertedRowsValues(ops, fields, FromFields(fields, deposit, showReal).value, parseTime, parseReal);
  }

  /** With 13 columns the last steps read the converted rows. */
  lemma FinishFromFields(ops: Frame, deposit: real, parseTime: string -> Option<int>, parseReal: string -> Option<real>,
                         showReal: real -> string)
    requires Rectangular(ops) && ConvertAll(ops, CONVERSIONS, parseTime, parseReal).Ok?
    requires |ops.header| == 13
    ensures AllConvertible(ops, parseTime, parseReal)
    ensures Finish(ops, deposit, parseTime, parseReal, showReal) ==
      FromFields(ConvertedRows(ops, parseTime, parseReal), deposit, showReal)
  {
    ConvertAllRows(ops, parseTime, parseReal);
  }

  /** Operations that keep the values of the converted rows keep the values
      of the frame's cells. */
  lemma ConvertedRowsValues(ops: Frame, fields: seq<Fields>, log: seq<Operation>,
                            parseTime: string -> Option<int>, parseReal: string -> Option<real>)
    requires AllConvertible(ops, parseTime, parseReal) && fields == ConvertedRows(ops, parseTime, parseReal)
    requires |log| == |fields|
    requires forall i :: 0 <= i < |log| ==> (log[i].profit == fields[i].profit && log[i].openTime == fields[i].openTime &&
        log[i].closeTime == fields[i].closeTime && log[i].symbol == fields[i].symbol && log[i].kind == fields[i].kind)
    ensures forall i :: 0 <= i < |log| ==> (Convertible(ops.body[i], parseTime, parseReal) &&
        log[i].profit == parseReal(ops.body[i][12]).value &&
        log[i].openTime == parseTime(ops.body[i][0]).value &&
        log[i].closeTime == parseTime(ops.body[i][7]).value &&
        log[i].symbol == ops.body[i][3] &&
        log[i].kind == ops.body[i][1])
  {
    forall i | 0 <= i < |log|
      ensures Convertible(ops.body[i], parseTime, parseReal) &&
        log[i].profit == parseReal(ops.body[i][12]).value && log[i].openTime == parseTime(ops.body[i][0]).value &&
        log[i].closeTime == parseTime(ops.body[i][7]).value && log[i].symbol == ops.body[i][3] &&
        log[i].kind == ops.body[i][1]
    {
      RowFields(ops.body[i], fields[i], parseTime, parseReal);
    }
  }

  /** The converted fields of a row are the values read from its cells. */
  lemma RowFields(row: seq<string>, fields: Fields, parseTime: string -> Option<int>, parseReal: string -> Option<real>)
    requires Convertible(row, parseTime, parseReal) && fields == FieldsOf(row, parseTime, parseReal)
    ensures fields.profit == parseReal(row[12]).value && fields.openTime == parseTime(row[0]).value &&
      fields.closeTime == parseTime(row[7]).value && fields.symbol == row[3] && fields.kind == row[1]
  {
  }

  /** Each operation carries the values of its own row. */
  lemma FromFieldsRows(fields: seq<Fields>, deposit: real, showReal: real -> string)
    requires FromFields(fields, deposit, showReal).Ok?
    ensures var log := FromFields(fields, deposit, showReal).value;
      |log| == |fields| &&
      forall i :: 0 <= i < |log| ==> (log[i].profit == fields[i].profit && log[i].openTime == fields[i].openTime &&
        log[i].closeTime == fields[i].closeTime && log[i].symbol == fields[i].symbol && log[i].kind == fields[i].kind)
  {
  }

  /** The trade log holds exactly the rows before the first marker row, in
      order, with their own values. */
  lemma ParseKeepsRowsBeforeSentinel(raw: RawTable, deposit: real, parseTime: string -> Option<int>,
                                     parseReal: string -> Option<real>, showReal: real -> string)
    requires ParseSpec(raw, deposit, parseTime, parseReal, showReal).Ok?
    ensures Promoted(raw).Ok?
    ensures var f := Promoted(raw).value;
      TICKET in f.header && FirstSentinel(f.body, IndexOf(f.header, TICKET)).Some?
    ensures var f := Promoted(raw).value;
      var log := ParseSpec(raw, deposit, parseTime, parseReal, showReal).value;
      var c := IndexOf(f.header, TICKET);
      |log| == FirstSentinel(f.body, c).value &&
      (forall i :: 0 <= i < |log| ==> !IsSentinel(f.body[i], c)) &&
      forall i :: 0 <= i < |log| ==> (Convertible(RemoveAt(f.body[i], c), parseTime, parseReal) &&
        log[i].profit == parseReal(RemoveAt(f.body[i], c)[12]).value &&
        log[i].openTime == parseTime(RemoveAt(f.body[i], c)[0]).value &&
        log[i].symbol == RemoveAt(f.body[i], c)[3])
  {
    ParseSteps(raw, deposit, parseTime, parseReal, showReal);
    var f := Promoted(raw).value;
    var ops := Truncate(f).value;
    FinishRows(ops, deposit, parseTime, parseReal, showReal);
  }

  /** Durations and balances of the result: duration = close - open, and the
      balance starts from the deposit and moves by each trade's profit. */
  lemma ParseBalanceAndDuration(raw: RawTable, deposit: real, parseTime: string -> Option<int>,
                                parseReal: string -> Option<real>, showReal: real -> string)
    requires ParseSpec(raw, deposit, parseTime, parseReal, showReal).Ok?
    ensures BalanceFollows(ParseSpec(raw, deposit, parseTime, parseReal, showReal).value, deposit)
  {
    ParseSteps(raw, deposit, parseTime, parseReal, showReal);
    var fr := Truncate(Promoted(raw).value).value;
    FinishBalance(fr, deposit, parseTime, parseReal, showReal);
  }

  lemma FinishBalance(fr: Frame, deposit: real, parseTime: string -> Option<int>, parseReal: string -> Option<real>,
                      showReal: real -> string)
    requires Rectangular(fr) && ConvertAll(fr, CONVERSIONS, parseTime, parseReal).Ok?
    requires Finish(fr, deposit, parseTime, parseReal, showReal).Ok?
    ensures BalanceFollows(Finish(fr, deposit, parseTime, parseReal, showReal).value, deposit)
  {
    FinishFromFields(fr, deposit, parseTime, parseReal, showReal);
    FromFieldsBalance(ConvertedRows(fr, parseTime, parseReal), deposit, showReal);
  }

  lemma FromFieldsBalance(fields: seq<Fields>, deposit: real, showReal: real -> string)
    requires FromFields(fields, deposit, showReal).Ok?
    ensures BalanceFollows(FromFields(fields, deposit, showReal).value, deposit)
  {
    var pips := GetPips(PriceRows(fields, showReal), true);
    assert FromFields(fields, deposit, showReal).value == Assemble(fields, pips.value, deposit);
    AssembleBalance(fields, pips.value, deposit);
  }

  lemma AssembleBalance(fields: seq<Fields>, pips: seq<real>, deposit: real)
    requires |pips| == |fields|
    ensures BalanceFollows(Assemble(fields, pips, deposit), deposit)
  {
    var rows := seq(|fields|, i requires 0 <= i < |fields| =>
      var x := fields[i];
      Operation(x.openTime, x.closeTime, x.sl, x.tp, x.closeTime - x.openTime, x.kind, x.volume, x.symbol,
                x.openPrice, x.closePrice, pips[i], x.profit, 0.0));
    assert Assemble(fields, pips, deposit) == WithBalance(rows, deposit);
    WithBalanceFollows(rows, deposit);
  }

  /** A marker in the first data row leaves the log empty, and the first
      open price `get_points` reads does not exist (IndexError). */
  lemma ParseEmptyLog(ops: Frame, deposit: real, parseTime: string -> Option<int>, parseReal: string -> Option<real>,
                      showReal: real -> string)
    requires Rectangular(ops) && ops.body == [] && |ops.header| == 13
    requires ConvertAll(ops, CONVERSIONS, parseTime, parseReal).Ok?
    ensures Finish(ops, deposit, parseTime, parseReal, showReal) == Err(IndexError)
  {
  }

  // ---------------------------------------------------------------------
  // What the file name says

  /** The file name before its first '.'. */
  function Stem(file: string): string {
    Split(file, EXTENSION_SEP)[0]
  }

  /** `_bt_period`: the last '_'-separated field of the stem. */
  function PeriodOf(file: string): (p: BtPeriod)
    ensures var fields := Split(Stem(file), GENBOX_FIELD_SEP);
      p != ISOS ==> PeriodToText(p) == fields[|fields| - 1]
    ensures var fields := Split(Stem(file), GENBOX_FIELD_SEP);
      p == ISOS <==> fields[|fields| - 1] != "IS" && fields[|fields| - 1] != "OS"
  {
    var fields := Split(Stem(file), GENBOX_FIELD_SEP);
    var last := fields[|fields| - 1];
    if last == "IS" then IS else if last == "OS" then OS else ISOS
  }

  /** The `name` property: the whole stem for IS+OS, otherwise the stem
      without its last field. */
  function Name(file: string): (n: string)
    ensures PeriodOf(file) == ISOS ==> n == Stem(file)
    ensures PeriodOf(file) != ISOS && GENBOX_FIELD_SEP !in Stem(file) ==> n == ""
  {
    var fields := Split(Stem(file), GENBOX_FIELD_SEP);
    if PeriodOf(file) == ISOS then Stem(file) else Join(fields[..|fields| - 1], GENBOX_FIELD_SEP)
  }

  /** For an in-sample or out-of-sample file whose stem has a separator, the
      name, a '_' and the period's text make the stem again. */
  lemma NameAndPeriod(file: string)
    requires PeriodOf(file) != ISOS
    requires GENBOX_FIELD_SEP in Stem(file)
    ensures Name(file) + [GENBOX_FIELD_SEP] + PeriodToText(PeriodOf(file)) == Stem(file)
  {
    var stem := Stem(file);
    var fields := Split(stem, GENBOX_FIELD_SEP);
    SplitSeveral(stem, GENBOX_FIELD_SEP);
    assert Name(file) == Join(fields[..|fields| - 1], GENBOX_FIELD_SEP);
    JoinSnoc(fields, GENBOX_FIELD_SEP);
    JoinSplit(stem, GENBOX_FIELD_SEP);
  }

  /** A stem with '_' splits into at least two fields. */
  lemma SplitSeveral(s: string, sep: char)
    requires sep in s
    ensures |Split(s, sep)| >= 2
  {
  }

  /** A stem made of the period alone has an empty name, so the name, '_'
      and the period are not the stem. */
  lemma NameOfBareStem()
    ensures PeriodOf("IS.html") == IS
    ensures Name("IS.html") == ""
  {
    assert IndexOf("IS.html", '.') == 2;
    assert "IS.html"[..2] == "IS";
    assert Split("IS.html", '.')[0] == "IS";
    assert '_' !in "IS";
    assert Split("IS", '_') == ["IS"];
  }

  /** The `symbol` property: the first symbol of the log, upper-cased
      (IndexError on an empty log). */
  function Symbol(ops: seq<Operation>): (r: Result<string>)
    ensures r.Err? <==> ops == []
    ensures r.Err? ==> r.error == IndexError
  {
    var symbols := seq(|ops|, i requires 0 <= i < |ops| => ops[i].symbol);
    var unique := Distinct(symbols);
    assert ops != [] ==> symbols[0] in symbols;
    if unique == [] then Err(IndexError)
    else Ok(Upper(unique[0]))
  }

  /** The `ordertype` property: the first type of the log, upper-cased and
      read as an order type. */
  function OrderType(ops: seq<Operation>): (r: Result<BtOrderType>)
    ensures ops == [] ==> r == Err(IndexError)
  {
    var kinds := seq(|ops|, i requires 0 <= i < |ops| => ops[i].kind);
    var unique := Distinct(kinds);
    if unique == [] then Err(IndexError) else TextToOrderType(Upper(unique[0]))
  }

  /** The first distinct value is the first value. */
  lemma {:induction false} DistinctFirst<T(!new)>(s: seq<T>)
    requires s != []
    ensures Distinct(s) != [] && Distinct(s)[0] == s[0]
    decreases |s|
  {
    if |s| > 1 {
      DistinctFirst(s[..|s| - 1]);
    } else {
      assert Distinct(s[..0]) == [];
    }
  }

  /** Symbol and order type depend only on the first operation. */
  lemma FirstOperationDecides(ops: seq<Operation>)
    requires ops != []
    ensures Symbol(ops) == Ok(Upper(ops[0].symbol))
    ensures OrderType(ops) == TextToOrderType(Upper(ops[0].kind))
  {
    DistinctFirst(seq(|ops|, i requires 0 <= i < |ops| => ops[i].symbol));
    DistinctFirst(seq(|ops|, i requires 0 <= i < |ops| => ops[i].kind));
  }
}
