/** The spreadsheet side of the Warsaw housing script: finding the Warsaw
    column, turning data rows into quarterly prices, and the join of the
    interpolated monthly prices with the monthly gold prices. The workbook is
    a sequence of rows of cells (openpyxl's `values_only` rows, a missing
    trailing cell read as empty); `float()` of a text cell is the oracle
    `toFloat`. */
module WarsawM2 {
  import opened Common
  import opened Text
  import opened Calendar
  import opened WarsawPeriod
  import opened WarsawInterpolation

  /** A cell value: empty (`None`), a string, or a number. */
  datatype Cell = EmptyCell | TextCell(text: string) | NumberCell(number: real)

  /** Python's falsiness of a cell value. */
  predicate Falsy(c: Cell) {
    c.EmptyCell? || c == TextCell("") || c == NumberCell(0.0)
  }

  /** Only the first rows of the sheet are searched for the header. */
  const HeaderScanRows := 20

  /** `cell and 'warsza' in str(cell).lower()`. The text of a number
      (`"1234.5"`, `"inf"`, `"1e+20"`) never holds the word, so only a text
      cell can match. */
  predicate IsWarsawCell(c: Cell) {
    c.TextCell? && Contains(Lower(c.text), "warsza")
  }

  predicate IsHeaderRow(row: seq<Cell>) {
    exists i :: 0 <= i < |row| && IsWarsawCell(row[i])
  }

  /** The header position, 1-based like openpyxl's row and column numbers. */
  datatype Header = Header(row: nat, column: nat)

  /** `h` is the first of the first 20 rows holding a Warsaw cell, and the
      first such cell in it. */
  ghost predicate IsFirstHeader(sheet: seq<seq<Cell>>, h: Header) {
    1 <= h.row <= |sheet| && h.row <= HeaderScanRows &&
    1 <= h.column <= |sheet[h.row - 1]| && IsWarsawCell(sheet[h.row - 1][h.column - 1]) &&
    (forall r :: 0 <= r < h.row - 1 ==> !IsHeaderRow(sheet[r])) &&
    var cells := sheet[h.row - 1];
    forall i :: 0 <= i < h.column - 1 ==> !IsWarsawCell(cells[i])
  }

  ghost predicate NoHeader(sheet: seq<seq<Cell>>) {
    forall r :: 0 <= r < |sheet| && r < HeaderScanRows ==> !IsHeaderRow(sheet[r])
  }

  /** The header scan of `extract_warsaw_quarterly_prices`. */
  method FindWarsawColumn(sheet: seq<seq<Cell>>) returns (header: Option<Header>)
    ensures header.None? <==> NoHeader(sheet)
    ensures header.Some? ==> IsFirstHeader(sheet, header.value)
  {
    var r := 0;
    while r < |sheet| && r < HeaderScanRows
      invariant 0 <= r <= |sheet|
      invariant forall r' :: 0 <= r' < r ==> !IsHeaderRow(sheet[r'])
    {
      var row := sheet[r];
      var c := 0;
      while c < |row| && !IsWarsawCell(row[c])
        invariant 0 <= c <= |row|
        invariant forall i :: 0 <= i < c ==> !IsWarsawCell(row[i])
      {
        c := c + 1;
      }
      if c < |row| {
        return Some(Header(r + 1, c + 1));
      }
      r := r + 1;
    }
    return None;
  }

  /** A row's cell; cells past its end are empty. */
  function CellAt(row: seq<Cell>, i: int): Cell {
    if 0 <= i < |row| then row[i] else EmptyCell
  }

  /** `float(price_cell)`. */
  function PriceOf(c: Cell, toFloat: string -> Option<real>): Option<real> {
    match c
    case NumberCell(x) => Some(x)
    case TextCell(t) => toFloat(t)
    case EmptyCell => None
  }

  /** What one data row gives: nothing when the period or the price cell is
      falsy, the period has no year or no quarter, or the price does not
      convert; otherwise one record. A number in the period column is
      skipped: its text (`"2023"`, `"2023.0"`) may hold a year but never a
      quarter. */
  function RowRecord(row: seq<Cell>, column: int, toFloat: string -> Option<real>): Option<QuarterPrice> {
    CellsRecord(CellAt(row, 0), CellAt(row, column - 1), toFloat)
  }

  function CellsRecord(period: Cell, price: Cell, toFloat: string -> Option<real>): Option<QuarterPrice> {
    if Falsy(period) || Falsy(price) || !period.TextCell? then None
    else
      var p := ParsePeriod(Strip(period.text));
      if p.year.None? || p.quarter.None? then None
      else
        match PriceOf(price, toFloat)
        case None => None
        case Some(x) => Some(QuarterPrice(p.year.value, p.quarter.value, x))
  }

  /** The records of the data rows, in row order. */
  function RowRecords(rows: seq<seq<Cell>>, column: int, toFloat: string -> Option<real>): seq<QuarterPrice> {
    Collect(rows, row => RowRecord(row, column, toFloat))
  }

  /** `extract_warsaw_quarterly_prices`: the header is searched first; with
      none, the ValueError is `None`; otherwise every row below the header
      row is read in order. */
  method ExtractWarsawQuarterlyPrices(sheet: seq<seq<Cell>>, toFloat: string -> Option<real>)
    returns (header: Option<Header>, prices: Option<seq<QuarterPrice>>)
    ensures header.None? <==> NoHeader(sheet)
    ensures header.Some? ==> IsFirstHeader(sheet, header.value)
    ensures prices.None? <==> header.None?
    ensures prices.Some? ==> prices.value == RowRecords(sheet[header.value.row..], header.value.column, toFloat)
  {
    header := FindWarsawColumn(sheet);
    if header.None? {
      return header, None;
    }
    var h := header.value;
    var rows := sheet[h.row..];
    var f := row => RowRecord(row, h.column, toFloat);
    var found: seq<QuarterPrice> := [];
    for i := 0 to |rows|
      invariant found == Collect(rows[..i], f)
    {
      CollectSnoc(rows, i, f);
      var record := RowRecord(rows[i], h.column, toFloat);
      if record.Some? {
        found := found + [record.value];
      }
    }
    assert rows[..|rows|] == rows;
    return header, Some(found);
  }

  /** The rows are read independently and in order. */
  lemma RowRecordsConcat(a: seq<seq<Cell>>, b: seq<seq<Cell>>, column: int, toFloat: string -> Option<real>)
    ensures RowRecords(a + b, column, toFloat) == RowRecords(a, column, toFloat) + RowRecords(b, column, toFloat)
  {
    CollectConcat(a, b, row => RowRecord(row, column, toFloat));
  }

  lemma RowRecordValid(row: seq<Cell>, column: int, toFloat: string -> Option<real>)
    ensures RowRecord(row, column, toFloat).Some? ==>
      var e := RowRecord(row, column, toFloat).value;
      2000 <= e.year <= 2099 && e.quarter >= 1
  {
    var period := CellAt(row, 0);
    if period.TextCell? {
      ParsePeriodYear(Strip(period.text));
      ParsePeriodQuarter(Strip(period.text));
    }
  }

  /** Every record has a year 2000..2099 and a positive quarter, and comes
      from one of the rows. */
  lemma RowRecordsValid(rows: seq<seq<Cell>>, column: int, toFloat: string -> Option<real>, e: QuarterPrice)
    requires e in RowRecords(rows, column, toFloat)
    ensures 2000 <= e.year <= 2099 && e.quarter >= 1
    ensures exists i :: 0 <= i < |rows| && RowRecord(rows[i], column, toFloat) == Some(e)
  {
    CollectMembers(rows, row => RowRecord(row, column, toFloat), e);
    var i :| 0 <= i < |rows| && RowRecord(rows[i], column, toFloat) == Some(e);
    RowRecordValid(rows[i], column, toFloat);
  }

  /** A labelled row is read, with the price from the Warsaw column. */
  lemma QuarterRowRead(toFloat: string -> Option<real>)
    ensures RowRecord([TextCell(" Q1 2023"), NumberCell(1.0), NumberCell(15000.0)], 3, toFloat) ==
      Some(QuarterPrice(2023, 1, 15000.0))
  {
    var row := [TextCell(" Q1 2023"), NumberCell(1.0), NumberCell(15000.0)];
    assert CellAt(row, 0) == TextCell(" Q1 2023") && CellAt(row, 2) == NumberCell(15000.0);
    assert " Q1 2023" != "" by {
      assert " Q1 2023"[0] == ' ';
    }
    StripExample();
    QLabel();
    PeriodCellRead(" Q1 2023", "Q1 2023", 15000.0, toFloat);
  }

  /** A non-empty text period whose stripped text is `t` and a non-zero number
      price give the record of `t`'s year and quarter. */
  lemma PeriodCellRead(period: string, t: string, price: real, toFloat: string -> Option<real>)
    requires period != "" && Strip(period) == t && price != 0.0
    requires ParsePeriod(t).year.Some? && ParsePeriod(t).quarter.Some?
    ensures CellsRecord(TextCell(period), NumberCell(price), toFloat) ==
      Some(QuarterPrice(ParsePeriod(t).year.value, ParsePeriod(t).quarter.value, price))
  {
  }

  lemma StripExample()
    ensures Strip(" Q1 2023") == "Q1 2023"
  {
    assert " Q1 2023" == [' '] + "Q1 2023";
    StripLeadingSpace(' ', "Q1 2023");
    StripNoSpace("Q1 2023");
  }

  /** A zero price is falsy and a blank period too: the row is dropped. */
  lemma FalsyRowsDropped(toFloat: string -> Option<real>)
    ensures RowRecord([TextCell("Q1 2023"), NumberCell(1.0), NumberCell(0.0)], 3, toFloat) == None
    ensures RowRecord([TextCell(""), NumberCell(15000.0)], 2, toFloat) == None
    ensures RowRecord([TextCell("Q1 2023")], 2, toFloat) == None
  {
  }

  // ---------------------------------------------------------- gold join

  function RecordKey(r: MonthlyM2): YearMonth {
    YearMonth(r.year, r.month)
  }

  datatype MonthlyM2Gold = MonthlyM2Gold(year: int, month: int, priceM2Pln: real, priceM2Gold: Option<real>)

  /** `convert_to_gold_equivalent`: every record is kept in order with its
      month and PLN price; it gets a gold value exactly when its month is in
      the gold map, and that value times the gold price gives back the PLN
      price. A zero gold price raises ZeroDivisionError, which ends the run:
      `None`. */
  method ConvertToGoldEquivalent(monthly: seq<MonthlyM2>, gold: map<YearMonth, real>)
    returns (result: Option<seq<MonthlyM2Gold>>)
    ensures result.None? <==>
      exists i :: 0 <= i < |monthly| && RecordKey(monthly[i]) in gold && gold[RecordKey(monthly[i])] == 0.0
    ensures result.Some? ==> |result.value| == |monthly|
    ensures result.Some? ==> forall i :: 0 <= i < |monthly| ==>
      result.value[i].year == monthly[i].year && result.value[i].month == monthly[i].month &&
      result.value[i].priceM2Pln == monthly[i].priceM2Pln
    ensures result.Some? ==> forall i :: 0 <= i < |monthly| ==>
      (result.value[i].priceM2Gold.Some? <==> RecordKey(monthly[i]) in gold)
    ensures result.Some? ==> forall i :: 0 <= i < |monthly| && result.value[i].priceM2Gold.Some? ==>
      result.value[i].priceM2Gold.value * gold[RecordKey(monthly[i])] == monthly[i].priceM2Pln
  {
    var out: seq<MonthlyM2Gold> := [];
    for i := 0 to |monthly|
      invariant |out| == i
      invariant forall j :: 0 <= j < i ==> !(RecordKey(monthly[j]) in gold && gold[RecordKey(monthly[j])] == 0.0)
      invariant forall j :: 0 <= j < i ==>
        out[j].year == monthly[j].year && out[j].month == monthly[j].month &&
        out[j].priceM2Pln == monthly[j].priceM2Pln
      invariant forall j :: 0 <= j < i ==> (out[j].priceM2Gold.Some? <==> RecordKey(monthly[j]) in gold)
      invariant forall j :: 0 <= j < i && out[j].priceM2Gold.Some? ==>
        out[j].priceM2Gold.value * gold[RecordKey(monthly[j])] == monthly[j].priceM2Pln
    {
      var e := monthly[i];
      var key := YearMonth(e.year, e.month);
      if key in gold {
        var g := gold[key];
        if g == 0.0 {
          return None;
        }
        out := out + [MonthlyM2Gold(e.year, e.month, e.priceM2Pln, Some(e.priceM2Pln / g))];
      } else {
        out := out + [MonthlyM2Gold(e.year, e.month, e.priceM2Pln, None)];
      }
    }
    return Some(out);
  }
}
