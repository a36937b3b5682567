/** The stock-price script: daily quotes of each configured ticker are
    aggregated to one bar per calendar month and saved with a gold
    equivalent of the month's close. The download is a parameter: `None`
    when `yf.download` raises, otherwise the daily frame. */
module StockPrices {
  import opened Common
  import opened Text
  import opened Calendar
  import opened GoldReference

  /** One trading day of the downloaded frame. */
  datatype DailyRow = DailyRow(date: Date, open: real, high: real, low: real, close: real, volume: real)

  /** The frame: its rows in index order, and whether it has a `Volume` column. */
  datatype DailyFrame = DailyFrame(rows: seq<DailyRow>, hasVolume: bool)

  /** One month of the output. */
  datatype MonthlyBar = MonthlyBar(
    year: int, month: int,
    open: real, high: real, low: real, close: real,
    volume: Option<int>, priceGold: Option<real>)

  /** A ticker of the configuration; `startYear` defaults to 2013. The
      model does not read it: the download from 1 January of that year to
      today is the frame parameter that `FetchAllStocks` receives for the
      ticker. */
  datatype StockConfig = StockConfig(ticker: string, name: string, startYear: Option<int>)

  /** What `save_to_json` writes, without the clock-dependent `generated`
      field and the fixed `note`. */
  datatype StockFile = StockFile(
    fileName: string, ticker: string, name: string,
    dataPoints: int, currency: string, data: seq<MonthlyBar>)

  /** `daily_data.index.to_period('M')`: the calendar month of a row. */
  function RowKey(r: DailyRow): Key {
    Key(r.date.year, r.date.month, 0)
  }

  function High(r: DailyRow): real {
    r.high
  }

  function Low(r: DailyRow): real {
    r.low
  }

  /** `int(x)` of a float: the integer part, truncated toward zero. */
  function Truncate(x: real): (n: int)
    ensures x >= 0.0 ==> n as real <= x < n as real + 1.0
    ensures x < 0.0 ==> n as real - 1.0 < x <= n as real
  {
    if x >= 0.0 then x.Floor else -((-x).Floor)
  }

  /** The gold price of a month is there and is zero: the division raises
      ZeroDivisionError. */
  predicate ZeroGold(gold: map<YearMonth, real>, ym: YearMonth) {
    ym in gold && gold[ym] == 0.0
  }

  /** `group['High'].max()`. */
  function GroupHigh(group: seq<DailyRow>): (h: real)
    requires |group| > 0
    ensures forall i :: 0 <= i < |group| ==> group[i].high <= h
    ensures exists i :: 0 <= i < |group| && group[i].high == h
  {
    var highs := Values(group, High);
    var h := MaxOf(highs);
    assert exists i :: 0 <= i < |group| && highs[i] == h;
    h
  }

  /** `group['Low'].min()`. */
  function GroupLow(group: seq<DailyRow>): (l: real)
    requires |group| > 0
    ensures forall i :: 0 <= i < |group| ==> l <= group[i].low
    ensures exists i :: 0 <= i < |group| && group[i].low == l
  {
    var lows := Values(group, Low);
    var l := MinOf(lows);
    assert exists i :: 0 <= i < |group| && lows[i] == l;
    l
  }

  /** `close / gold_price` when the month has a gold price, else nothing. */
  function GoldEquivalent(close: real, gold: map<YearMonth, real>, ym: YearMonth): (p: Option<real>)
    requires !ZeroGold(gold, ym)
    ensures p.Some? <==> ym in gold
    ensures p.Some? ==> p.value * gold[ym] == close
  {
    if ym in gold then Some(close / gold[ym]) else None
  }

  /** The bar of the month `k` whose rows, in frame order, are `group`. */
  function MonthBar(k: Key, group: seq<DailyRow>, hasVolume: bool, gold: map<YearMonth, real>): (b: MonthlyBar)
    requires |group| > 0 && !ZeroGold(gold, YearMonth(k.k1, k.k2))
    ensures b.year == k.k1 && b.month == k.k2
    ensures b.open == group[|group| - 1].open && b.close == group[|group| - 1].close
    ensures b.volume == (if hasVolume then Some(Truncate(group[|group| - 1].volume)) else None)
    ensures forall i :: 0 <= i < |group| ==> group[i].high <= b.high && b.low <= group[i].low
    ensures exists i :: 0 <= i < |group| && group[i].high == b.high
    ensures exists i :: 0 <= i < |group| && group[i].low == b.low
    ensures b.priceGold.Some? <==> YearMonth(k.k1, k.k2) in gold
    ensures b.priceGold.Some? ==> b.priceGold.value * gold[YearMonth(k.k1, k.k2)] == b.close
  {
    var last := group[|group| - 1];
    var high, low := GroupHigh(group), GroupLow(group);
    var volume := if hasVolume then Some(Truncate(last.volume)) else None;
    var priceGold := GoldEquivalent(last.close, gold, YearMonth(k.k1, k.k2));
    MonthlyBar(k.k1, k.k2, last.open, high, low, last.close, volume, priceGold)
  }

  /** Some day of the frame falls in a month whose gold price is zero. */
  ghost predicate HitsZeroGold(rows: seq<DailyRow>, gold: map<YearMonth, real>) {
    exists i :: 0 <= i < |rows| && ZeroGold(gold, YearMonth(rows[i].date.year, rows[i].date.month))
  }

  /** `bars` has one bar per calendar month of `rows`, months strictly
      ascending, each built from that month's rows. */
  ghost predicate IsMonthlyAggregate(rows: seq<DailyRow>, hasVolume: bool, gold: map<YearMonth, real>, bars: seq<MonthlyBar>) {
    |bars| == |KeysOf(rows, RowKey)| &&
    (forall i, j :: 0 <= i < j < |bars| ==> Less(Key(bars[i].year, bars[i].month, 0), Key(bars[j].year, bars[j].month, 0))) &&
    (forall i :: 0 <= i < |bars| ==> BarOfMonth(rows, hasVolume, gold, bars[i])) &&
    (forall k :: k in KeysOf(rows, RowKey) ==> exists i :: 0 <= i < |bars| && bars[i].year == k.k1 && bars[i].month == k.k2)
  }

  /** `b` is the bar of a month present in `rows`. */
  ghost predicate BarOfMonth(rows: seq<DailyRow>, hasVolume: bool, gold: map<YearMonth, real>, b: MonthlyBar) {
    var k := Key(b.year, b.month, 0);
    Filter(rows, RowKey, k) != [] && !ZeroGold(gold, YearMonth(b.year, b.month)) &&
    b == MonthBar(k, Filter(rows, RowKey, k), hasVolume, gold)
  }

  /** Every day of the frame belongs to one of its months. */
  lemma RowMonthPresent(rows: seq<DailyRow>, i: int)
    requires 0 <= i < |rows|
    ensures RowKey(rows[i]) in KeysOf(rows, RowKey)
  {
  }

  lemma KeysAreMonths(rows: seq<DailyRow>, k: Key)
    requires k in KeysOf(rows, RowKey)
    ensures k == Key(k.k1, k.k2, 0)
  {
  }

  /** A month of the frame with a zero gold price makes the aggregation raise. */
  lemma ZeroGoldHit(rows: seq<DailyRow>, gold: map<YearMonth, real>, k: Key)
    requires k in KeysOf(rows, RowKey) && ZeroGold(gold, YearMonth(k.k1, k.k2))
    ensures HitsZeroGold(rows, gold)
  {
    var r :| 0 <= r < |rows| && RowKey(rows[r]) == k;
    assert ZeroGold(gold, YearMonth(rows[r].date.year, rows[r].date.month));
  }

  /** The bar built from a month's rows is that month's bar. */
  lemma BarOfMonthIn(rows: seq<DailyRow>, hasVolume: bool, gold: map<YearMonth, real>, k: Key)
    requires k in KeysOf(rows, RowKey) && !ZeroGold(gold, YearMonth(k.k1, k.k2))
    ensures Filter(rows, RowKey, k) != []
    ensures BarOfMonth(rows, hasVolume, gold, MonthBar(k, Filter(rows, RowKey, k), hasVolume, gold))
  {
    FilterNonEmpty(rows, RowKey, k);
    var r :| 0 <= r < |rows| && RowKey(rows[r]) == k;
    assert k == Key(k.k1, k.k2, 0);
  }

  /** The bars of all months, in ascending month order, are the aggregate,
      and no day then falls in a zero-gold month. */
  lemma AggregateOfMonths(rows: seq<DailyRow>, hasVolume: bool, gold: map<YearMonth, real>, months: seq<Key>, out: seq<MonthlyBar>)
    requires StrictlyIncreasing(months) && |months| == |KeysOf(rows, RowKey)|
    requires forall k :: k in months <==> k in KeysOf(rows, RowKey)
    requires |out| == |months|
    requires forall j :: 0 <= j < |out| ==> out[j].year == months[j].k1 && out[j].month == months[j].k2
    requires forall j :: 0 <= j < |out| ==> BarOfMonth(rows, hasVolume, gold, out[j])
    requires forall j :: 0 <= j < |out| ==> !ZeroGold(gold, YearMonth(months[j].k1, months[j].k2))
    ensures !HitsZeroGold(rows, gold)
    ensures IsMonthlyAggregate(rows, hasVolume, gold, out)
  {
    forall r | 0 <= r < |rows| ensures !ZeroGold(gold, YearMonth(rows[r].date.year, rows[r].date.month)) {
      RowMonthPresent(rows, r);
      var j :| 0 <= j < |months| && months[j] == RowKey(rows[r]);
    }
    forall i, j | 0 <= i < j < |out| ensures Less(Key(out[i].year, out[i].month, 0), Key(out[j].year, out[j].month, 0)) {
      KeysAreMonths(rows, months[i]);
      KeysAreMonths(rows, months[j]);
      assert Less(months[i], months[j]);
    }
    forall k | k in KeysOf(rows, RowKey) ensures exists i :: 0 <= i < |out| && out[i].year == k.k1 && out[i].month == k.k2 {
      var j :| 0 <= j < |months| && months[j] == k;
      assert out[j].year == k.k1 && out[j].month == k.k2;
    }
  }

  /** `out` holds the bars of the first `|out|` months, in their order. */
  ghost predicate BarsAlong(rows: seq<DailyRow>, hasVolume: bool, gold: map<YearMonth, real>, months: seq<Key>, out: seq<MonthlyBar>) {
    |out| <= |months| &&
    forall j :: 0 <= j < |out| ==>
      out[j].year == months[j].k1 && out[j].month == months[j].k2 &&
      BarOfMonth(rows, hasVolume, gold, out[j]) && !ZeroGold(gold, YearMonth(months[j].k1, months[j].k2))
  }

  lemma BarsAlongSnoc(rows: seq<DailyRow>, hasVolume: bool, gold: map<YearMonth, real>, months: seq<Key>, out: seq<MonthlyBar>, bar: MonthlyBar)
    requires BarsAlong(rows, hasVolume, gold, months, out) && |out| < |months|
    requires bar.year == months[|out|].k1 && bar.month == months[|out|].k2
    requires BarOfMonth(rows, hasVolume, gold, bar) && !ZeroGold(gold, YearMonth(bar.year, bar.month))
    ensures BarsAlong(rows, hasVolume, gold, months, out + [bar])
  {
    var n := out + [bar];
    forall j | 0 <= j < |n|
      ensures n[j].year == months[j].k1 && n[j].month == months[j].k2
      ensures BarOfMonth(rows, hasVolume, gold, n[j]) && !ZeroGold(gold, YearMonth(months[j].k1, months[j].k2))
    {
      if j < |out| {
        assert n[j] == out[j];
      }
    }
  }

  /** The body of the loop over the groups: the bar of one month. */
  method GroupBar(rows: seq<DailyRow>, hasVolume: bool, gold: map<YearMonth, real>, group: seq<DailyRow>, k: Key)
    returns (bar: MonthlyBar)
    requires group == Filter(rows, RowKey, k)
    requires k in KeysOf(rows, RowKey) && !ZeroGold(gold, YearMonth(k.k1, k.k2))
    ensures bar.year == k.k1 && bar.month == k.k2
    ensures BarOfMonth(rows, hasVolume, gold, bar)
  {
    BarOfMonthIn(rows, hasVolume, gold, k);
    bar := MonthBar(k, group, hasVolume, gold);
  }

  /** The loop over the groups in month order: the bar of each month, or
      `None` at the first month whose gold price is zero. */
  method MonthBars(rows: seq<DailyRow>, hasVolume: bool, gold: map<YearMonth, real>, groups: map<Key, seq<DailyRow>>, months: seq<Key>)
    returns (bars: Option<seq<MonthlyBar>>)
    requires forall k :: k in groups ==> groups[k] == Filter(rows, RowKey, k)
    requires forall k :: k in months ==> k in groups && k in KeysOf(rows, RowKey)
    ensures bars.None? ==> HitsZeroGold(rows, gold)
    ensures bars.Some? ==> |bars.value| == |months|
    ensures bars.Some? ==> forall j :: 0 <= j < |months| ==> bars.value[j].year == months[j].k1 && bars.value[j].month == months[j].k2
    ensures bars.Some? ==> forall j :: 0 <= j < |months| ==> BarOfMonth(rows, hasVolume, gold, bars.value[j])
    ensures bars.Some? ==> forall j :: 0 <= j < |months| ==> !ZeroGold(gold, YearMonth(months[j].k1, months[j].k2))
  {
    var out: seq<MonthlyBar> := [];
    for i := 0 to |months|
      invariant |out| == i
      invariant BarsAlong(rows, hasVolume, gold, months, out)
    {
      var k := months[i];
      if ZeroGold(gold, YearMonth(k.k1, k.k2)) {
        ZeroGoldHit(rows, gold, k);
        return None;
      }
      var bar := GroupBar(rows, hasVolume, gold, groups[k], k);
      BarsAlongSnoc(rows, hasVolume, gold, months, out, bar);
      out := out + [bar];
    }
    return Some(out);
  }

  class StockPriceFetcher {
    /** `self.gold_prices`: `(year, month)` to the gold price per gram. */
    var goldPrices: map<YearMonth, real>

    constructor ()
      ensures goldPrices == map[]
    {
      goldPrices := map[];
    }

    /** `_load_gold_prices`: a missing file, an unreadable one or an entry
        lacking `year`, `month` or `price` gives False and keeps the old
        map; otherwise the map is replaced by the file's, a later entry for a
        month overwriting an earlier one. */
    method LoadGoldPrices(file: GoldFile) returns (loaded: bool)
      modifies this
      ensures loaded <==> file.Parsed? && forall i :: 0 <= i < |file.entries| ==> MonthlyComplete(file.entries[i])
      ensures !loaded ==> goldPrices == old(goldPrices)
      ensures loaded ==> LastWriteMap(goldPrices, MonthPricePairs(file.entries))
    {
      var prices := LoadMonthlyGold(file);
      if prices.None? {
        return false;
      }
      goldPrices := prices.value;
      return true;
    }

    /** `_aggregate_to_monthly`: one bar per month of the frame, months
        ascending, from the month's rows in frame order; a month whose gold
        price is zero raises, here `None`. */
    method AggregateToMonthly(rows: seq<DailyRow>, hasVolume: bool) returns (bars: Option<seq<MonthlyBar>>)
      ensures bars.None? <==> HitsZeroGold(rows, goldPrices)
      ensures bars.Some? ==> IsMonthlyAggregate(rows, hasVolume, goldPrices, bars.value)
    {
      var groups := Group(rows, RowKey);
      var months := SortedKeys(groups.Keys);
      bars := MonthBars(rows, hasVolume, goldPrices, groups, months);
      if bars.Some? {
        AggregateOfMonths(rows, hasVolume, goldPrices, months, bars.value);
      }
    }

    /** `fetch_stock_data`: a failed download or an empty frame gives
        `None`, and so does an aggregation that raises. */
    method FetchStockData(frame: Option<DailyFrame>) returns (bars: Option<seq<MonthlyBar>>)
      ensures frame.None? ==> bars.None?
      ensures frame.Some? && frame.value.rows == [] ==> bars.None?
      ensures frame.Some? && frame.value.rows != [] ==>
        (bars.None? <==> HitsZeroGold(frame.value.rows, goldPrices))
      ensures bars.Some? ==> frame.Some? && |bars.value| > 0
      ensures bars.Some? ==> IsMonthlyAggregate(frame.value.rows, frame.value.hasVolume, goldPrices, bars.value)
    {
      if frame.None? || frame.value.rows == [] {
        return None;
      }
      bars := AggregateToMonthly(frame.value.rows, frame.value.hasVolume);
      if bars.Some? {
        RowMonthPresent(frame.value.rows, 0);
      }
    }

    /** `fetch_all_stocks`: the gold prices are loaded once, then every
        ticker is fetched in configuration order, and exactly those whose
        download gave bars are saved, in that order. `frames[i]` is the
        download for `stocks[i]`. */
    method FetchAllStocks(goldFile: GoldFile, stocks: seq<StockConfig>, frames: seq<Option<DailyFrame>>)
      returns (saved: seq<StockFile>)
      requires |frames| == |stocks|
      modifies this
      ensures goldFile.Parsed? && (forall i :: 0 <= i < |goldFile.entries| ==> MonthlyComplete(goldFile.entries[i])) ==>
        LastWriteMap(goldPrices, MonthPricePairs(goldFile.entries))
      ensures !(goldFile.Parsed? && forall i :: 0 <= i < |goldFile.entries| ==> MonthlyComplete(goldFile.entries[i])) ==>
        goldPrices == old(goldPrices)
      ensures exists idx :: SavedInOrder(stocks, frames, goldPrices, |stocks|, idx, saved)
    {
      var _ := LoadGoldPrices(goldFile);
      ghost var gold := goldPrices;
      ghost var idx: seq<int> := [];
      saved := [];
      for i := 0 to |stocks|
        invariant goldPrices == gold
        invariant SavedInOrder(stocks, frames, gold, i, idx, saved)
      {
        var stock := stocks[i];
        var bars := FetchStockData(frames[i]);
        if bars.Some? && |bars.value| > 0 {
          var file := SaveToJson(stock.ticker, stock.name, bars.value);
          SavedSnoc(stocks, frames, gold, i, idx, saved, file);
          idx, saved := idx + [i], saved + [file];
        } else {
          SavedSkip(stocks, frames, gold, i, idx, saved);
        }
      }
    }
  }

  /** The download gave bars: a non-empty frame in which no day falls in a
      month whose gold price is zero. */
  ghost predicate GivesBars(frame: Option<DailyFrame>, gold: map<YearMonth, real>) {
    frame.Some? && frame.value.rows != [] && !HitsZeroGold(frame.value.rows, gold)
  }

  /** `f` is the file saved for `stock`: its monthly bars from `frame`,
      named after the ticker, with its currency label and with the number of
      bars as its count of data points. */
  ghost predicate FileOf(stock: StockConfig, frame: Option<DailyFrame>, gold: map<YearMonth, real>, f: StockFile) {
    f.ticker == stock.ticker && f.name == stock.name &&
    f.dataPoints == |f.data| > 0 && f.currency == Currency(f.ticker) && f.fileName == OutputFileName(f.ticker) &&
    frame.Some? && IsMonthlyAggregate(frame.value.rows, frame.value.hasVolume, gold, f.data)
  }

  /** After the first `n` tickers, `saved[j]` is the file of ticker
      `idx[j]`, the indices strictly increase, and a ticker below `n` is
      among them exactly when its download gave bars. */
  ghost predicate SavedInOrder(stocks: seq<StockConfig>, frames: seq<Option<DailyFrame>>, gold: map<YearMonth, real>,
                               n: int, idx: seq<int>, saved: seq<StockFile>)
    requires |frames| == |stocks|
  {
    0 <= n <= |stocks| && |idx| == |saved| &&
    FilesOf(stocks, frames, gold, idx, saved) && ChosenIndices(frames, gold, n, idx)
  }

  ghost predicate FilesOf(stocks: seq<StockConfig>, frames: seq<Option<DailyFrame>>, gold: map<YearMonth, real>,
                          idx: seq<int>, saved: seq<StockFile>)
    requires |frames| == |stocks| && |idx| == |saved|
  {
    forall j :: 0 <= j < |idx| ==> 0 <= idx[j] < |stocks| && FileOf(stocks[idx[j]], frames[idx[j]], gold, saved[j])
  }

  ghost predicate ChosenIndices(frames: seq<Option<DailyFrame>>, gold: map<YearMonth, real>, n: int, idx: seq<int>)
    requires 0 <= n <= |frames|
  {
    (forall j :: 0 <= j < |idx| ==> 0 <= idx[j] < n) &&
    (forall j, k :: 0 <= j < k < |idx| ==> idx[j] < idx[k]) &&
    (forall i :: 0 <= i < n ==> (i in idx <==> GivesBars(frames[i], gold)))
  }

  lemma FilesSnoc(stocks: seq<StockConfig>, frames: seq<Option<DailyFrame>>, gold: map<YearMonth, real>,
                  n: int, idx: seq<int>, saved: seq<StockFile>, f: StockFile)
    requires |frames| == |stocks| && 0 <= n < |stocks| && |idx| == |saved|
    requires FilesOf(stocks, frames, gold, idx, saved) && FileOf(stocks[n], frames[n], gold, f)
    ensures FilesOf(stocks, frames, gold, idx + [n], saved + [f])
  {
    var idx', saved' := idx + [n], saved + [f];
    forall j | 0 <= j < |idx'|
      ensures 0 <= idx'[j] < |stocks| && FileOf(stocks[idx'[j]], frames[idx'[j]], gold, saved'[j])
    {
      if j < |idx| {
        assert idx'[j] == idx[j] && saved'[j] == saved[j];
      } else {
        assert idx'[j] == n && saved'[j] == f;
      }
    }
  }

  lemma ChosenSnoc(frames: seq<Option<DailyFrame>>, gold: map<YearMonth, real>, n: int, idx: seq<int>)
    requires 0 <= n < |frames| && ChosenIndices(frames, gold, n, idx) && GivesBars(frames[n], gold)
    ensures ChosenIndices(frames, gold, n + 1, idx + [n])
  {
    var idx' := idx + [n];
    forall i | 0 <= i < n + 1 ensures i in idx' <==> GivesBars(frames[i], gold) {
      if i < n {
        assert i in idx' <==> i in idx;
      } else {
        assert idx'[|idx|] == n;
      }
    }
  }

  lemma SavedSnoc(stocks: seq<StockConfig>, frames: seq<Option<DailyFrame>>, gold: map<YearMonth, real>,
                  n: int, idx: seq<int>, saved: seq<StockFile>, f: StockFile)
    requires |frames| == |stocks| && n < |stocks|
    requires SavedInOrder(stocks, frames, gold, n, idx, saved)
    requires GivesBars(frames[n], gold) && FileOf(stocks[n], frames[n], gold, f)
    ensures SavedInOrder(stocks, frames, gold, n + 1, idx + [n], saved + [f])
  {
    FilesSnoc(stocks, frames, gold, n, idx, saved, f);
    ChosenSnoc(frames, gold, n, idx);
  }

  lemma SavedSkip(stocks: seq<StockConfig>, frames: seq<Option<DailyFrame>>, gold: map<YearMonth, real>,
                  n: int, idx: seq<int>, saved: seq<StockFile>)
    requires |frames| == |stocks| && n < |stocks|
    requires SavedInOrder(stocks, frames, gold, n, idx, saved)
    requires !GivesBars(frames[n], gold)
    ensures SavedInOrder(stocks, frames, gold, n + 1, idx, saved)
  {
  }

  // ---------------------------------------------------------- output file

  /** `ticker.replace('.', '_').replace(' ', '_').lower()`. */
  function SanitizedName(ticker: string): (r: string)
    ensures |r| == |ticker|
    ensures forall i :: 0 <= i < |r| ==> r[i] != '.' && r[i] != ' ' && !IsUpper(r[i])
    ensures forall i :: 0 <= i < |r| ==> r[i] == (if ticker[i] == '.' || ticker[i] == ' ' then '_' else LowerChar(ticker[i]))
  {
    Lower(ReplaceChar(ReplaceChar(ticker, '.', '_'), ' ', '_'))
  }

  /** `<sanitised ticker>-monthly.json`. */
  function OutputFileName(ticker: string): (r: string)
    ensures |r| == |ticker| + 13
    ensures r[..|ticker|] == SanitizedName(ticker) && r[|ticker|..] == "-monthly.json"
  {
    SanitizedName(ticker) + "-monthly.json"
  }

  /** `'PLN' if '.IL' in ticker or '.L' in ticker else 'local'`. */
  function Currency(ticker: string): string {
    if Contains(ticker, ".IL") || Contains(ticker, ".L") then "PLN" else "local"
  }

  /** `save_to_json`'s document: the count of data points is the number of
      bars written. */
  function SaveToJson(ticker: string, name: string, data: seq<MonthlyBar>): (f: StockFile)
    ensures f.dataPoints == |f.data| && f.data == data
    ensures f.ticker == ticker && f.name == name
    ensures f.fileName == OutputFileName(ticker) && f.currency == Currency(ticker)
  {
    StockFile(OutputFileName(ticker), ticker, name, |data|, Currency(ticker), data)
  }

  // ---------------------------------------------------------- properties

  /** Two tickers that differ only in case, or in `.` against ` ` against
      `_`, share one output file. */
  lemma SanitizedNameCollides()
    ensures SanitizedName("PKN.WA") == SanitizedName("pkn wa") == SanitizedName("PKN_WA") == "pkn_wa"
  {
  }

  /** A ticker with `.L` is labelled PLN, one without `.L` or `.IL` is not. */
  lemma CurrencyLabels()
    ensures Currency("BP.L") == "PLN"
    ensures Currency("PKN.WA") == "local"
  {
    assert OccursAt("BP.L", ".L", 2);
    assert !Contains("PKN.WA", ".L") by {
      forall i | 0 <= i <= 4 ensures !OccursAt("PKN.WA", ".L", i) {
        assert "PKN.WA"[i..i + 2][1] == "PKN.WA"[i + 1];
      }
    }
    assert !Contains("PKN.WA", ".IL") by {
      forall i | 0 <= i <= 3 ensures !OccursAt("PKN.WA", ".IL", i) {
        assert "PKN.WA"[i..i + 3][1] == "PKN.WA"[i + 1];
      }
    }
  }

  /** A one-day month: open, high, low and close are that day's, and the
      gold equivalent is the close over the month's gold price. */
  lemma SingleDayMonth(d: DailyRow, gold: map<YearMonth, real>)
    requires YearMonth(d.date.year, d.date.month) in gold && gold[YearMonth(d.date.year, d.date.month)] > 0.0
    ensures var b := MonthBar(RowKey(d), [d], true, gold);
      b.open == d.open && b.high == d.high && b.low == d.low && b.close == d.close &&
      b.priceGold == Some(d.close / gold[YearMonth(d.date.year, d.date.month)])
  {
  }

  /** The open is the last day's, not the first day's. */
  lemma OpenFromLastDay(gold: map<YearMonth, real>)
    requires YearMonth(2024, 1) !in gold
    ensures var d1 := DailyRow(Date(2024, 1, 2), 10.0, 12.0, 9.0, 11.0, 100.0);
      var d2 := DailyRow(Date(2024, 1, 31), 11.5, 13.0, 11.0, 12.5, 150.7);
      var b := MonthBar(Key(2024, 1, 0), [d1, d2], true, gold);
      b.open == 11.5 && b.close == 12.5 && b.high == 13.0 && b.low == 9.0 &&
      b.volume == Some(150) && b.priceGold == None
  {
    var d1 := DailyRow(Date(2024, 1, 2), 10.0, 12.0, 9.0, 11.0, 100.0);
    var d2 := DailyRow(Date(2024, 1, 31), 11.5, 13.0, 11.0, 12.5, 150.7);
    var b := MonthBar(Key(2024, 1, 0), [d1, d2], true, gold);
    assert b.high >= 13.0 && b.low <= 9.0;
    assert Truncate(150.7) == 150;
  }
}
