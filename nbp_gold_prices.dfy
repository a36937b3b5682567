/** The NBP gold-price downloader: it walks from the first requested day to
    today in request windows of at most 93 days, gathers the daily prices of
    every window, sorts them by date, averages them per month and, for the
    yearly file, averages the monthly means per year.

    Days are Python day numbers (`date.toordinal()`) and `today` is a
    parameter. `datetime.now()` carries a time of day after midnight, so the
    source's test `current_start < now` holds exactly for the days up to and
    including today. The HTTP request for a window is the oracle `fetch`:
    `None` stands for a RequestException. */
module NbpGoldPrices {
  import opened Common
  import opened Calendar

  /** `API_LIMIT_DAYS`: a window ends at most this many days after it starts. */
  const ApiLimitDays := 93

  /** `EARLIEST_DATA`: the first day NBP publishes a price for. */
  const EarliestData := Date(2013, 1, 2)

  /** One request window, both ends inclusive, as day numbers. */
  datatype Chunk = Chunk(start: int, end: int)

  /** One element of the API's JSON answer: the date in `data`, the price in `cena`. */
  datatype ApiEntry = ApiEntry(data: Date, cena: real)

  datatype DailyPrice = DailyPrice(date: Date, price: real)

  datatype MonthlyPrice = MonthlyPrice(year: int, month: int, price: real)

  datatype YearlyPrice = YearlyPrice(year: int, price: real)

  function DayKey(p: DailyPrice): Key {
    DateKey(p.date)
  }

  // ------------------------------------------------------------- windows

  /** The first window's start: the later of 1 January of `startYear` and
      `EarliestData`. `datetime` rejects years outside 1..9999. */
  function FirstStart(startYear: int): int
    requires 1 <= startYear <= 9999
  {
    var jan1 := Ordinal(Date(startYear, 1, 1));
    var earliest := Ordinal(EarliestData);
    if jan1 >= earliest then jan1 else earliest
  }

  /** Up to 2013 the first window starts at the earliest published day; from
      2014 on it starts on 1 January of the requested year. */
  lemma FirstStartValue(startYear: int)
    requires 1 <= startYear <= 9999
    ensures startYear <= 2013 ==> FirstStart(startYear) == Ordinal(EarliestData)
    ensures startYear >= 2014 ==> FirstStart(startYear) == Ordinal(Date(startYear, 1, 1))
  {
    OrdinalOrder(Date(startYear, 1, 1), EarliestData);
  }

  /** The windows the `while` loop requests from `start` on: each one ends 93
      days after its start or today, whichever is earlier, and the next one
      starts the day after. */
  function ChunkPlan(start: int, today: int): seq<Chunk>
    decreases today - start + 1
  {
    if start > today then []
    else
      var end := if start + ApiLimitDays <= today then start + ApiLimitDays else today;
      [Chunk(start, end)] + ChunkPlan(end + 1, today)
  }

  /** A window is requested exactly when the start is not after today; the
      first starts at `start` and the last ends today. */
  lemma {:induction false} ChunkPlanEnds(start: int, today: int)
    ensures var plan := ChunkPlan(start, today);
      (plan == [] <==> start > today) &&
      (plan != [] ==> plan[0].start == start && plan[|plan| - 1].end == today)
    decreases today - start + 1
  {
    if start <= today {
      var end := if start + ApiLimitDays <= today then start + ApiLimitDays else today;
      var tail := ChunkPlan(end + 1, today);
      ChunkPlanEnds(end + 1, today);
      assert ChunkPlan(start, today) == [Chunk(start, end)] + tail;
    }
  }

  /** Every window lies inside `[start, today]` and spans at most 93 days. */
  lemma {:induction false} ChunkPlanBounds(start: int, today: int)
    ensures forall i :: 0 <= i < |ChunkPlan(start, today)| ==>
      start <= ChunkPlan(start, today)[i].start <= ChunkPlan(start, today)[i].end <= today &&
      ChunkPlan(start, today)[i].end - ChunkPlan(start, today)[i].start <= ApiLimitDays
    decreases today - start + 1
  {
    if start <= today {
      var end := if start + ApiLimitDays <= today then start + ApiLimitDays else today;
      var plan := ChunkPlan(start, today);
      var tail := ChunkPlan(end + 1, today);
      ChunkPlanBounds(end + 1, today);
      assert plan == [Chunk(start, end)] + tail;
      forall i | 0 <= i < |plan|
        ensures start <= plan[i].start <= plan[i].end <= today && plan[i].end - plan[i].start <= ApiLimitDays
      {
        if i > 0 {
          assert plan[i] == tail[i - 1];
          assert end + 1 <= tail[i - 1].start;
        }
      }
    }
  }

  /** Each window but the last spans exactly 93 days, and the next one starts
      the day after it ends. */
  lemma {:induction false} ChunkPlanSteps(start: int, today: int)
    ensures forall i :: 0 <= i < |ChunkPlan(start, today)| - 1 ==>
      ChunkPlan(start, today)[i + 1].start == ChunkPlan(start, today)[i].end + 1 &&
      ChunkPlan(start, today)[i].end - ChunkPlan(start, today)[i].start == ApiLimitDays
    decreases today - start + 1
  {
    if start <= today {
      var end := if start + ApiLimitDays <= today then start + ApiLimitDays else today;
      var plan := ChunkPlan(start, today);
      var tail := ChunkPlan(end + 1, today);
      ChunkPlanSteps(end + 1, today);
      ChunkPlanEnds(end + 1, today);
      assert plan == [Chunk(start, end)] + tail;
      assert forall i :: 1 <= i < |plan| ==> plan[i] == tail[i - 1];
      if tail != [] {
        assert start + ApiLimitDays <= today;
      }
    }
  }

  /** The windows come in increasing order without overlap. */
  lemma {:induction false} ChunkPlanOrdered(start: int, today: int)
    ensures forall i, j :: 0 <= i < j < |ChunkPlan(start, today)| ==>
      ChunkPlan(start, today)[i].end < ChunkPlan(start, today)[j].start
    decreases today - start + 1
  {
    if start <= today {
      var end := if start + ApiLimitDays <= today then start + ApiLimitDays else today;
      var plan := ChunkPlan(start, today);
      var tail := ChunkPlan(end + 1, today);
      ChunkPlanOrdered(end + 1, today);
      ChunkPlanBounds(end + 1, today);
      assert plan == [Chunk(start, end)] + tail;
      forall i, j | 0 <= i < j < |plan| ensures plan[i].end < plan[j].start {
        assert plan[j] == tail[j - 1];
        assert end + 1 <= tail[j - 1].start;
        if i > 0 {
          assert plan[i] == tail[i - 1];
        }
      }
    }
  }

  /** The shape of the windows: none when the start is after today; otherwise
      the first starts at `start`, the last ends today, each lies inside
      `[start, today]` and spans at most 93 days, each but the last spans
      exactly 93, each next one starts the day after the previous one ends,
      and they come in increasing order without overlap. */
  lemma ChunkPlanShape(start: int, today: int)
    ensures var plan := ChunkPlan(start, today);
      (plan == [] <==> start > today) &&
      (plan != [] ==> plan[0].start == start && plan[|plan| - 1].end == today) &&
      (forall i :: 0 <= i < |plan| ==>
        start <= plan[i].start <= plan[i].end <= today && plan[i].end - plan[i].start <= ApiLimitDays) &&
      (forall i :: 0 <= i < |plan| - 1 ==>
        plan[i + 1].start == plan[i].end + 1 && plan[i].end - plan[i].start == ApiLimitDays) &&
      (forall i, j :: 0 <= i < j < |plan| ==> plan[i].end < plan[j].start)
  {
    ChunkPlanEnds(start, today);
    ChunkPlanBounds(start, today);
    ChunkPlanSteps(start, today);
    ChunkPlanOrdered(start, today);
  }

  predicate InChunk(c: Chunk, d: int) {
    c.start <= d <= c.end
  }

  /** Every day from `start` to today lies in exactly one window: no gap and
      no overlap. */
  lemma {:induction false} ChunkPlanCoversOnce(start: int, today: int, d: int)
    requires start <= d <= today
    ensures exists i :: 0 <= i < |ChunkPlan(start, today)| && InChunk(ChunkPlan(start, today)[i], d)
    ensures forall i, j :: 0 <= i < j < |ChunkPlan(start, today)| ==>
      !(InChunk(ChunkPlan(start, today)[i], d) && InChunk(ChunkPlan(start, today)[j], d))
    decreases today - start + 1
  {
    var plan := ChunkPlan(start, today);
    ChunkPlanShape(start, today);
    var end := if start + ApiLimitDays <= today then start + ApiLimitDays else today;
    var tail := ChunkPlan(end + 1, today);
    assert plan == [Chunk(start, end)] + tail;
    if d > end {
      ChunkPlanCoversOnce(end + 1, today, d);
      var k :| 0 <= k < |tail| && InChunk(tail[k], d);
      assert plan[k + 1] == tail[k];
    } else {
      assert InChunk(plan[0], d);
    }
  }

  /** Starting from the earliest published day with today 2013-04-10, the
      windows are 2013-01-02 to 2013-04-05 and 2013-04-06 to 2013-04-10. */
  lemma ChunkPlanExample()
    ensures ValidDate(Date(2013, 4, 5)) && ValidDate(Date(2013, 4, 6)) && ValidDate(Date(2013, 4, 10))
    ensures ChunkPlan(Ordinal(EarliestData), Ordinal(Date(2013, 4, 10))) ==
      [Chunk(Ordinal(EarliestData), Ordinal(Date(2013, 4, 5))),
       Chunk(Ordinal(Date(2013, 4, 6)), Ordinal(Date(2013, 4, 10)))]
  {
    EarliestDataOrdinal();
    assert ChunkPlan(734964, 734968) == [Chunk(734964, 734968)] + ChunkPlan(734969, 734968);
    assert ChunkPlan(734870, 734968) == [Chunk(734870, 734963)] + ChunkPlan(734964, 734968);
  }

  // ---------------------------------------------------------- collection

  /** The record made of one API entry. */
  function ToDaily(e: ApiEntry): DailyPrice {
    DailyPrice(e.data, e.cena)
  }

  /** The entry loop of `fetch_price_range` (and of the latest-price script):
      one record per entry, in order, its date taken from `data` and its
      price from `cena`. */
  method ConvertEntries(es: seq<ApiEntry>) returns (prices: seq<DailyPrice>)
    ensures |prices| == |es|
    ensures forall i :: 0 <= i < |es| ==> prices[i].date == es[i].data && prices[i].price == es[i].cena
  {
    prices := [];
    var i := 0;
    while i < |es|
      invariant 0 <= i <= |es|
      invariant |prices| == i
      invariant forall j :: 0 <= j < i ==> prices[j].date == es[j].data && prices[j].price == es[j].cena
    {
      prices := prices + [ToDaily(es[i])];
      i := i + 1;
    }
  }

  /** The records one window yields: none when its request fails. */
  function ChunkPrices(c: Chunk, fetch: Chunk -> Option<seq<ApiEntry>>): seq<DailyPrice> {
    match fetch(c)
    case None => []
    case Some(es) => Converted(es)
  }

  function Converted(es: seq<ApiEntry>): seq<DailyPrice> {
    seq(|es|, i requires 0 <= i < |es| => ToDaily(es[i]))
  }

  /** `fetch_price_range`: the converted entries of one window, or nothing
      when the request raises. */
  method FetchPriceRange(c: Chunk, fetch: Chunk -> Option<seq<ApiEntry>>) returns (prices: seq<DailyPrice>)
    ensures fetch(c).None? ==> prices == []
    ensures fetch(c).Some? ==> prices == Converted(fetch(c).value)
  {
    var answer := fetch(c);
    if answer.None? {
      return [];
    }
    prices := ConvertEntries(answer.value);
  }

  /** The records of the windows `plan`, window after window. */
  function Collected(plan: seq<Chunk>, fetch: Chunk -> Option<seq<ApiEntry>>): seq<DailyPrice> {
    if plan == [] then []
    else Collected(plan[..|plan| - 1], fetch) + ChunkPrices(plan[|plan| - 1], fetch)
  }

  lemma {:induction false} CollectedConcat(a: seq<Chunk>, b: seq<Chunk>, fetch: Chunk -> Option<seq<ApiEntry>>)
    ensures Collected(a + b, fetch) == Collected(a, fetch) + Collected(b, fetch)
  {
    if b == [] {
      assert a + b == a;
    } else {
      var init, last := b[..|b| - 1], b[|b| - 1];
      assert (a + b)[..|a + b| - 1] == a + init;
      assert (a + b)[|a + b| - 1] == last;
      CollectedConcat(a, init, fetch);
      assert Collected(a + b, fetch) == Collected(a + init, fetch) + ChunkPrices(last, fetch);
      assert Collected(b, fetch) == Collected(init, fetch) + ChunkPrices(last, fetch);
    }
  }

  /** A window whose request fails adds nothing, and the windows after it are
      still collected: the result is that of the other windows. */
  lemma FailedChunkSkipped(plan: seq<Chunk>, i: int, fetch: Chunk -> Option<seq<ApiEntry>>)
    requires 0 <= i < |plan| && fetch(plan[i]).None?
    ensures Collected(plan, fetch) == Collected(plan[..i], fetch) + Collected(plan[i + 1..], fetch)
  {
    var before, one, after := plan[..i], [plan[i]], plan[i + 1..];
    assert Collected(one, fetch) == [] by {
      assert one[..0] == [];
    }
    assert plan == before + (one + after);
    CollectedConcat(one, after, fetch);
    CollectedConcat(before, one + after, fetch);
  }

  /** The `while` loop of `fetch_all_data` from the first window's start:
      the windows requested and the records they yield, window after window. */
  method RequestWindows(first: int, today: int, fetch: Chunk -> Option<seq<ApiEntry>>)
    returns (all: seq<DailyPrice>, requested: seq<Chunk>)
    ensures requested == ChunkPlan(first, today)
    ensures all == Collected(requested, fetch)
  {
    var currentStart := first;
    all := [];
    requested := [];
    while currentStart <= today
      invariant requested + ChunkPlan(currentStart, today) == ChunkPlan(first, today)
      invariant all == Collected(requested, fetch)
      decreases today - currentStart + 1
    {
      var currentEnd := currentStart + ApiLimitDays;
      if currentEnd > today {
        currentEnd := today;
      }
      var chunk := Chunk(currentStart, currentEnd);
      var got := FetchPriceRange(chunk, fetch);
      ghost var rest := ChunkPlan(currentEnd + 1, today);
      assert ChunkPlan(currentStart, today) == [chunk] + rest;
      assert (requested + [chunk]) + rest == requested + ([chunk] + rest);
      ghost var before := requested;
      requested := requested + [chunk];
      assert requested[..|requested| - 1] == before;
      assert Collected(requested, fetch) == Collected(before, fetch) + ChunkPrices(chunk, fetch);
      all := all + got;
      currentStart := currentEnd + 1;
    }
    assert requested == ChunkPlan(first, today);
  }

  /** `fetch_all_data`: the windows requested, in order, and the collected
      daily records sorted by date (stably, so the order of equal dates is the
      order they were fetched in). A start year `datetime` rejects raises
      ValueError: no window is requested and there is no result. */
  method FetchAllData(startYear: int, today: int, fetch: Chunk -> Option<seq<ApiEntry>>)
    returns (prices: Option<seq<DailyPrice>>, requested: seq<Chunk>)
    ensures prices.None? <==> !(1 <= startYear <= 9999)
    ensures prices.None? ==> requested == []
    ensures prices.Some? ==> requested == ChunkPlan(FirstStart(startYear), today)
    ensures prices.Some? ==> prices.value == SortBy(Collected(requested, fetch), DayKey)
    ensures prices.Some? ==> SortedBy(prices.value, DayKey)
    ensures prices.Some? ==> multiset(prices.value) == multiset(Collected(requested, fetch))
  {
    if !(1 <= startYear <= 9999) {
      return None, [];
    }
    var currentStart := Ordinal(Date(startYear, 1, 1));
    if currentStart < Ordinal(EarliestData) {
      currentStart := Ordinal(EarliestData);
    }
    assert currentStart == FirstStart(startYear);
    var all;
    all, requested := RequestWindows(currentStart, today, fetch);
    var sorted := SortBy(all, DayKey);
    SortBySorted(all, DayKey);
    SortByPermutes(all, DayKey);
    prices := Some(sorted);
  }

  // ---------------------------------------------------------- aggregation

  function DayMonth(p: DailyPrice): Key {
    Key(p.date.year, p.date.month, 0)
  }

  function DayValue(p: DailyPrice): real {
    p.price
  }

  function MonthlyKey(m: MonthlyPrice): Key {
    Key(m.year, m.month, 0)
  }

  /** `monthly` is the monthly aggregate of `daily`: one record per
      `(year, month)` occurring in `daily`, in strictly ascending order, each
      holding the mean of that month's daily prices. */
  ghost predicate IsMonthlyAggregate(daily: seq<DailyPrice>, monthly: seq<MonthlyPrice>) {
    |monthly| == |KeysOf(daily, DayMonth)| &&
    (forall i, j :: 0 <= i < j < |monthly| ==> Less(MonthlyKey(monthly[i]), MonthlyKey(monthly[j]))) &&
    (forall i :: 0 <= i < |monthly| ==>
      MonthlyKey(monthly[i]) in KeysOf(daily, DayMonth) &&
      Filter(daily, DayMonth, MonthlyKey(monthly[i])) != [] &&
      monthly[i].price == Mean(Values(Filter(daily, DayMonth, MonthlyKey(monthly[i])), DayValue))) &&
    (forall k :: k in KeysOf(daily, DayMonth) ==> exists i :: 0 <= i < |monthly| && MonthlyKey(monthly[i]) == k)
  }

  lemma MonthKeysHaveNoDay(daily: seq<DailyPrice>, k: Key)
    requires k in KeysOf(daily, DayMonth)
    ensures k.k3 == 0
  {
    var i :| 0 <= i < |daily| && DayMonth(daily[i]) == k;
  }

  /** `aggregate_to_monthly` (before rounding). */
  method AggregateToMonthly(daily: seq<DailyPrice>) returns (monthly: seq<MonthlyPrice>)
    ensures IsMonthlyAggregate(daily, monthly)
  {
    var buckets := MeanByKey(daily, DayMonth, DayValue);
    monthly := [];
    var i := 0;
    while i < |buckets|
      invariant 0 <= i <= |buckets|
      invariant |monthly| == i
      invariant forall j :: 0 <= j < i ==> MonthlyKey(monthly[j]) == buckets[j].key && monthly[j].price == buckets[j].mean
    {
      var b := buckets[i];
      MonthKeysHaveNoDay(daily, b.key);
      monthly := monthly + [MonthlyPrice(b.key.k1, b.key.k2, b.mean)];
      i := i + 1;
    }
    forall k | k in KeysOf(daily, DayMonth) ensures exists i :: 0 <= i < |monthly| && MonthlyKey(monthly[i]) == k {
      var j :| 0 <= j < |buckets| && buckets[j].key == k;
      assert MonthlyKey(monthly[j]) == k;
    }
  }

  /** Every daily price lands in exactly one monthly bucket: the buckets of
      the aggregate's months hold all the daily prices together. */
  lemma MonthlyBucketsPartition(daily: seq<DailyPrice>, monthly: seq<MonthlyPrice>)
    requires IsMonthlyAggregate(daily, monthly)
    ensures BucketSizes(daily, DayMonth, seq(|monthly|, i requires 0 <= i < |monthly| => MonthlyKey(monthly[i]))) == |daily|
  {
    var ks := seq(|monthly|, i requires 0 <= i < |monthly| => MonthlyKey(monthly[i]));
    forall i, j | 0 <= i < j < |ks| ensures ks[i] != ks[j] {
      assert Less(ks[i], ks[j]);
    }
    forall k | k in KeysOf(daily, DayMonth) ensures k in set x | x in ks {
      var i :| 0 <= i < |monthly| && MonthlyKey(monthly[i]) == k;
      assert ks[i] == k;
    }
    BucketsPartition(daily, DayMonth, ks);
  }

  /** No prices, no months. */
  lemma MonthlyEmpty(monthly: seq<MonthlyPrice>)
    requires IsMonthlyAggregate([], monthly)
    ensures monthly == []
  {
    var none: seq<DailyPrice> := [];
    assert KeysOf(none, DayMonth) == {};
  }

  /** Two January 2013 prices, 160 and 166. */
  function JanuaryDays(): seq<DailyPrice> {
    [DailyPrice(Date(2013, 1, 5), 160.0), DailyPrice(Date(2013, 1, 20), 166.0)]
  }

  lemma JanuaryBucket()
    ensures KeysOf(JanuaryDays(), DayMonth) == {Key(2013, 1, 0)}
    ensures Filter(JanuaryDays(), DayMonth, Key(2013, 1, 0)) == JanuaryDays()
  {
    var daily := JanuaryDays();
    var k := Key(2013, 1, 0);
    assert DayMonth(daily[0]) == k && DayMonth(daily[1]) == k;
    assert daily[..1] == [daily[0]];
    FilterSingle(daily[0], DayMonth, k);
  }

  lemma JanuaryMean()
    ensures Mean(Values(JanuaryDays(), DayValue)) == 163.0
  {
    var vs := Values(JanuaryDays(), DayValue);
    assert vs == [160.0, 166.0];
    assert vs[..1] == [160.0];
    assert Sum([160.0]) == 160.0 by {
      assert [160.0][..0] == [];
    }
    assert Sum(vs) == Sum(vs[..1]) + 166.0;
  }

  /** ... make one record: January 2013 at their mean, 163. */
  lemma MonthlyExample(monthly: seq<MonthlyPrice>)
    requires IsMonthlyAggregate(JanuaryDays(), monthly)
    ensures monthly == [MonthlyPrice(2013, 1, 163.0)]
  {
    JanuaryBucket();
    JanuaryMean();
    assert |monthly| == 1;
    assert MonthlyKey(monthly[0]) == Key(2013, 1, 0);
  }

  // ----------------------------------------------------------- yearly means

  function MonthYear(m: MonthlyPrice): Key {
    Key(m.year, 0, 0)
  }

  function MonthValue(m: MonthlyPrice): real {
    m.price
  }

  /** `yearly` is the yearly aggregate of `monthly`: one record per year
      occurring, strictly ascending, each the unweighted mean of that year's
      monthly prices. */
  ghost predicate IsYearlyAggregate(monthly: seq<MonthlyPrice>, yearly: seq<YearlyPrice>) {
    |yearly| == |KeysOf(monthly, MonthYear)| &&
    (forall i, j :: 0 <= i < j < |yearly| ==> yearly[i].year < yearly[j].year) &&
    (forall i :: 0 <= i < |yearly| ==>
      Key(yearly[i].year, 0, 0) in KeysOf(monthly, MonthYear) &&
      Filter(monthly, MonthYear, Key(yearly[i].year, 0, 0)) != [] &&
      yearly[i].price == Mean(Values(Filter(monthly, MonthYear, Key(yearly[i].year, 0, 0)), MonthValue))) &&
    (forall y :: Key(y, 0, 0) in KeysOf(monthly, MonthYear) ==> exists i :: 0 <= i < |yearly| && yearly[i].year == y)
  }

  lemma YearKeysAreYears(monthly: seq<MonthlyPrice>, k: Key)
    requires k in KeysOf(monthly, MonthYear)
    ensures k == Key(k.k1, 0, 0)
  {
    var i :| 0 <= i < |monthly| && MonthYear(monthly[i]) == k;
  }

  /** Year records laid along the keyed means of the monthly prices form
      their yearly aggregate. */
  lemma YearlyOfBuckets(monthly: seq<MonthlyPrice>, buckets: seq<Bucket>, yearly: seq<YearlyPrice>)
    requires |buckets| == |KeysOf(monthly, MonthYear)|
    requires forall i, j :: 0 <= i < j < |buckets| ==> Less(buckets[i].key, buckets[j].key)
    requires forall i :: 0 <= i < |buckets| ==>
      buckets[i].key in KeysOf(monthly, MonthYear) && MeanOfBucket(monthly, MonthYear, MonthValue, buckets[i])
    requires forall k :: k in KeysOf(monthly, MonthYear) ==> exists i :: 0 <= i < |buckets| && buckets[i].key == k
    requires |yearly| == |buckets|
    requires forall j :: 0 <= j < |yearly| ==> Key(yearly[j].year, 0, 0) == buckets[j].key && yearly[j].price == buckets[j].mean
    ensures IsYearlyAggregate(monthly, yearly)
  {
    forall i, j | 0 <= i < j < |yearly| ensures yearly[i].year < yearly[j].year {
      assert Less(buckets[i].key, buckets[j].key);
    }
    forall y | Key(y, 0, 0) in KeysOf(monthly, MonthYear) ensures exists i :: 0 <= i < |yearly| && yearly[i].year == y {
      var j :| 0 <= j < |buckets| && buckets[j].key == Key(y, 0, 0);
      assert yearly[j].year == y;
    }
  }

  /** `to_yearly_average` (before rounding). */
  method ToYearlyAverage(monthly: seq<MonthlyPrice>) returns (yearly: seq<YearlyPrice>)
    ensures IsYearlyAggregate(monthly, yearly)
  {
    var buckets := MeanByKey(monthly, MonthYear, MonthValue);
    yearly := [];
    for i := 0 to |buckets|
      invariant |yearly| == i
      invariant forall j :: 0 <= j < i ==> Key(yearly[j].year, 0, 0) == buckets[j].key && yearly[j].price == buckets[j].mean
    {
      var b := buckets[i];
      YearKeysAreYears(monthly, b.key);
      yearly := yearly + [YearlyPrice(b.key.k1, b.mean)];
    }
    YearlyOfBuckets(monthly, buckets, yearly);
  }
}
