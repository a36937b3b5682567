/** The latest-gold-price script: it asks NBP for the prices of the last 30
    calendar days in one request, converts them, sorts them newest first and
    picks the head. `today` is a parameter (a day number) and the request is
    the oracle `fetch`, `None` standing for a RequestException. */
module NbpGoldToday {
  import opened Common
  import opened Calendar
  import opened NbpGoldPrices

  /** `DAYS_TO_FETCH`. */
  const DaysToFetch := 30

  /** The sort key of `sort(key=date, reverse=True)`: later dates come first.
      Python keeps a reverse sort stable, as sorting on the negated key does. */
  function NewestFirst(p: DailyPrice): Key {
    Key(-p.date.year, -p.date.month, -p.date.day)
  }

  lemma NewestFirstOrder(p: DailyPrice, q: DailyPrice)
    ensures LessEq(NewestFirst(p), NewestFirst(q)) <==> LessEq(DayKey(q), DayKey(p))
    ensures NewestFirst(p) == NewestFirst(q) <==> p.date == q.date
  {
  }

  /** The prices are in descending date order. */
  ghost predicate NewestToOldest(prices: seq<DailyPrice>) {
    forall i, j :: 0 <= i < j < |prices| ==> LessEq(DayKey(prices[j]), DayKey(prices[i]))
  }

  /** `fetch_last_30_days`: one request for the window from 30 days before
      today to today; nothing when it fails or answers with an empty list,
      otherwise one record per entry, newest first, entries of the same day in
      the order the API gave them. */
  method FetchLast30Days(today: int, fetch: Chunk -> Option<seq<ApiEntry>>)
    returns (prices: seq<DailyPrice>, window: Chunk)
    ensures window.end == today && window.start == today - DaysToFetch
    ensures fetch(window).None? || fetch(window) == Some([]) ==> prices == []
    ensures fetch(window).Some? ==> prices == SortBy(Converted(fetch(window).value), NewestFirst)
    ensures fetch(window).Some? ==> multiset(prices) == multiset(Converted(fetch(window).value))
    ensures NewestToOldest(prices)
  {
    window := Chunk(today - DaysToFetch, today);
    var answer := fetch(window);
    if answer.None? || answer.value == [] {
      return [], window;
    }
    var converted := ConvertEntries(answer.value);
    assert converted == Converted(answer.value);
    prices := SortBy(converted, NewestFirst);
    SortBySorted(converted, NewestFirst);
    SortByPermutes(converted, NewestFirst);
    forall i, j | 0 <= i < j < |prices| ensures LessEq(DayKey(prices[j]), DayKey(prices[i])) {
      NewestFirstOrder(prices[i], prices[j]);
    }
  }

  /** `get_most_recent_price`: nothing for an empty list, otherwise its head. */
  function GetMostRecentPrice(prices: seq<DailyPrice>): (r: Option<DailyPrice>)
    ensures r.None? <==> prices == []
    ensures r.Some? ==> r.value in prices
  {
    if prices == [] then None else Some(prices[0])
  }

  /** On a newest-first list the head carries the latest date. */
  lemma MostRecentIsLatest(prices: seq<DailyPrice>)
    requires NewestToOldest(prices) && prices != []
    ensures GetMostRecentPrice(prices).Some?
    ensures forall i :: 0 <= i < |prices| ==> LessEq(DayKey(prices[i]), DayKey(GetMostRecentPrice(prices).value))
  {
    forall i | 0 < i < |prices| ensures LessEq(DayKey(prices[i]), DayKey(prices[0])) {
    }
  }

  lemma {:induction false} FilterHead<T>(s: seq<T>, key: T -> Key)
    requires s != []
    ensures Filter(s, key, key(s[0])) != [] && Filter(s, key, key(s[0]))[0] == s[0]
  {
    assert s == [s[0]] + s[1..];
    FilterConcat([s[0]], s[1..], key, key(s[0]));
    FilterSingle(s[0], key, key(s[0]));
  }

  /** What the script reports for a non-empty answer: a price the API sent,
      no entry of which has a later date, and the first entry of its date in
      the API's order. */
  lemma LatestOfAnswer(es: seq<ApiEntry>)
    requires es != []
    ensures var latest := GetMostRecentPrice(SortBy(Converted(es), NewestFirst));
      latest.Some? &&
      latest.value in Converted(es) &&
      (forall i :: 0 <= i < |es| ==> LessEq(DateKey(es[i].data), DateKey(latest.value.date))) &&
      Filter(Converted(es), NewestFirst, NewestFirst(latest.value)) != [] &&
      latest.value == Filter(Converted(es), NewestFirst, NewestFirst(latest.value))[0]
  {
    var s := Converted(es);
    var sorted := SortBy(s, NewestFirst);
    SortBySorted(s, NewestFirst);
    SortByPermutes(s, NewestFirst);
    assert sorted != [] by {
      assert |sorted| == |s| == |es|;
    }
    var head := sorted[0];
    assert head in multiset(s);
    forall i | 0 <= i < |es| ensures LessEq(DateKey(es[i].data), DateKey(head.date)) {
      assert s[i] in multiset(sorted);
      var j :| 0 <= j < |sorted| && sorted[j] == s[i];
      if j > 0 {
        assert LessEq(NewestFirst(head), NewestFirst(sorted[j]));
      }
      NewestFirstOrder(head, sorted[j]);
    }
    FilterHead(sorted, NewestFirst);
    SortByStable(s, NewestFirst, NewestFirst(head));
  }
}
