/** The average-wage script: the yearly average full-time adjusted salaries
    of Poland in national currency are read out of the Eurostat `nama_10_fte`
    dataset and joined with the yearly gold prices
    (`GoldReference.LoadYearlyGold` and `GoldReference.CombineWithGoldPrices`).
    The request is filtered to one currency and one country, so a time
    category's own index is the key of its cell. The HTTP answer is a
    parameter: `None` for a RequestException, otherwise the decoded dataset. */
module EurostatAvgWages {
  import opened Common
  import opened Text
  import opened JsonStat
  import opened GoldReference

  function WageKey(w: Wage): Key {
    Key(w.year, 0, 0)
  }

  /** What one time category gives: nothing when its code is not an integer,
      the year is outside the inclusive range or the cell `str(index)` has no
      value; otherwise the year's wage. */
  function AvgEntry(entry: (string, int), ds: Dataset, startYear: int, endYear: int): Option<Wage> {
    match ParseInt(entry.0)
    case None => None
    case Some(year) =>
      if year < startYear || year > endYear then None
      else
        var key := IntToString(entry.1);
        if key in ds.value then Some(Wage(year, ds.value[key])) else None
  }

  /** The wages of the time categories, in their order. */
  function AvgEntries(entries: seq<(string, int)>, ds: Dataset, startYear: int, endYear: int): seq<Wage> {
    Collect(entries, e => AvgEntry(e, ds, startYear, endYear))
  }

  /** `_parse_api_response`: the wages of the time categories, sorted by
      year with `sorted`, which keeps equal years in their input order. */
  method ParseAvgResponse(ds: Dataset, startYear: int, endYear: int) returns (wages: seq<Wage>)
    ensures wages == SortBy(AvgEntries(ds.timeIndex, ds, startYear, endYear), WageKey)
    ensures SortedBy(wages, WageKey)
    ensures multiset(wages) == multiset(AvgEntries(ds.timeIndex, ds, startYear, endYear))
  {
    var entries := ds.timeIndex;
    var f := e => AvgEntry(e, ds, startYear, endYear);
    var list: seq<Wage> := [];
    for i := 0 to |entries|
      invariant list == Collect(entries[..i], f)
    {
      CollectSnoc(entries, i, f);
      var got := AvgEntry(entries[i], ds, startYear, endYear);
      if got.Some? {
        list := list + [got.value];
      }
    }
    assert entries[..|entries|] == entries;
    wages := SortBy(list, WageKey);
    SortBySorted(list, WageKey);
    SortByPermutes(list, WageKey);
  }

  /** `fetch_wage_data`: a failed request gives an empty list, an answer the
      sorted wages. */
  method FetchAvgWageData(answer: Option<Dataset>, startYear: int, endYear: int) returns (wages: seq<Wage>)
    ensures answer.None? ==> wages == []
    ensures answer.Some? ==> wages == SortBy(AvgEntries(answer.value.timeIndex, answer.value, startYear, endYear), WageKey)
  {
    if answer.None? {
      return [];
    }
    wages := ParseAvgResponse(answer.value, startYear, endYear);
  }

  // ---------------------------------------------------------- properties

  /** The cell a time category reads when it is kept. */
  predicate Reads(entry: (string, int), ds: Dataset, startYear: int, endYear: int, w: Wage) {
    ParseInt(entry.0) == Some(w.year) && startYear <= w.year <= endYear &&
    IntToString(entry.1) in ds.value && ds.value[IntToString(entry.1)] == w.wage
  }

  lemma AvgEntryReads(entry: (string, int), ds: Dataset, startYear: int, endYear: int, w: Wage)
    ensures AvgEntry(entry, ds, startYear, endYear) == Some(w) <==> Reads(entry, ds, startYear, endYear, w)
  {
  }

  /** The parsed list therefore holds exactly the wages some time category
      reads: its code is the year, the year is in range and its cell holds
      the wage. */
  lemma ParsedWages(ds: Dataset, startYear: int, endYear: int, w: Wage)
    ensures var wages := SortBy(AvgEntries(ds.timeIndex, ds, startYear, endYear), WageKey);
      w in wages <==> exists i :: 0 <= i < |ds.timeIndex| && Reads(ds.timeIndex[i], ds, startYear, endYear, w)
  {
    var list := AvgEntries(ds.timeIndex, ds, startYear, endYear);
    SortByPermutes(list, WageKey);
    assert w in SortBy(list, WageKey) <==> w in multiset(SortBy(list, WageKey));
    CollectMembers(ds.timeIndex, e => AvgEntry(e, ds, startYear, endYear), w);
    forall i | 0 <= i < |ds.timeIndex| {
      AvgEntryReads(ds.timeIndex[i], ds, startYear, endYear, w);
    }
  }
}
