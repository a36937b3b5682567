/** The minimum-wage script: the half-yearly minimum wages of Poland in
    national currency are read out of the Eurostat `earn_mw_cur` dataset,
    averaged per year and joined with the yearly gold prices
    (`GoldReference.LoadYearlyGold` and `GoldReference.CombineWithGoldPrices`).
    The HTTP answer is a parameter: `None` for a RequestException, otherwise
    the decoded dataset. */
module EurostatMinWages {
  import opened Common
  import opened Text
  import opened JsonStat
  import opened GoldReference

  /** The currency category of the national currency. */
  const Nac := "NAC"

  /** One half-year value: the year of its time code and the wage. */
  datatype Semester = Semester(year: int, wage: real)

  function SemesterKey(s: Semester): Key {
    Key(s.year, 0, 0)
  }

  function SemesterWage(s: Semester): real {
    s.wage
  }

  // ----------------------------------------------------------- time codes

  function DashCount(s: string): nat {
    if s == [] then 0 else (if s[0] == '-' then 1 else 0) + DashCount(s[1..])
  }

  /** The position of the first `-`. */
  function DashPos(s: string): (p: nat)
    requires DashCount(s) > 0
    ensures p < |s| && s[p] == '-'
    ensures forall i :: 0 <= i < p ==> s[i] != '-'
  {
    if s[0] == '-' then 0 else 1 + DashPos(s[1..])
  }

  lemma {:induction false} NoDash(s: string)
    ensures DashCount(s) == 0 <==> forall i :: 0 <= i < |s| ==> s[i] != '-'
  {
    if s != [] {
      NoDash(s[1..]);
      assert forall i :: 1 <= i < |s| ==> s[i] == s[1..][i - 1];
    }
  }

  lemma {:induction false} DashCountConcat(a: string, b: string)
    ensures DashCount(a + b) == DashCount(a) + DashCount(b)
  {
    if a != [] {
      assert (a + b)[1..] == a[1..] + b;
      DashCountConcat(a[1..], b);
    } else {
      assert a + b == b;
    }
  }

  /** `year_str` of `time_code.split('-')` when the code has one dash. */
  function YearPart(code: string): string
    requires DashCount(code) == 1
  {
    code[..DashPos(code)]
  }

  /** With one dash the two-way split is exact: the code is the year part,
      the dash and the semester part, and neither part holds a dash. */
  lemma SplitAtDash(code: string)
    requires DashCount(code) == 1
    ensures var p := DashPos(code);
      code == YearPart(code) + "-" + code[p + 1..] &&
      DashCount(YearPart(code)) == 0 && DashCount(code[p + 1..]) == 0
  {
    var p := DashPos(code);
    assert code == code[..p] + "-" + code[p + 1..];
    DashCountConcat(code[..p] + "-", code[p + 1..]);
    DashCountConcat(code[..p], "-");
    NoDash(code[..p]);
  }

  // ---------------------------------------------------------- flat index

  /** `0 * stride_freq + nac_idx * stride_currency + 0 * stride_geo +
      time_idx * stride_time`, the strides taken from the first four sizes. */
  function FlatIndex(nac: int, timeIdx: int, size: seq<int>): int
    requires |size| >= 4
  {
    0 * (size[1] * size[2] * size[3]) + nac * (size[2] * size[3]) + 0 * size[3] + timeIdx * 1
  }

  /** For the dimensions `freq, currency, geo, time` the index is JSON-stat's
      row-major position of `(0, nac, 0, time)`... */
  lemma FlatIndexRowMajor(nac: int, timeIdx: int, size: seq<int>)
    requires |size| == 4
    ensures FlatIndex(nac, timeIdx, size) == RowMajor([0, nac, 0, timeIdx], size)
  {
    var p := [0, nac, 0, timeIdx];
    assert p[..3] == [0, nac, 0] && size[..4][..3] == size[..3];
    assert [0, nac, 0][..2] == [0, nac] && size[..3][..2] == size[..2];
    assert [0, nac][..1] == [0] && size[..2][..1] == size[..1];
    assert [0][..0] == [];
    assert RowMajor([0], size[..1]) == 0;
    assert RowMajor([0, nac], size[..2]) == nac;
    assert RowMajor([0, nac, 0], size[..3]) == nac * size[2];
  }

  /** ... so two different `(currency, time)` positions inside the cube
      read two different cells. */
  lemma FlatIndexDistinct(n1: int, t1: int, n2: int, t2: int, size: seq<int>)
    requires |size| == 4 && size[0] >= 1 && size[2] >= 1
    requires 0 <= n1 < size[1] && 0 <= t1 < size[3] && 0 <= n2 < size[1] && 0 <= t2 < size[3]
    requires n1 != n2 || t1 != t2
    ensures FlatIndex(n1, t1, size) != FlatIndex(n2, t2, size)
  {
    var p1, p2 := [0, n1, 0, t1], [0, n2, 0, t2];
    FlatIndexRowMajor(n1, t1, size);
    FlatIndexRowMajor(n2, t2, size);
    assert InCube(p1, size) && InCube(p2, size);
    if RowMajor(p1, size) == RowMajor(p2, size) {
      RowMajorInjective(p1, p2, size);
    }
  }

  // ------------------------------------------------------------- parsing

  /** What one time category gives: nothing when its code has no dash, the
      year part is not an integer, the year is outside the inclusive range or
      the cell has no value; otherwise the half-year value. */
  function SemesterOf(entry: (string, int), ds: Dataset, nac: int, startYear: int, endYear: int): Option<Semester>
    requires |ds.size| >= 4
  {
    var code := entry.0;
    if DashCount(code) != 1 then None
    else
      match ParseInt(YearPart(code))
      case None => None
      case Some(year) =>
        if year < startYear || year > endYear then None
        else
          var key := IntToString(FlatIndex(nac, entry.1, ds.size));
          if key in ds.value then Some(Semester(year, ds.value[key])) else None
  }

  /** The half-year values of the time categories, in their order. */
  function Semesters(entries: seq<(string, int)>, ds: Dataset, nac: int, startYear: int, endYear: int): (r: seq<Semester>)
    requires |ds.size| >= 4
    ensures |r| <= |entries|
  {
    if entries == [] then []
    else
      Semesters(entries[..|entries| - 1], ds, nac, startYear, endYear) +
        match SemesterOf(entries[|entries| - 1], ds, nac, startYear, endYear)
        case Some(s) => [s]
        case None => []
  }

  /** No time code has more than one dash, so every two-way split succeeds. */
  predicate TimeCodesSplit(entries: seq<(string, int)>) {
    forall i :: 0 <= i < |entries| ==> DashCount(entries[i].0) <= 1
  }

  /** `wages` lists the years of `semesters` once each, ascending, each with
      the mean of that year's values. */
  ghost predicate IsAnnualAverage(semesters: seq<Semester>, wages: seq<Wage>) {
    |wages| == |KeysOf(semesters, SemesterKey)| &&
    (forall i, j :: 0 <= i < j < |wages| ==> wages[i].year < wages[j].year) &&
    (forall i :: 0 <= i < |wages| ==>
      Filter(semesters, SemesterKey, Key(wages[i].year, 0, 0)) != [] &&
      wages[i].wage == Mean(Values(Filter(semesters, SemesterKey, Key(wages[i].year, 0, 0)), SemesterWage))) &&
    (forall y :: Key(y, 0, 0) in KeysOf(semesters, SemesterKey) ==> exists i :: 0 <= i < |wages| && wages[i].year == y)
  }

  lemma SemestersSnoc(entries: seq<(string, int)>, i: int, ds: Dataset, nac: int, startYear: int, endYear: int)
    requires |ds.size| >= 4 && 0 <= i < |entries|
    ensures Semesters(entries[..i + 1], ds, nac, startYear, endYear) ==
      Semesters(entries[..i], ds, nac, startYear, endYear) +
        match SemesterOf(entries[i], ds, nac, startYear, endYear)
        case Some(s) => [s]
        case None => []
  {
    assert entries[..i + 1][..i] == entries[..i];
  }

  /** The facts `MeanByKey` gives about `buckets`, carried over to the
      per-year list built from them. */
  lemma AnnualOfBuckets(semesters: seq<Semester>, buckets: seq<Bucket>, wages: seq<Wage>)
    requires |buckets| == |KeysOf(semesters, SemesterKey)|
    requires forall i, j :: 0 <= i < j < |buckets| ==> Less(buckets[i].key, buckets[j].key)
    requires forall i :: 0 <= i < |buckets| ==>
      buckets[i].key in KeysOf(semesters, SemesterKey) && MeanOfBucket(semesters, SemesterKey, SemesterWage, buckets[i])
    requires forall k :: k in KeysOf(semesters, SemesterKey) ==> exists i :: 0 <= i < |buckets| && buckets[i].key == k
    requires |wages| == |buckets|
    requires forall j :: 0 <= j < |wages| ==> Key(wages[j].year, 0, 0) == buckets[j].key && wages[j].wage == buckets[j].mean
    ensures IsAnnualAverage(semesters, wages)
  {
    forall i, j | 0 <= i < j < |wages| ensures wages[i].year < wages[j].year {
      assert Less(buckets[i].key, buckets[j].key);
    }
    forall y | Key(y, 0, 0) in KeysOf(semesters, SemesterKey) ensures exists i :: 0 <= i < |wages| && wages[i].year == y {
      var j :| 0 <= j < |buckets| && buckets[j].key == Key(y, 0, 0);
      assert wages[j].year == y;
    }
  }

  /** The half-year values grouped by year and averaged, years ascending. */
  method AnnualAverages(semesters: seq<Semester>) returns (wages: seq<Wage>)
    ensures IsAnnualAverage(semesters, wages)
  {
    var buckets := MeanByKey(semesters, SemesterKey, SemesterWage);
    wages := [];
    for i := 0 to |buckets|
      invariant |wages| == i
      invariant forall j :: 0 <= j < i ==> Key(wages[j].year, 0, 0) == buckets[j].key && wages[j].wage == buckets[j].mean
    {
      var b := buckets[i];
      assert b.key in KeysOf(semesters, SemesterKey);
      wages := wages + [Wage(b.key.k1, b.mean)];
    }
    AnnualOfBuckets(semesters, buckets, wages);
  }

  /** The dataset has the national currency, four sizes and splittable time codes. */
  predicate Parsable(ds: Dataset) {
    Nac in ds.currencyIndex && |ds.size| >= 4 && TimeCodesSplit(ds.timeIndex)
  }

  lemma SplitSnoc(entries: seq<(string, int)>, i: int)
    requires 0 <= i < |entries| && TimeCodesSplit(entries[..i]) && DashCount(entries[i].0) <= 1
    ensures TimeCodesSplit(entries[..i + 1])
  {
    assert entries[..i + 1] == entries[..i] + [entries[i]];
  }

  /** The time-code loop of `_parse_api_response`: a code with two dashes
      raises (`None`); otherwise the half-year values of the codes. */
  method ReadSemesters(entries: seq<(string, int)>, ds: Dataset, nac: int, startYear: int, endYear: int)
    returns (semesters: Option<seq<Semester>>)
    requires |ds.size| >= 4
    ensures semesters.None? <==> !TimeCodesSplit(entries)
    ensures semesters.Some? ==> semesters.value == Semesters(entries, ds, nac, startYear, endYear)
  {
    var list: seq<Semester> := [];
    for i := 0 to |entries|
      invariant TimeCodesSplit(entries[..i])
      invariant list == Semesters(entries[..i], ds, nac, startYear, endYear)
    {
      SemestersSnoc(entries, i, ds, nac, startYear, endYear);
      var dashes := DashCount(entries[i].0);
      if dashes > 1 {
        assert !TimeCodesSplit(entries);
        return None;
      }
      SplitSnoc(entries, i);
      if dashes == 0 {
        continue;
      }
      var semester := SemesterOf(entries[i], ds, nac, startYear, endYear);
      if semester.Some? {
        list := list + [semester.value];
      }
    }
    assert entries[..|entries|] == entries;
    return Some(list);
  }

  /** `_parse_api_response`: a missing national currency, fewer than four
      sizes, or a time code with two dashes raise (`None`); otherwise the
      yearly means of the half-year values, years ascending. */
  method ParseApiResponse(ds: Dataset, startYear: int, endYear: int) returns (wages: Option<seq<Wage>>)
    ensures wages.None? <==> Nac !in ds.currencyIndex || |ds.size| < 4 || !TimeCodesSplit(ds.timeIndex)
    ensures wages.Some? ==>
      IsAnnualAverage(Semesters(ds.timeIndex, ds, ds.currencyIndex[Nac], startYear, endYear), wages.value)
  {
    if Nac !in ds.currencyIndex {
      return None;
    }
    var nac := ds.currencyIndex[Nac];
    if |ds.size| < 4 {
      return None;
    }
    var semesters := ReadSemesters(ds.timeIndex, ds, nac, startYear, endYear);
    if semesters.None? {
      return None;
    }
    var annual := AnnualAverages(semesters.value);
    return Some(annual);
  }

  /** `fetch_wage_data`: a failed request and a failed parse both give an
      empty list. */
  method FetchWageData(answer: Option<Dataset>, startYear: int, endYear: int) returns (wages: seq<Wage>)
    ensures answer.None? ==> wages == []
    ensures answer.Some? && !Parsable(answer.value) ==> wages == []
    ensures answer.Some? && Parsable(answer.value) ==>
      var ds := answer.value;
      IsAnnualAverage(Semesters(ds.timeIndex, ds, ds.currencyIndex[Nac], startYear, endYear), wages)
  {
    if answer.None? {
      return [];
    }
    var parsed := ParseApiResponse(answer.value, startYear, endYear);
    if parsed.None? {
      return [];
    }
    return parsed.value;
  }

  // ---------------------------------------------------------- properties

  /** Every half-year value belongs to a time code with one dash whose year
      part reads as a year of the range, and is the cell at that code's flat
      index. */
  lemma SemestersFromCodes(entries: seq<(string, int)>, ds: Dataset, nac: int, startYear: int, endYear: int)
    requires |ds.size| >= 4
    ensures forall s :: s in Semesters(entries, ds, nac, startYear, endYear) ==>
      startYear <= s.year <= endYear &&
      exists i :: 0 <= i < |entries| && ReadsSemester(entries[i], ds, nac, startYear, endYear, s)
  {
    SemestersKept(entries, ds, nac, startYear, endYear);
    forall s | s in Semesters(entries, ds, nac, startYear, endYear)
      ensures startYear <= s.year <= endYear
      ensures exists i :: 0 <= i < |entries| && ReadsSemester(entries[i], ds, nac, startYear, endYear, s)
    {
      var i :| 0 <= i < |entries| && SemesterOf(entries[i], ds, nac, startYear, endYear) == Some(s);
      SemesterOfReads(entries[i], ds, nac, startYear, endYear, s);
    }
  }

  /** Every half-year value is what some time code gives. */
  lemma {:induction false} SemestersKept(entries: seq<(string, int)>, ds: Dataset, nac: int, startYear: int, endYear: int)
    requires |ds.size| >= 4
    ensures forall s :: s in Semesters(entries, ds, nac, startYear, endYear) ==>
      exists i :: 0 <= i < |entries| && SemesterOf(entries[i], ds, nac, startYear, endYear) == Some(s)
  {
    if entries != [] {
      var init := entries[..|entries| - 1];
      SemestersKept(init, ds, nac, startYear, endYear);
      forall s | s in Semesters(init, ds, nac, startYear, endYear)
        ensures exists i :: 0 <= i < |entries| && SemesterOf(entries[i], ds, nac, startYear, endYear) == Some(s)
      {
        var i :| 0 <= i < |init| && SemesterOf(init[i], ds, nac, startYear, endYear) == Some(s);
        assert entries[i] == init[i];
      }
    }
  }

  /** The cell a time code reads when it is kept: one dash, a year part
      that reads as a year of the range, and a value at its flat index. */
  predicate ReadsSemester(entry: (string, int), ds: Dataset, nac: int, startYear: int, endYear: int, s: Semester)
    requires |ds.size| >= 4
  {
    var key := IntToString(FlatIndex(nac, entry.1, ds.size));
    DashCount(entry.0) == 1 && ParseInt(YearPart(entry.0)) == Some(s.year) &&
    startYear <= s.year <= endYear && key in ds.value && ds.value[key] == s.wage
  }

  lemma SemesterOfReads(entry: (string, int), ds: Dataset, nac: int, startYear: int, endYear: int, s: Semester)
    requires |ds.size| >= 4
    ensures SemesterOf(entry, ds, nac, startYear, endYear) == Some(s) <==> ReadsSemester(entry, ds, nac, startYear, endYear, s)
  {
  }

  /** A yearly wage lies between the smallest and the largest of its year's
      half-year values. */
  lemma AnnualWageWithinSemesters(semesters: seq<Semester>, wages: seq<Wage>, i: int)
    requires IsAnnualAverage(semesters, wages) && 0 <= i < |wages|
    ensures var vs := Values(Filter(semesters, SemesterKey, Key(wages[i].year, 0, 0)), SemesterWage);
      MinOf(vs) <= wages[i].wage <= MaxOf(vs)
  {
    var vs := Values(Filter(semesters, SemesterKey, Key(wages[i].year, 0, 0)), SemesterWage);
    MeanBounds(vs, MinOf(vs), MaxOf(vs));
  }
}
