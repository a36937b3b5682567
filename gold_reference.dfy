/** The gold-price files the other scripts read back, the lookup tables they
    build from them, and the wage-to-gold join both Eurostat scripts share.
    A yearly file maps years to prices; a monthly file maps `(year, month)`
    to prices. */
module GoldReference {
  import opened Common
  import opened Calendar

  /** One object of a gold-price JSON list; a field the object lacks is `None`. */
  datatype GoldEntry = GoldEntry(year: Option<int>, month: Option<int>, price: Option<real>)

  /** What reading a gold-price file gives: no file, text that is not a JSON
      list of objects, or the list. */
  datatype GoldFile = NotFound | Malformed | Parsed(entries: seq<GoldEntry>)

  /** The keys occurring in the pairs `ps`. */
  function PairKeys<K>(ps: seq<(K, real)>): set<K> {
    if ps == [] then {} else PairKeys(ps[..|ps| - 1]) + {ps[|ps| - 1].0}
  }

  lemma {:induction false} PairKeysMembers<K>(ps: seq<(K, real)>, k: K)
    ensures k in PairKeys(ps) <==> exists i :: 0 <= i < |ps| && ps[i].0 == k
  {
    if ps != [] {
      var init := ps[..|ps| - 1];
      PairKeysMembers(init, k);
      if k in PairKeys(init) {
        var i :| 0 <= i < |init| && init[i].0 == k;
        assert ps[i] == init[i];
      }
      if exists i :: 0 <= i < |ps| && ps[i].0 == k {
        var i :| 0 <= i < |ps| && ps[i].0 == k;
        if i < |init| {
          assert init[i] == ps[i];
        }
      }
    }
  }

  /** `m` is what the assignments `d[k] = v` for the pairs `ps`, in order,
      leave in an empty dict: the keys that occur, each with the value of its
      last pair. */
  ghost predicate LastWriteMap<K>(m: map<K, real>, ps: seq<(K, real)>) {
    m.Keys == PairKeys(ps) &&
    forall i :: 0 <= i < |ps| && IsLastOfKey(ps, i) ==> ps[i].0 in m && m[ps[i].0] == ps[i].1
  }

  /** No pair after position `i` has the key of pair `i`. */
  ghost predicate IsLastOfKey<K>(ps: seq<(K, real)>, i: int)
    requires 0 <= i < |ps|
  {
    forall j :: i < j < |ps| ==> ps[j].0 != ps[i].0
  }

  lemma LastWriteEmpty<K>(m: map<K, real>, ps: seq<(K, real)>)
    requires m == map[] && ps == []
    ensures LastWriteMap(m, ps)
  {
  }

  /** One more assignment keeps the dict's description. */
  lemma LastWriteStep<K>(m: map<K, real>, ps: seq<(K, real)>, k: K, v: real)
    requires LastWriteMap(m, ps)
    ensures LastWriteMap(m[k := v], ps + [(k, v)])
  {
    var qs := ps + [(k, v)];
    assert qs[..|ps|] == ps;
    forall i | 0 <= i < |qs| && IsLastOfKey(qs, i) ensures qs[i].0 in m[k := v] && m[k := v][qs[i].0] == qs[i].1 {
      if i < |ps| {
        assert qs[|ps|].0 == k;
        assert qs[i].0 != k;
        assert IsLastOfKey(ps, i) by {
          forall j | i < j < |ps| ensures ps[j].0 != ps[i].0 {
            assert qs[j] == ps[j];
          }
        }
      }
    }
  }

  /** The description fixes the dict: a later duplicate overwrites an earlier
      one, whichever came first. */
  lemma LastWriteDuplicate(m: map<int, real>)
    requires LastWriteMap(m, [(2020, 200.0), (2021, 180.0), (2020, 250.0)])
    ensures m == map[2020 := 250.0, 2021 := 180.0]
  {
    var ps: seq<(int, real)> := [(2020, 200.0), (2021, 180.0), (2020, 250.0)];
    assert IsLastOfKey(ps, 2) && IsLastOfKey(ps, 1);
    assert PairKeys(ps[..1]) == {2020} by {
      assert |ps[..1][..0]| == 0;
    }
    assert PairKeys(ps[..2]) == {2020, 2021} by {
      assert ps[..2][..1] == ps[..1];
    }
    assert PairKeys(ps) == {2020, 2021} by {
      assert ps[..|ps| - 1] == ps[..2];
    }
  }

  // ------------------------------------------------------------ yearly map

  /** The `(year, price)` pairs of the entries that have both fields, in order. */
  function YearPricePairs(es: seq<GoldEntry>): (r: seq<(int, real)>)
    ensures |r| <= |es|
  {
    if es == [] then []
    else
      var e := es[|es| - 1];
      YearPricePairs(es[..|es| - 1]) +
        (if e.year.Some? && e.price.Some? then [(e.year.value, e.price.value)] else [])
  }

  /** Every pair comes from an entry of the list, and every entry with both
      fields gives a pair: entries lacking `year` or `price` are the only ones
      skipped. */
  lemma {:induction false} YearPricePairsMembers(es: seq<GoldEntry>)
    ensures forall y, p :: (y, p) in YearPricePairs(es) <==>
      exists i :: 0 <= i < |es| && es[i].year == Some(y) && es[i].price == Some(p)
  {
    if es != [] {
      var init := es[..|es| - 1];
      YearPricePairsMembers(init);
      forall y, p | (exists i :: 0 <= i < |es| && es[i].year == Some(y) && es[i].price == Some(p))
        ensures (y, p) in YearPricePairs(es)
      {
        var i :| 0 <= i < |es| && es[i].year == Some(y) && es[i].price == Some(p);
        if i < |es| - 1 {
          assert init[i] == es[i];
        }
      }
      forall y, p | (y, p) in YearPricePairs(init)
        ensures exists i :: 0 <= i < |es| && es[i].year == Some(y) && es[i].price == Some(p)
      {
        var i :| 0 <= i < |init| && init[i].year == Some(y) && init[i].price == Some(p);
        assert es[i] == init[i];
      }
    }
  }

  /** `load_gold_prices` of the Eurostat scripts: the year-to-price dict of a
      yearly gold file, skipping entries that lack `year` or `price`; a missing
      or unreadable file gives an empty dict. */
  method LoadYearlyGold(file: GoldFile) returns (prices: map<int, real>)
    ensures !file.Parsed? ==> prices == map[]
    ensures file.Parsed? ==> LastWriteMap(prices, YearPricePairs(file.entries))
  {
    prices := map[];
    if !file.Parsed? {
      return;
    }
    var es := file.entries;
    var i := 0;
    LastWriteEmpty(prices, YearPricePairs(es[..0]));
    while i < |es|
      invariant 0 <= i <= |es|
      invariant LastWriteMap(prices, YearPricePairs(es[..i]))
    {
      var e := es[i];
      assert es[..i + 1][..i] == es[..i];
      assert YearPricePairs(es[..i + 1]) == YearPricePairs(es[..i]) +
        (if e.year.Some? && e.price.Some? then [(e.year.value, e.price.value)] else []);
      if e.year.Some? && e.price.Some? {
        LastWriteStep(prices, YearPricePairs(es[..i]), e.year.value, e.price.value);
        prices := prices[e.year.value := e.price.value];
      } else {
        assert YearPricePairs(es[..i + 1]) == YearPricePairs(es[..i]);
      }
      i := i + 1;
    }
    assert es[..i] == es;
  }

  // ----------------------------------------------------------- monthly map

  predicate MonthlyComplete(e: GoldEntry) {
    e.year.Some? && e.month.Some? && e.price.Some?
  }

  /** The `((year, month), price)` pairs of the entries with all three fields, in order. */
  function MonthPricePairs(es: seq<GoldEntry>): (r: seq<(YearMonth, real)>)
    ensures |r| <= |es|
    ensures (forall i :: 0 <= i < |es| ==> MonthlyComplete(es[i])) ==> |r| == |es|
  {
    if es == [] then []
    else
      var e := es[|es| - 1];
      MonthPricePairs(es[..|es| - 1]) +
        (if MonthlyComplete(e) then [(YearMonth(e.year.value, e.month.value), e.price.value)] else [])
  }

  /** The pairs are exactly the entries that have all three fields. */
  lemma {:induction false} MonthPricePairsMembers(es: seq<GoldEntry>)
    ensures forall ym: YearMonth, p: real :: (ym, p) in MonthPricePairs(es) <==>
      exists i :: 0 <= i < |es| && es[i].year == Some(ym.year) && es[i].month == Some(ym.month) && es[i].price == Some(p)
  {
    if es != [] {
      var init := es[..|es| - 1];
      MonthPricePairsMembers(init);
      forall ym: YearMonth, p: real | (exists i :: 0 <= i < |es| && es[i].year == Some(ym.year) && es[i].month == Some(ym.month) && es[i].price == Some(p))
        ensures (ym, p) in MonthPricePairs(es)
      {
        var i :| 0 <= i < |es| && es[i].year == Some(ym.year) && es[i].month == Some(ym.month) && es[i].price == Some(p);
        if i < |es| - 1 {
          assert init[i] == es[i];
        }
      }
      forall ym: YearMonth, p: real | (ym, p) in MonthPricePairs(init)
        ensures exists i :: 0 <= i < |es| && es[i].year == Some(ym.year) && es[i].month == Some(ym.month) && es[i].price == Some(p)
      {
        var i :| 0 <= i < |init| && init[i].year == Some(ym.year) && init[i].month == Some(ym.month) && init[i].price == Some(p);
        assert es[i] == init[i];
      }
    }
  }

  /** The `(year, month)`-to-price dict of a monthly gold file, as the
      Warsaw and stock scripts build it: one entry lacking `year`, `month` or
      `price` raises KeyError, so there is no dict at all (`None`), and so
      does a missing or unreadable file. */
  method LoadMonthlyGold(file: GoldFile) returns (prices: Option<map<YearMonth, real>>)
    ensures prices.Some? <==> file.Parsed? && forall i :: 0 <= i < |file.entries| ==> MonthlyComplete(file.entries[i])
    ensures prices.Some? ==> LastWriteMap(prices.value, MonthPricePairs(file.entries))
  {
    if !file.Parsed? {
      return None;
    }
    var es := file.entries;
    var m: map<YearMonth, real> := map[];
    var i := 0;
    LastWriteEmpty(m, MonthPricePairs(es[..0]));
    while i < |es|
      invariant 0 <= i <= |es|
      invariant forall j :: 0 <= j < i ==> MonthlyComplete(es[j])
      invariant LastWriteMap(m, MonthPricePairs(es[..i]))
    {
      var e := es[i];
      if !MonthlyComplete(e) {
        return None;
      }
      var key := YearMonth(e.year.value, e.month.value);
      assert es[..i + 1][..i] == es[..i];
      assert MonthPricePairs(es[..i + 1]) == MonthPricePairs(es[..i]) + [(key, e.price.value)];
      LastWriteStep(m, MonthPricePairs(es[..i]), key, e.price.value);
      m := m[key := e.price.value];
      i := i + 1;
    }
    assert es[..i] == es;
    return Some(m);
  }

  // ------------------------------------------------------ wage-to-gold join

  /** A yearly wage in PLN. */
  datatype Wage = Wage(year: int, wage: real)

  /** A wage with its value in grams of gold, when there is one. */
  datatype WageInGold = WageInGold(year: int, wage: real, price: Option<real>)

  /** `combine_with_gold_prices`: every wage is kept, in order, and gets a
      `price` in grams exactly when its year has a positive gold price; the
      grams times the price per gram give back the wage. */
  method CombineWithGoldPrices(wages: seq<Wage>, gold: map<int, real>) returns (combined: seq<WageInGold>)
    ensures |combined| == |wages|
    ensures forall i :: 0 <= i < |wages| ==>
      combined[i].year == wages[i].year && combined[i].wage == wages[i].wage
    ensures forall i :: 0 <= i < |wages| ==>
      (combined[i].price.Some? <==> wages[i].year in gold && gold[wages[i].year] > 0.0)
    ensures forall i :: 0 <= i < |wages| && combined[i].price.Some? ==>
      combined[i].price.value * gold[wages[i].year] == wages[i].wage
  {
    combined := [];
    var i := 0;
    while i < |wages|
      invariant 0 <= i <= |wages|
      invariant |combined| == i
      invariant forall j :: 0 <= j < i ==>
        combined[j].year == wages[j].year && combined[j].wage == wages[j].wage
      invariant forall j :: 0 <= j < i ==>
        (combined[j].price.Some? <==> wages[j].year in gold && gold[wages[j].year] > 0.0)
      invariant forall j :: 0 <= j < i && combined[j].price.Some? ==>
        combined[j].price.value * gold[wages[j].year] == wages[j].wage
    {
      var w := wages[i];
      var price: Option<real> := None;
      if w.year in gold && gold[w.year] > 0.0 {
        price := Some(w.wage / gold[w.year]);
      }
      combined := combined + [WageInGold(w.year, w.wage, price)];
      i := i + 1;
    }
  }
}
