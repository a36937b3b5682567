/** `interpolate_quarterly_to_monthly` of the Warsaw housing script. The
    quarterly prices are sorted by `(year, quarter)`; a first pass copies each
    quarter's price to its three months (a later duplicate quarter overwrites
    an earlier one); a second pass walks consecutive pairs of sorted quarters
    and, where their mid-quarter months lie more than three months apart,
    fills each month strictly between them that is still empty with the
    straight-line value between the two prices. The dict then comes out
    sorted by `(year, month)`. Prices are reals and `round(x, 2)` is left
    out. */
module WarsawInterpolation {
  import opened Common
  import opened Calendar

  datatype QuarterPrice = QuarterPrice(year: int, quarter: int, priceM2: real)

  datatype MonthlyM2 = MonthlyM2(year: int, month: int, priceM2Pln: real)

  function QuarterKey(e: QuarterPrice): Key {
    Key(e.year, e.quarter, 0)
  }

  /** `(quarter - 1) * 3 + 1`, the first month of a quarter. */
  function QuarterStart(q: int): int {
    (q - 1) * 3 + 1
  }

  /** The `(year, quarter)` key of the entries whose first-pass months can
      hold month `k`. */
  function MonthQuarterKey(k: YearMonth): Key {
    Key(k.year, (k.month - 1) / 3 + 1, 0)
  }

  /** A month is one of the three of an entry's quarter exactly when the
      entry is for that month's year and quarter. */
  lemma QuarterOfMonth(e: QuarterPrice, k: YearMonth)
    ensures (k.year == e.year && QuarterStart(e.quarter) <= k.month < QuarterStart(e.quarter) + 3) <==>
            QuarterKey(e) == MonthQuarterKey(k)
  {
    if k.year == e.year && QuarterStart(e.quarter) <= k.month < QuarterStart(e.quarter) + 3 {
      assert k.month - 1 == (e.quarter - 1) * 3 + (k.month - QuarterStart(e.quarter));
    }
  }

  // ------------------------------------------------------------ first pass

  /** The inner loop of the first pass from `offset` on: each month of the
      entry's quarter that is not above 12 gets the entry's price. */
  function Assign(d: map<YearMonth, real>, e: QuarterPrice, offset: nat): map<YearMonth, real>
    decreases 3 - offset
  {
    if offset >= 3 then d
    else
      var month := QuarterStart(e.quarter) + offset;
      Assign(if month <= 12 then d[YearMonth(e.year, month) := e.priceM2] else d, e, offset + 1)
  }

  lemma {:induction false} AssignAt(d: map<YearMonth, real>, e: QuarterPrice, offset: nat, k: YearMonth)
    ensures var hit := k.year == e.year && QuarterStart(e.quarter) + offset <= k.month < QuarterStart(e.quarter) + 3 && k.month <= 12;
      (k in Assign(d, e, offset) <==> k in d || hit) &&
      (k in Assign(d, e, offset) ==> Assign(d, e, offset)[k] == if hit then e.priceM2 else d[k])
    decreases 3 - offset
  {
    if offset < 3 {
      var month := QuarterStart(e.quarter) + offset;
      AssignAt(if month <= 12 then d[YearMonth(e.year, month) := e.priceM2] else d, e, offset + 1, k);
    }
  }

  /** The dict after the assignments of one more entry. */
  function Overlay(d: map<YearMonth, real>, e: QuarterPrice): map<YearMonth, real> {
    Assign(d, e, 0)
  }

  /** One entry sets the months of its quarter that are not above 12, and
      only those. */
  lemma OverlayAt(d: map<YearMonth, real>, e: QuarterPrice, k: YearMonth)
    ensures k in Overlay(d, e) <==> k in d || (k.month <= 12 && QuarterKey(e) == MonthQuarterKey(k))
    ensures k in Overlay(d, e) ==>
      Overlay(d, e)[k] == if k.month <= 12 && QuarterKey(e) == MonthQuarterKey(k) then e.priceM2 else d[k]
  {
    AssignAt(d, e, 0, k);
    QuarterOfMonth(e, k);
  }

  /** The dict the first pass leaves after the entries `s`, in order. */
  function FirstPassMap(s: seq<QuarterPrice>): map<YearMonth, real> {
    if s == [] then map[] else Overlay(FirstPassMap(s[..|s| - 1]), s[|s| - 1])
  }

  /** The first pass: one loop over the entries, an inner one over the three
      months of the entry's quarter. */
  method FirstPass(s: seq<QuarterPrice>) returns (d: map<YearMonth, real>)
    ensures d == FirstPassMap(s)
  {
    d := map[];
    for i := 0 to |s|
      invariant d == FirstPassMap(s[..i])
    {
      var e := s[i];
      ghost var before := d;
      var start := (e.quarter - 1) * 3 + 1;
      for off := 0 to 3
        invariant Assign(d, e, off) == Overlay(before, e)
      {
        var month := start + off;
        if month <= 12 {
          d := d[YearMonth(e.year, month) := e.priceM2];
        }
      }
      assert s[..i + 1][..i] == s[..i];
    }
    assert s[..|s|] == s;
  }

  /** After the first pass a month holds a price exactly when some entry is
      for its year and quarter (and it is not above 12), and then it holds the
      price of the last such entry. */
  lemma {:induction false} FirstPassValue(s: seq<QuarterPrice>, k: YearMonth)
    ensures k in FirstPassMap(s) <==> k.month <= 12 && Filter(s, QuarterKey, MonthQuarterKey(k)) != []
    ensures k in FirstPassMap(s) ==>
      var f := Filter(s, QuarterKey, MonthQuarterKey(k));
      FirstPassMap(s)[k] == f[|f| - 1].priceM2
  {
    if s != [] {
      FirstPassValue(s[..|s| - 1], k);
      OverlayAt(FirstPassMap(s[..|s| - 1]), s[|s| - 1], k);
    }
  }

  // ----------------------------------------------------------- second pass

  /** `(year - 2006) * 12 + (quarter - 1) * 3 + 2`, the running number of a
      quarter's middle month. */
  function MidMonth(e: QuarterPrice): int {
    (e.year - 2006) * 12 + (e.quarter - 1) * 3 + 2
  }

  /** The test `month2 > month1 + 3`. */
  predicate HasGap(a: QuarterPrice, b: QuarterPrice) {
    MidMonth(b) > MidMonth(a) + 3
  }

  /** `price1 + (price2 - price1) * (step / num_steps)` at running month `t`. */
  function Lerp(a: QuarterPrice, b: QuarterPrice, t: int): real
    requires MidMonth(b) > MidMonth(a)
  {
    var n := MidMonth(b) - MidMonth(a);
    a.priceM2 + (b.priceM2 - a.priceM2) * ((t - MidMonth(a)) as real / n as real)
  }

  /** A straight-line value between two mid-quarter months lies between the
      two quarter prices. */
  lemma LerpBetween(a: QuarterPrice, b: QuarterPrice, t: int)
    requires MidMonth(a) < t < MidMonth(b)
    ensures a.priceM2 <= b.priceM2 ==> a.priceM2 <= Lerp(a, b, t) <= b.priceM2
    ensures b.priceM2 <= a.priceM2 ==> b.priceM2 <= Lerp(a, b, t) <= a.priceM2
  {
    var n := (MidMonth(b) - MidMonth(a)) as real;
    var f := (t - MidMonth(a)) as real / n;
    assert 0.0 < f < 1.0;
    var diff := b.priceM2 - a.priceM2;
    if diff >= 0.0 {
      assert 0.0 <= diff * f <= diff;
    } else {
      assert diff <= diff * f <= 0.0;
    }
  }

  function MonthNumber(k: YearMonth): int {
    MonthIndex(k.year, k.month)
  }

  predicate ValidMonth(k: YearMonth) {
    1 <= k.month <= 12
  }

  /** The inner loop from `step` on: steps `step .. num_steps - 1`, each
      filling its month when it is still empty. */
  function FillSteps(d: map<YearMonth, real>, a: QuarterPrice, b: QuarterPrice, step: int): map<YearMonth, real>
    requires MidMonth(b) > MidMonth(a) && step >= 1
    decreases MidMonth(b) - MidMonth(a) - step
  {
    if step >= MidMonth(b) - MidMonth(a) then d
    else
      var t := MidMonth(a) + step;
      var k := FromMonthIndex(t);
      FillSteps(if k in d then d else d[k := Lerp(a, b, t)], a, b, step + 1)
  }

  lemma {:induction false} FillStepsAt(d: map<YearMonth, real>, a: QuarterPrice, b: QuarterPrice, step: int, k: YearMonth)
    requires MidMonth(b) > MidMonth(a) && step >= 1
    ensures var gap := ValidMonth(k) && MidMonth(a) + step <= MonthNumber(k) < MidMonth(b);
      (k in FillSteps(d, a, b, step) <==> k in d || gap) &&
      (k in d ==> FillSteps(d, a, b, step)[k] == d[k]) &&
      (k !in d && gap ==> FillSteps(d, a, b, step)[k] == Lerp(a, b, MonthNumber(k)))
    decreases MidMonth(b) - MidMonth(a) - step
  {
    if step < MidMonth(b) - MidMonth(a) {
      var t := MidMonth(a) + step;
      var k0 := FromMonthIndex(t);
      var d1 := if k0 in d then d else d[k0 := Lerp(a, b, t)];
      assert k == k0 <==> ValidMonth(k) && MonthNumber(k) == t by {
        MonthIndexInverse(t);
        if ValidMonth(k) && MonthNumber(k) == t {
          FromMonthIndexInverse(k.year, k.month);
        }
      }
      FillStepsAt(d1, a, b, step + 1, k);
      if k !in d && ValidMonth(k) && MidMonth(a) + step <= MonthNumber(k) < MidMonth(b) {
        if k == k0 {
          assert d1[k] == Lerp(a, b, MonthNumber(k));
        } else {
          assert k !in d1 && MidMonth(a) + step + 1 <= MonthNumber(k);
        }
      }
    }
  }

  /** One pair of consecutive quarters: nothing unless there is a gap. */
  function FillGap(d: map<YearMonth, real>, a: QuarterPrice, b: QuarterPrice): map<YearMonth, real> {
    if HasGap(a, b) then FillSteps(d, a, b, 1) else d
  }

  /** Month number `t` lies strictly between the mid-months of the sorted
      pair `s[j], s[j + 1]`, and that pair has a gap. */
  predicate InGap(s: seq<QuarterPrice>, j: int, t: int)
    requires 0 <= j < |s| - 1
  {
    HasGap(s[j], s[j + 1]) && MidMonth(s[j]) < t < MidMonth(s[j + 1])
  }

  /** The outer loop from pair `i` on. */
  function FillPairs(d: map<YearMonth, real>, s: seq<QuarterPrice>, i: nat): map<YearMonth, real>
    decreases |s| - i
  {
    if i + 1 >= |s| then d else FillPairs(FillGap(d, s[i], s[i + 1]), s, i + 1)
  }

  /** Pair `j` is the first pair from `i` on whose gap holds month number `t`. */
  predicate FirstGapAt(s: seq<QuarterPrice>, i: int, j: int, t: int) {
    0 <= i <= j < |s| - 1 && InGap(s, j, t) && forall j' :: i <= j' < j ==> !InGap(s, j', t)
  }

  /** No key is dropped and no value is overwritten; the months added are
      the valid months inside some gap from pair `i` on, each with the
      straight-line value of the first pair whose gap holds it. */
  lemma {:induction false} FillPairsAt(d: map<YearMonth, real>, s: seq<QuarterPrice>, i: nat, k: YearMonth)
    ensures k in FillPairs(d, s, i) <==>
      k in d || (ValidMonth(k) && exists j :: i <= j < |s| - 1 && InGap(s, j, MonthNumber(k)))
    ensures k in d ==> FillPairs(d, s, i)[k] == d[k]
    ensures forall j :: k !in d && ValidMonth(k) && FirstGapAt(s, i, j, MonthNumber(k)) ==>
      FillPairs(d, s, i)[k] == Lerp(s[j], s[j + 1], MonthNumber(k))
    decreases |s| - i
  {
    if i + 1 < |s| {
      var a, b := s[i], s[i + 1];
      var t := MonthNumber(k);
      var d1 := FillGap(d, a, b);
      assert FillPairs(d, s, i) == FillPairs(d1, s, i + 1);
      if HasGap(a, b) {
        FillStepsAt(d, a, b, 1, k);
      }
      assert k in d1 <==> k in d || (ValidMonth(k) && InGap(s, i, t));
      assert k in d ==> d1[k] == d[k];
      assert k !in d && ValidMonth(k) && InGap(s, i, t) ==> d1[k] == Lerp(a, b, t);
      FillPairsAt(d1, s, i + 1, k);
      if exists j :: i <= j < |s| - 1 && InGap(s, j, t) {
        var j :| i <= j < |s| - 1 && InGap(s, j, t);
        if j > i {
          assert i + 1 <= j < |s| - 1 && InGap(s, j, t);
        }
      }
      forall j | k !in d && ValidMonth(k) && FirstGapAt(s, i, j, t)
        ensures FillPairs(d, s, i)[k] == Lerp(s[j], s[j + 1], t)
      {
        if j > i {
          assert !InGap(s, i, t);
          assert FirstGapAt(s, i + 1, j, t);
        }
      }
    }
  }

  /** The second pass, both loops. */
  method SecondPass(s: seq<QuarterPrice>, first: map<YearMonth, real>) returns (d: map<YearMonth, real>)
    ensures d == FillPairs(first, s, 0)
  {
    d := first;
    if |s| < 2 {
      return;
    }
    for i := 0 to |s| - 1
      invariant FillPairs(d, s, i) == FillPairs(first, s, 0)
    {
      var a, b := s[i], s[i + 1];
      ghost var before := d;
      var month1 := (a.year - 2006) * 12 + (a.quarter - 1) * 3 + 2;
      var month2 := (b.year - 2006) * 12 + (b.quarter - 1) * 3 + 2;
      if month2 > month1 + 3 {
        var numSteps := month2 - month1;
        for step := 1 to numSteps
          invariant FillSteps(d, a, b, step) == FillSteps(before, a, b, 1)
        {
          var total := month1 + step;
          var key := FromMonthIndex(total);
          if 1 <= key.month <= 12 && key !in d {
            d := d[key := Lerp(a, b, total)];
          }
        }
      }
      assert d == FillGap(before, a, b);
    }
  }

  // ------------------------------------------------------------- the result

  function RecordMonth(r: MonthlyM2): YearMonth {
    YearMonth(r.year, r.month)
  }

  /** The records of `sorted(monthly_prices.items())`: every month of the
      dict exactly once, ascending by `(year, month)`, with its price. */
  method SortedRecords(d: map<YearMonth, real>) returns (records: seq<MonthlyM2>)
    ensures forall i, j :: 0 <= i < j < |records| ==> Less(MonthKey(RecordMonth(records[i])), MonthKey(RecordMonth(records[j])))
    ensures forall i :: 0 <= i < |records| ==> RecordMonth(records[i]) in d && records[i].priceM2Pln == d[RecordMonth(records[i])]
    ensures forall k :: k in d ==> exists i :: 0 <= i < |records| && RecordMonth(records[i]) == k
  {
    var keys := set k | k in d :: MonthKey(k);
    var ks := SortedKeys(keys);
    records := [];
    for i := 0 to |ks|
      invariant |records| == i
      invariant forall j :: 0 <= j < i ==> MonthKey(RecordMonth(records[j])) == ks[j]
      invariant forall j :: 0 <= j < i ==> RecordMonth(records[j]) in d && records[j].priceM2Pln == d[RecordMonth(records[j])]
    {
      var ym := YearMonth(ks[i].k1, ks[i].k2);
      assert ks[i] in keys;
      ghost var k :| k in d && MonthKey(k) == ks[i];
      assert k == ym;
      records := records + [MonthlyM2(ym.year, ym.month, d[ym])];
    }
    forall k | k in d ensures exists i :: 0 <= i < |records| && RecordMonth(records[i]) == k {
      assert MonthKey(k) in keys;
      var i :| 0 <= i < |ks| && ks[i] == MonthKey(k);
      assert RecordMonth(records[i]) == k;
    }
  }

  /** The quarterly prices sorted by `(year, quarter)`, duplicates in input
      order. */
  function SortedQuarters(quarterly: seq<QuarterPrice>): seq<QuarterPrice> {
    SortBy(quarterly, QuarterKey)
  }

  /** The dict both passes leave. */
  function InterpolationMap(quarterly: seq<QuarterPrice>): map<YearMonth, real> {
    var s := SortedQuarters(quarterly);
    FillPairs(FirstPassMap(s), s, 0)
  }

  /** `interpolate_quarterly_to_monthly`: the months of the dict both passes
      build, once each, ascending. */
  method Interpolate(quarterly: seq<QuarterPrice>) returns (monthly: seq<MonthlyM2>)
    ensures quarterly == [] ==> monthly == []
    ensures forall i, j :: 0 <= i < j < |monthly| ==> Less(MonthKey(RecordMonth(monthly[i])), MonthKey(RecordMonth(monthly[j])))
    ensures forall i :: 0 <= i < |monthly| ==>
      RecordMonth(monthly[i]) in InterpolationMap(quarterly) &&
      monthly[i].priceM2Pln == InterpolationMap(quarterly)[RecordMonth(monthly[i])]
    ensures forall k :: k in InterpolationMap(quarterly) ==> exists i :: 0 <= i < |monthly| && RecordMonth(monthly[i]) == k
  {
    if quarterly == [] {
      return [];
    }
    var sorted := SortBy(quarterly, QuarterKey);
    var first := FirstPass(sorted);
    var d := SecondPass(sorted, first);
    monthly := SortedRecords(d);
  }

  /** The sorted quarters are in `(year, quarter)` order and are the input's. */
  lemma SortedQuartersOrder(quarterly: seq<QuarterPrice>)
    ensures SortedBy(SortedQuarters(quarterly), QuarterKey)
    ensures multiset(SortedQuarters(quarterly)) == multiset(quarterly)
  {
    SortBySorted(quarterly, QuarterKey);
    SortByPermutes(quarterly, QuarterKey);
  }

  lemma {:induction false} FilterLast<T>(s: seq<T>, key: T -> Key, i: int)
    requires 0 <= i < |s|
    requires forall j :: i < j < |s| ==> key(s[j]) != key(s[i])
    ensures var f := Filter(s, key, key(s[i])); f != [] && f[|f| - 1] == s[i]
  {
    if i < |s| - 1 {
      var init := s[..|s| - 1];
      assert init[i] == s[i];
      FilterLast(init, key, i);
    }
  }

  /** Which months the result has: those of a quarter some entry is for (not
      above 12), and the valid months strictly inside a gap between
      consecutive sorted quarters. */
  lemma InterpolationKeys(quarterly: seq<QuarterPrice>, k: YearMonth)
    ensures var s := SortedQuarters(quarterly);
      k in InterpolationMap(quarterly) <==>
        (k.month <= 12 && Filter(quarterly, QuarterKey, MonthQuarterKey(k)) != []) ||
        (ValidMonth(k) && exists j :: 0 <= j < |s| - 1 && InGap(s, j, MonthNumber(k)))
  {
    var s := SortedQuarters(quarterly);
    SortByStable(quarterly, QuarterKey, MonthQuarterKey(k));
    FirstPassValue(s, k);
    FillPairsAt(FirstPassMap(s), s, 0, k);
  }

  /** The months of a quarter hold the price of the last entry for that
      quarter in the input: a duplicate quarter overwrites an earlier one,
      and interpolation never overwrites a quarter's own months. */
  lemma QuarterMonthPrice(quarterly: seq<QuarterPrice>, i: int, k: YearMonth)
    requires 0 <= i < |quarterly| && k.month <= 12 && QuarterKey(quarterly[i]) == MonthQuarterKey(k)
    requires forall j :: i < j < |quarterly| ==> QuarterKey(quarterly[j]) != QuarterKey(quarterly[i])
    ensures k in InterpolationMap(quarterly) && InterpolationMap(quarterly)[k] == quarterly[i].priceM2
  {
    var s := SortedQuarters(quarterly);
    FilterLast(quarterly, QuarterKey, i);
    SortByStable(quarterly, QuarterKey, MonthQuarterKey(k));
    FirstPassValue(s, k);
    FillPairsAt(FirstPassMap(s), s, 0, k);
  }

  lemma {:induction false} FirstGapExists(s: seq<QuarterPrice>, i: nat, t: int)
    requires exists j :: i <= j < |s| - 1 && InGap(s, j, t)
    ensures exists j :: FirstGapAt(s, i, j, t)
    decreases |s| - i
  {
    if !InGap(s, i, t) {
      var j :| i <= j < |s| - 1 && InGap(s, j, t);
      assert i + 1 <= j;
      FirstGapExists(s, i + 1, t);
      var j' :| FirstGapAt(s, i + 1, j', t);
      assert FirstGapAt(s, i, j', t);
    } else {
      assert FirstGapAt(s, i, i, t);
    }
  }

  /** `x` lies between `p` and `q`, whichever is larger. */
  predicate Between(x: real, p: real, q: real) {
    (p <= q ==> p <= x <= q) && (q <= p ==> q <= x <= p)
  }

  /** A month no entry's quarter covers, when present, is a valid month inside
      the gap of the first consecutive pair of sorted quarters whose gap holds
      it, and holds the straight-line value between those two prices. */
  lemma GapMonthPrice(quarterly: seq<QuarterPrice>, k: YearMonth)
    requires k in InterpolationMap(quarterly)
    requires Filter(quarterly, QuarterKey, MonthQuarterKey(k)) == []
    ensures ValidMonth(k)
    ensures var s := SortedQuarters(quarterly);
      exists j :: FirstGapAt(s, 0, j, MonthNumber(k)) &&
        InterpolationMap(quarterly)[k] == Lerp(s[j], s[j + 1], MonthNumber(k)) &&
        Between(InterpolationMap(quarterly)[k], s[j].priceM2, s[j + 1].priceM2)
  {
    var s := SortedQuarters(quarterly);
    var t := MonthNumber(k);
    var first := FirstPassMap(s);
    SortByStable(quarterly, QuarterKey, MonthQuarterKey(k));
    FirstPassValue(s, k);
    assert k !in first;
    FillPairsAt(first, s, 0, k);
    assert ValidMonth(k) && exists j :: 0 <= j < |s| - 1 && InGap(s, j, t);
    FirstGapExists(s, 0, t);
    var j :| FirstGapAt(s, 0, j, t);
    assert InterpolationMap(quarterly)[k] == Lerp(s[j], s[j + 1], t);
    LerpBetween(s[j], s[j + 1], t);
    assert Between(Lerp(s[j], s[j + 1], t), s[j].priceM2, s[j + 1].priceM2);
  }

  // ------------------------------------------------------------- examples

  lemma FilterPair<T>(x: T, y: T, key: T -> Key, k: Key)
    ensures Filter([x, y], key, k) == (if key(x) == k then [x] else []) + (if key(y) == k then [y] else [])
  {
    assert [x, y] == [x] + [y];
    FilterConcat([x], [y], key, k);
    FilterSingle(x, key, k);
    FilterSingle(y, key, k);
  }

  lemma ConsecutiveSorted(q: seq<QuarterPrice>)
    requires q == [QuarterPrice(2020, 1, 6000.0), QuarterPrice(2020, 2, 6300.0)]
    ensures SortedQuarters(q) == q
  {
    assert LessEq(QuarterKey(q[0]), QuarterKey(q[1]));
    assert SortBy(q[1..], QuarterKey) == [q[1]];
  }

  lemma ConsecutiveKey(q: seq<QuarterPrice>, k: YearMonth)
    requires q == [QuarterPrice(2020, 1, 6000.0), QuarterPrice(2020, 2, 6300.0)]
    ensures k in InterpolationMap(q) <==> k.year == 2020 && 1 <= k.month <= 6
  {
    ConsecutiveSorted(q);
    var s := SortedQuarters(q);
    assert !HasGap(s[0], s[1]);
    assert !exists j :: 0 <= j < |s| - 1 && InGap(s, j, MonthNumber(k));
    InterpolationKeys(q, k);
    FilterPair(q[0], q[1], QuarterKey, MonthQuarterKey(k));
  }

  lemma ConsecutiveValue(q: seq<QuarterPrice>, k: YearMonth)
    requires q == [QuarterPrice(2020, 1, 6000.0), QuarterPrice(2020, 2, 6300.0)]
    requires k in InterpolationMap(q)
    ensures InterpolationMap(q)[k] == if k.month <= 3 then 6000.0 else 6300.0
  {
    ConsecutiveKey(q, k);
    if k.month <= 3 {
      QuarterMonthPrice(q, 0, k);
    } else {
      QuarterMonthPrice(q, 1, k);
    }
  }

  /** Two consecutive quarters: their mid-months are three apart, so nothing
      is interpolated and the result is a step from one price to the next. */
  lemma ConsecutiveQuartersStep()
    ensures var m := InterpolationMap([QuarterPrice(2020, 1, 6000.0), QuarterPrice(2020, 2, 6300.0)]);
      (forall k :: k in m <==> k.year == 2020 && 1 <= k.month <= 6) &&
      (forall k :: k in m ==> m[k] == if k.month <= 3 then 6000.0 else 6300.0)
  {
    var q := [QuarterPrice(2020, 1, 6000.0), QuarterPrice(2020, 2, 6300.0)];
    forall k ensures k in InterpolationMap(q) <==> k.year == 2020 && 1 <= k.month <= 6 {
      ConsecutiveKey(q, k);
    }
    forall k | k in InterpolationMap(q) ensures InterpolationMap(q)[k] == if k.month <= 3 then 6000.0 else 6300.0 {
      ConsecutiveValue(q, k);
    }
  }

  /** A missing quarter: between Q1 (mid-month February) and Q3 (mid-month
      August) of 2020 April, May and June are filled in steps of a sixth of
      the difference, March keeps Q1's own price and July Q3's. */
  lemma MissingQuarterFilled()
    ensures var m := InterpolationMap([QuarterPrice(2020, 1, 6000.0), QuarterPrice(2020, 3, 6600.0)]);
      YearMonth(2020, 3) in m && m[YearMonth(2020, 3)] == 6000.0 &&
      YearMonth(2020, 4) in m && m[YearMonth(2020, 4)] == 6200.0 &&
      YearMonth(2020, 5) in m && m[YearMonth(2020, 5)] == 6300.0 &&
      YearMonth(2020, 6) in m && m[YearMonth(2020, 6)] == 6400.0 &&
      YearMonth(2020, 7) in m && m[YearMonth(2020, 7)] == 6600.0
  {
    var q := [QuarterPrice(2020, 1, 6000.0), QuarterPrice(2020, 3, 6600.0)];
    QuarterMonthPrice(q, 0, YearMonth(2020, 3));
    QuarterMonthPrice(q, 1, YearMonth(2020, 7));
    GapMonthValue(q, 4);
    GapMonthValue(q, 5);
    GapMonthValue(q, 6);
  }

  lemma GapMonthValue(q: seq<QuarterPrice>, month: int)
    requires q == [QuarterPrice(2020, 1, 6000.0), QuarterPrice(2020, 3, 6600.0)]
    requires 4 <= month <= 6
    ensures YearMonth(2020, month) in InterpolationMap(q)
    ensures InterpolationMap(q)[YearMonth(2020, month)] == 6000.0 + 100.0 * (month - 2) as real
  {
    var k := YearMonth(2020, month);
    var s := SortedQuarters(q);
    assert s == q by {
      assert LessEq(QuarterKey(q[0]), QuarterKey(q[1]));
      assert SortBy(q[1..], QuarterKey) == [q[1]];
    }
    FilterPair(q[0], q[1], QuarterKey, MonthQuarterKey(k));
    assert InGap(s, 0, MonthNumber(k));
    InterpolationKeys(q, k);
    GapMonthPrice(q, k);
    var j :| FirstGapAt(s, 0, j, MonthNumber(k)) && InterpolationMap(q)[k] == Lerp(s[j], s[j + 1], MonthNumber(k));
    assert j == 0;
    LerpSixth(s[0], s[1], month);
  }

  lemma LerpSixth(a: QuarterPrice, b: QuarterPrice, month: int)
    requires a == QuarterPrice(2020, 1, 6000.0) && b == QuarterPrice(2020, 3, 6600.0)
    ensures MidMonth(b) > MidMonth(a)
    ensures Lerp(a, b, MonthIndex(2020, month)) == 6000.0 + 100.0 * (month - 2) as real
  {
    assert MidMonth(a) == 170 && MidMonth(b) == 176 && MonthIndex(2020, month) - MidMonth(a) == month - 2;
    var f := (month - 2) as real / 6.0;
    assert 600.0 * f == 100.0 * (month - 2) as real;
  }
}
