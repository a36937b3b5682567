/** Building blocks shared by every fetch script: optional values, the
    lexicographic period key that Python compares tuples and zero-padded date
    strings by, means, the stable sort behind `sorted`/`list.sort`, and the
    "dict of lists" bucketing loops followed by `sorted(d.keys())`. */
module Common {

  datatype Option<T> = None | Some(value: T)

  /** A sort or dictionary key compared lexicographically, like a Python tuple.
      Years are Key(y, 0, 0), year-months Key(y, m, 0), dates Key(y, m, d). */
  datatype Key = Key(k1: int, k2: int, k3: int)

  predicate Less(a: Key, b: Key) {
    a.k1 < b.k1 || (a.k1 == b.k1 && (a.k2 < b.k2 || (a.k2 == b.k2 && a.k3 < b.k3)))
  }

  predicate LessEq(a: Key, b: Key) {
    a == b || Less(a, b)
  }

  lemma LessEqTrans(a: Key, b: Key, c: Key)
    requires LessEq(a, b) && LessEq(b, c)
    ensures LessEq(a, c)
    ensures Less(a, b) || Less(b, c) ==> Less(a, c)
  {
  }

  /** Keys of `s` are non-decreasing (what a sort promises). */
  ghost predicate SortedBy<T>(s: seq<T>, key: T -> Key) {
    forall i, j :: 0 <= i < j < |s| ==> LessEq(key(s[i]), key(s[j]))
  }

  ghost predicate StrictlyIncreasing(ks: seq<Key>) {
    forall i, j :: 0 <= i < j < |ks| ==> Less(ks[i], ks[j])
  }

  // ---------------------------------------------------------------- means

  function Sum(xs: seq<real>): real {
    if xs == [] then 0.0 else Sum(xs[..|xs| - 1]) + xs[|xs| - 1]
  }

  /** `sum(xs) / len(xs)`, before any rounding. */
  function Mean(xs: seq<real>): real
    requires |xs| > 0
  {
    Sum(xs) / (|xs| as real)
  }

  lemma {:induction false} SumBounds(xs: seq<real>, lo: real, hi: real)
    requires forall i :: 0 <= i < |xs| ==> lo <= xs[i] <= hi
    ensures (|xs| as real) * lo <= Sum(xs) <= (|xs| as real) * hi
  {
    if xs != [] {
      SumBounds(xs[..|xs| - 1], lo, hi);
    }
  }

  lemma RealMulLess(a: real, b: real, n: real)
    requires a < b && n > 0.0
    ensures a * n < b * n
  {
    assert b * n - a * n == (b - a) * n;
  }

  /** A mean lies between the smallest and the largest value averaged. */
  lemma MeanBounds(xs: seq<real>, lo: real, hi: real)
    requires |xs| > 0
    requires forall i :: 0 <= i < |xs| ==> lo <= xs[i] <= hi
    ensures lo <= Mean(xs) <= hi
  {
    SumBounds(xs, lo, hi);
    var n := |xs| as real;
    var m := Mean(xs);
    assert m * n == Sum(xs);
    if m < lo {
      RealMulLess(m, lo, n);
      assert false;
    }
    if hi < m {
      RealMulLess(hi, m, n);
      assert false;
    }
  }

  /** The mean of one value is that value (a one-day month is its own mean). */
  lemma MeanOfOne(x: real)
    ensures Mean([x]) == x
  {
    assert [x][..0] == [];
    assert Sum([x]) == Sum([]) + x;
  }

  /** The values `val` picks out of `s`, in order. */
  function Values<T>(s: seq<T>, val: T -> real): (r: seq<real>)
    ensures |r| == |s|
    ensures forall i :: 0 <= i < |s| ==> r[i] == val(s[i])
  {
    seq(|s|, i requires 0 <= i < |s| => val(s[i]))
  }

  /** Largest value of a non-empty sequence (pandas `Series.max()`). */
  function MaxOf(xs: seq<real>): (r: real)
    requires |xs| > 0
    ensures r in xs
    ensures forall i :: 0 <= i < |xs| ==> xs[i] <= r
  {
    if |xs| == 1 then xs[0]
    else
      var m := MaxOf(xs[1..]);
      assert forall i :: 1 <= i < |xs| ==> xs[i] == xs[1..][i - 1];
      if xs[0] >= m then xs[0] else m
  }

  /** Smallest value of a non-empty sequence (pandas `Series.min()`). */
  function MinOf(xs: seq<real>): (r: real)
    requires |xs| > 0
    ensures r in xs
    ensures forall i :: 0 <= i < |xs| ==> r <= xs[i]
  {
    if |xs| == 1 then xs[0]
    else
      var m := MinOf(xs[1..]);
      assert forall i :: 1 <= i < |xs| ==> xs[i] == xs[1..][i - 1];
      if xs[0] <= m then xs[0] else m
  }

  // ------------------------------------------------------- keyed selection

  /** The elements of `s` whose key is `k`, in their order in `s`. */
  function Filter<T>(s: seq<T>, key: T -> Key, k: Key): seq<T> {
    if s == [] then []
    else Filter(s[..|s| - 1], key, k) + (if key(s[|s| - 1]) == k then [s[|s| - 1]] else [])
  }

  /** The loop `for x in s: if f(x) is not None: out.append(f(x))`: the
      values `f` gives, in order. */
  function Collect<T, U>(s: seq<T>, f: T -> Option<U>): (r: seq<U>)
    ensures |r| <= |s|
  {
    if s == [] then []
    else Collect(s[..|s| - 1], f) + (if f(s[|s| - 1]).Some? then [f(s[|s| - 1]).value] else [])
  }

  lemma CollectSnoc<T, U>(s: seq<T>, i: int, f: T -> Option<U>)
    requires 0 <= i < |s|
    ensures Collect(s[..i + 1], f) == Collect(s[..i], f) + (if f(s[i]).Some? then [f(s[i]).value] else [])
  {
    assert s[..i + 1][..i] == s[..i];
  }

  /** The elements are read independently and in order. */
  lemma {:induction false} CollectConcat<T, U>(a: seq<T>, b: seq<T>, f: T -> Option<U>)
    ensures Collect(a + b, f) == Collect(a, f) + Collect(b, f)
    decreases |b|
  {
    if b == [] {
      assert a + b == a;
    } else {
      var init, x := b[..|b| - 1], b[|b| - 1];
      assert (a + b)[..|a + b| - 1] == a + init;
      assert (a + b)[|a + b| - 1] == x;
      CollectConcat(a, init, f);
      var last := if f(x).Some? then [f(x).value] else [];
      assert Collect(a + b, f) == Collect(a + init, f) + last;
      assert Collect(b, f) == Collect(init, f) + last;
    }
  }

  /** `Collect` holds exactly the values `f` gives some element. */
  lemma {:induction false} CollectMembers<T, U>(s: seq<T>, f: T -> Option<U>, y: U)
    ensures y in Collect(s, f) <==> exists i :: 0 <= i < |s| && f(s[i]) == Some(y)
  {
    if s != [] {
      var init := s[..|s| - 1];
      CollectMembers(init, f, y);
      if exists i :: 0 <= i < |init| && f(init[i]) == Some(y) {
        var i :| 0 <= i < |init| && f(init[i]) == Some(y);
        assert s[i] == init[i];
      }
      if exists i :: 0 <= i < |s| && f(s[i]) == Some(y) {
        var i :| 0 <= i < |s| && f(s[i]) == Some(y);
        if i < |init| {
          assert init[i] == s[i];
        }
      }
    }
  }

  /** The distinct keys occurring in `s`. */
  function KeysOf<T>(s: seq<T>, key: T -> Key): set<Key> {
    set i | 0 <= i < |s| :: key(s[i])
  }

  lemma {:induction false} FilterConcat<T>(a: seq<T>, b: seq<T>, key: T -> Key, k: Key)
    ensures Filter(a + b, key, k) == Filter(a, key, k) + Filter(b, key, k)
  {
    if b == [] {
      assert a + b == a;
    } else {
      assert (a + b)[..|a + b| - 1] == a + b[..|b| - 1];
      FilterConcat(a, b[..|b| - 1], key, k);
    }
  }

  lemma FilterSingle<T>(x: T, key: T -> Key, k: Key)
    ensures Filter([x], key, k) == if key(x) == k then [x] else []
  {
    assert [x][..0] == [];
  }

  /** Everything `Filter` keeps has key `k` and comes from `s`. */
  lemma {:induction false} FilterMembers<T>(s: seq<T>, key: T -> Key, k: Key)
    ensures forall y :: y in Filter(s, key, k) ==> y in s && key(y) == k
  {
    if s != [] {
      FilterMembers(s[..|s| - 1], key, k);
    }
  }

  /** `Filter` keeps something exactly when the key occurs. */
  lemma {:induction false} FilterNonEmpty<T>(s: seq<T>, key: T -> Key, k: Key)
    ensures Filter(s, key, k) != [] <==> k in KeysOf(s, key)
  {
    if s != [] {
      var init := s[..|s| - 1];
      FilterNonEmpty(init, key, k);
      assert KeysOf(s, key) == KeysOf(init, key) + {key(s[|s| - 1])} by {
        forall x | x in KeysOf(s, key) ensures x in KeysOf(init, key) + {key(s[|s| - 1])} {
          var i :| 0 <= i < |s| && key(s[i]) == x;
          if i < |s| - 1 { assert init[i] == s[i]; }
        }
        forall x | x in KeysOf(init, key) ensures x in KeysOf(s, key) {
          var i :| 0 <= i < |init| && key(init[i]) == x;
          assert s[i] == init[i];
        }
      }
    }
  }

  // ------------------------------------------------------------ stable sort

  /** Puts `x` before the first element whose key is not below its own, so an
      element inserted later in the recursion (earlier in the input) precedes
      equal-keyed ones: the sort is stable. */
  function Insert<T>(x: T, s: seq<T>, key: T -> Key): seq<T> {
    if s == [] then [x]
    else if LessEq(key(x), key(s[0])) then [x] + s
    else [s[0]] + Insert(x, s[1..], key)
  }

  /** Python's stable `sorted(s, key=key)` / `s.sort(key=key)`. Sorting with
      `reverse=True` is this sort on the negated key, which Python also keeps
      stable. */
  function SortBy<T>(s: seq<T>, key: T -> Key): seq<T> {
    if s == [] then [] else Insert(s[0], SortBy(s[1..], key), key)
  }

  lemma {:induction false} InsertMultiset<T>(x: T, s: seq<T>, key: T -> Key)
    ensures multiset(Insert(x, s, key)) == multiset(s) + multiset{x}
  {
    if s != [] && !LessEq(key(x), key(s[0])) {
      InsertMultiset(x, s[1..], key);
      assert s == [s[0]] + s[1..];
    }
  }

  lemma {:induction false} InsertMembers<T>(x: T, s: seq<T>, key: T -> Key)
    ensures forall y :: y in Insert(x, s, key) ==> y == x || y in s
  {
    if s != [] && !LessEq(key(x), key(s[0])) {
      InsertMembers(x, s[1..], key);
    }
  }

  lemma {:induction false} InsertSorted<T>(x: T, s: seq<T>, key: T -> Key)
    requires SortedBy(s, key)
    ensures SortedBy(Insert(x, s, key), key)
  {
    if s == [] {
    } else if LessEq(key(x), key(s[0])) {
      var r := [x] + s;
      forall i, j | 0 <= i < j < |r| ensures LessEq(key(r[i]), key(r[j])) {
        if i == 0 {
          if j > 1 { LessEqTrans(key(x), key(s[0]), key(s[j - 1])); }
        } else {
          assert r[i] == s[i - 1] && r[j] == s[j - 1];
        }
      }
    } else {
      var t := s[1..];
      assert SortedBy(t, key) by {
        forall i, j | 0 <= i < j < |t| ensures LessEq(key(t[i]), key(t[j])) {
          assert t[i] == s[i + 1] && t[j] == s[j + 1];
        }
      }
      InsertSorted(x, t, key);
      InsertMembers(x, t, key);
      var r := Insert(x, t, key);
      var out := [s[0]] + r;
      forall i | 0 <= i < |r| ensures LessEq(key(s[0]), key(r[i])) {
        if r[i] != x {
          assert r[i] in t;
          var j :| 0 <= j < |t| && t[j] == r[i];
          assert s[j + 1] == r[i];
        }
      }
      forall i, j | 0 <= i < j < |out| ensures LessEq(key(out[i]), key(out[j])) {
        if i == 0 {
          assert out[j] == r[j - 1];
        } else {
          assert out[i] == r[i - 1] && out[j] == r[j - 1];
        }
      }
    }
  }

  /** The result of `SortBy` is sorted. */
  lemma {:induction false} SortBySorted<T>(s: seq<T>, key: T -> Key)
    ensures SortedBy(SortBy(s, key), key)
  {
    if s != [] {
      SortBySorted(s[1..], key);
      InsertSorted(s[0], SortBy(s[1..], key), key);
    }
  }

  /** The result of `SortBy` is a permutation of the input. */
  lemma {:induction false} SortByPermutes<T>(s: seq<T>, key: T -> Key)
    ensures multiset(SortBy(s, key)) == multiset(s)
    ensures |SortBy(s, key)| == |s|
  {
    if s != [] {
      SortByPermutes(s[1..], key);
      InsertMultiset(s[0], SortBy(s[1..], key), key);
      assert s == [s[0]] + s[1..];
    }
  }

  /** `Insert` only passes over elements whose key is below `x`'s, so among
      the elements with any one key, `x` comes first. */
  lemma {:induction false} InsertFilter<T>(x: T, s: seq<T>, key: T -> Key, k: Key)
    ensures Filter(Insert(x, s, key), key, k) == Filter([x], key, k) + Filter(s, key, k)
  {
    if s == [] {
    } else if LessEq(key(x), key(s[0])) {
      FilterConcat([x], s, key, k);
    } else {
      var h, t := s[0], s[1..];
      var rest := Insert(x, t, key);
      InsertFilter(x, t, key, k);
      assert Insert(x, s, key) == [h] + rest;
      assert s == [h] + t;
      FilterPastHead(x, h, t, rest, key, k);
    }
  }

  /** Putting a head `h` of another key in front of a list does not change
      where `x` stands among the elements of key `k`. */
  lemma FilterPastHead<T>(x: T, h: T, t: seq<T>, rest: seq<T>, key: T -> Key, k: Key)
    requires Filter(rest, key, k) == Filter([x], key, k) + Filter(t, key, k)
    requires key(h) != key(x)
    ensures Filter([h] + rest, key, k) == Filter([x], key, k) + Filter([h] + t, key, k)
  {
    FilterConcat([h], rest, key, k);
    FilterConcat([h], t, key, k);
    var fx, fh, ft := Filter([x], key, k), Filter([h], key, k), Filter(t, key, k);
    FilterSingle(x, key, k);
    FilterSingle(h, key, k);
    if key(h) == k {
      assert fx == [];
      assert fh + (fx + ft) == fx + (fh + ft);
    } else {
      assert fh == [];
      assert fh + (fx + ft) == fx + (fh + ft);
    }
  }

  /** Stability: for every key, the elements with that key keep their input order. */
  lemma {:induction false} SortByStable<T>(s: seq<T>, key: T -> Key, k: Key)
    ensures Filter(SortBy(s, key), key, k) == Filter(s, key, k)
  {
    if s != [] {
      SortByStable(s[1..], key, k);
      InsertFilter(s[0], SortBy(s[1..], key), key, k);
      FilterConcat([s[0]], s[1..], key, k);
      assert s == [s[0]] + s[1..];
    }
  }

  // ---------------------------------------------------- dict-of-lists loops

  /** The loop `for x in s: d.setdefault(key(x), []).append(x)`: one bucket per
      key that occurs, holding the elements with that key in input order. */
  method Group<T>(s: seq<T>, key: T -> Key) returns (buckets: map<Key, seq<T>>)
    ensures buckets.Keys == KeysOf(s, key)
    ensures forall k :: k in buckets ==> buckets[k] == Filter(s, key, k)
  {
    buckets := map[];
    var i := 0;
    while i < |s|
      invariant 0 <= i <= |s|
      invariant buckets.Keys == KeysOf(s[..i], key)
      invariant forall k :: k in buckets ==> buckets[k] == Filter(s[..i], key, k)
      invariant forall k :: k !in buckets ==> Filter(s[..i], key, k) == []
    {
      var x := s[i];
      var k := key(x);
      assert s[..i + 1][..i] == s[..i];
      assert s[..i + 1][i] == x;
      assert KeysOf(s[..i + 1], key) == KeysOf(s[..i], key) + {k} by {
        var a, b := s[..i + 1], s[..i];
        forall y | y in KeysOf(a, key) ensures y in KeysOf(b, key) + {k} {
          var j :| 0 <= j < |a| && key(a[j]) == y;
          if j < i { assert a[j] == b[j]; }
        }
        forall y | y in KeysOf(b, key) ensures y in KeysOf(a, key) {
          var j :| 0 <= j < |b| && key(b[j]) == y;
          assert a[j] == b[j];
        }
      }
      if k in buckets {
        buckets := buckets[k := buckets[k] + [x]];
      } else {
        buckets := buckets[k := [x]];
      }
      i := i + 1;
    }
    assert s[..i] == s;
  }

  /** A finite non-empty set of keys has a least element. */
  lemma {:induction false} MinimumExists(s: set<Key>)
    requires s != {}
    ensures exists m :: m in s && forall k :: k in s ==> LessEq(m, k)
    decreases |s|
  {
    var x :| x in s;
    if s != {x} {
      MinimumExists(s - {x});
      var m :| m in s - {x} && forall k :: k in s - {x} ==> LessEq(m, k);
      if Less(x, m) {
        forall k | k in s ensures LessEq(x, k) {
          if k != x { LessEqTrans(x, m, k); }
        }
      } else {
        assert LessEq(m, x);
      }
    } else {
      assert forall k :: k in s ==> LessEq(x, k);
    }
  }

  /** `sorted(d.keys())`: the keys in strictly ascending order, each once. */
  method SortedKeys(s: set<Key>) returns (ks: seq<Key>)
    ensures StrictlyIncreasing(ks)
    ensures forall k :: k in ks <==> k in s
    ensures |ks| == |s|
  {
    var rest := s;
    ks := [];
    while rest != {}
      invariant rest <= s
      invariant forall k :: k in s <==> k in ks || k in rest
      invariant forall k :: k in ks ==> k !in rest
      invariant StrictlyIncreasing(ks)
      invariant forall i, k :: 0 <= i < |ks| && k in rest ==> Less(ks[i], k)
      invariant |ks| + |rest| == |s|
      decreases |rest|
    {
      MinimumExists(rest);
      var m :| m in rest && forall k :: k in rest ==> LessEq(m, k);
      ks := ks + [m];
      rest := rest - {m};
    }
  }

  /** One bucket of a keyed mean: the key and the mean of its values. */
  datatype Bucket = Bucket(key: Key, mean: real)

  /** `b` holds the mean of the values of the elements of `s` with key `b.key`. */
  ghost predicate MeanOfBucket<T>(s: seq<T>, key: T -> Key, val: T -> real, b: Bucket) {
    Filter(s, key, b.key) != [] && b.mean == Mean(Values(Filter(s, key, b.key), val))
  }

  /** The mean of a bucket `Group` built for key `k`. */
  lemma BucketMean<T>(s: seq<T>, key: T -> Key, val: T -> real, bucket: seq<T>, k: Key)
    requires k in KeysOf(s, key) && bucket == Filter(s, key, k)
    ensures bucket != []
    ensures MeanOfBucket(s, key, val, Bucket(k, Mean(Values(bucket, val))))
  {
    FilterNonEmpty(s, key, k);
  }

  /** Buckets laid out along the sorted keys `ks` of `keys` are in ascending
      key order and cover every key. */
  lemma BucketsAlongKeys(r: seq<Bucket>, ks: seq<Key>, keys: set<Key>)
    requires |r| == |ks| && forall j :: 0 <= j < |r| ==> r[j].key == ks[j]
    requires StrictlyIncreasing(ks) && forall k :: k in ks <==> k in keys
    ensures forall i, j :: 0 <= i < j < |r| ==> Less(r[i].key, r[j].key)
    ensures forall i :: 0 <= i < |r| ==> r[i].key in keys
    ensures forall k :: k in keys ==> exists i :: 0 <= i < |r| && r[i].key == k
  {
    forall k | k in keys ensures exists i :: 0 <= i < |r| && r[i].key == k {
      var i :| 0 <= i < |ks| && ks[i] == k;
      assert r[i].key == k;
    }
  }

  /** The loop emitting one bucket per sorted key. */
  method MeansAlong<T>(s: seq<T>, key: T -> Key, val: T -> real, buckets: map<Key, seq<T>>, ks: seq<Key>)
    returns (r: seq<Bucket>)
    requires forall k :: k in ks ==> k in buckets && k in KeysOf(s, key) && buckets[k] == Filter(s, key, k)
    ensures |r| == |ks|
    ensures forall j :: 0 <= j < |r| ==> r[j].key == ks[j] && MeanOfBucket(s, key, val, r[j])
  {
    r := [];
    for i := 0 to |ks|
      invariant |r| == i
      invariant forall j :: 0 <= j < i ==> r[j].key == ks[j] && MeanOfBucket(s, key, val, r[j])
    {
      var k := ks[i];
      BucketMean(s, key, val, buckets[k], k);
      r := r + [Bucket(k, Mean(Values(buckets[k], val)))];
    }
  }

  /** The grouping-then-averaging shape every aggregation uses: bucket the
      values by key, then emit `sum(bucket) / len(bucket)` for the keys in
      ascending order. */
  method MeanByKey<T>(s: seq<T>, key: T -> Key, val: T -> real) returns (r: seq<Bucket>)
    ensures |r| == |KeysOf(s, key)|
    ensures forall i, j :: 0 <= i < j < |r| ==> Less(r[i].key, r[j].key)
    ensures forall i :: 0 <= i < |r| ==> r[i].key in KeysOf(s, key) && MeanOfBucket(s, key, val, r[i])
    ensures forall k :: k in KeysOf(s, key) ==> exists i :: 0 <= i < |r| && r[i].key == k
  {
    var buckets := Group(s, key);
    var ks := SortedKeys(buckets.Keys);
    r := MeansAlong(s, key, val, buckets, ks);
    BucketsAlongKeys(r, ks, KeysOf(s, key));
  }

  // ---------------------------------------------- every element in one bucket

  /** Total size of the buckets of the keys `ks`. */
  function BucketSizes<T>(s: seq<T>, key: T -> Key, ks: seq<Key>): int {
    if ks == [] then 0 else |Filter(s, key, ks[0])| + BucketSizes(s, key, ks[1..])
  }

  lemma {:induction false} BucketSizesAppend<T>(s: seq<T>, x: T, key: T -> Key, ks: seq<Key>)
    ensures BucketSizes(s + [x], key, ks) ==
      BucketSizes(s, key, ks) + multiset(ks)[key(x)]
  {
    if ks != [] {
      var k, rest := ks[0], ks[1..];
      BucketSizesAppend(s, x, key, rest);
      FilterConcat(s, [x], key, k);
      FilterSingle(x, key, k);
      var one := if key(x) == k then 1 else 0;
      assert |Filter(s + [x], key, k)| == |Filter(s, key, k)| + one;
      assert multiset(ks)[key(x)] == one + multiset(rest)[key(x)] by {
        assert ks == [k] + rest;
        assert multiset(ks) == multiset{k} + multiset(rest);
      }
    }
  }

  /** No element is dropped or counted twice: over the distinct keys that
      occur, the buckets' sizes add up to the input's length. */
  lemma {:induction false} BucketsPartition<T>(s: seq<T>, key: T -> Key, ks: seq<Key>)
    requires forall i, j :: 0 <= i < j < |ks| ==> ks[i] != ks[j]
    requires KeysOf(s, key) <= set k | k in ks
    ensures BucketSizes(s, key, ks) == |s|
  {
    if s == [] {
      BucketSizesEmpty(key, ks);
    } else {
      var init, x := s[..|s| - 1], s[|s| - 1];
      assert s == init + [x];
      assert KeysOf(init, key) <= KeysOf(s, key) by {
        forall y | y in KeysOf(init, key) ensures y in KeysOf(s, key) {
          var j :| 0 <= j < |init| && key(init[j]) == y;
          assert s[j] == init[j];
        }
      }
      BucketsPartition(init, key, ks);
      BucketSizesAppend(init, x, key, ks);
      assert key(x) in KeysOf(s, key);
      DistinctCount(ks, key(x));
    }
  }

  lemma {:induction false} BucketSizesEmpty<T>(key: T -> Key, ks: seq<Key>)
    ensures BucketSizes([], key, ks) == 0
  {
    if ks != [] {
      BucketSizesEmpty(key, ks[1..]);
    }
  }

  lemma {:induction false} DistinctCount(ks: seq<Key>, k: Key)
    requires forall i, j :: 0 <= i < j < |ks| ==> ks[i] != ks[j]
    requires k in ks
    ensures multiset(ks)[k] == 1
  {
    assert ks == [ks[0]] + ks[1..];
    if ks[0] == k {
      assert forall j :: 0 <= j < |ks[1..]| ==> ks[1..][j] == ks[j + 1] != ks[0];
      assert k !in ks[1..];
    } else {
      DistinctCount(ks[1..], k);
    }
  }
}
