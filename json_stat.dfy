/** The parts of a Eurostat JSON-stat 2.0 answer the wage scripts read. The
    `value` member is in its object form: decimal flat indices as keys. The
    categories of the `time` dimension keep the order of their `index`
    object, which is the order `dict.items()` walks them in. */
module JsonStat {

  datatype Dataset = Dataset(
    size: seq<int>,
    timeIndex: seq<(string, int)>,
    currencyIndex: map<string, int>,
    value: map<string, real>)

  /** The flat position of the cell at coordinates `pos` of a cube whose
      dimensions have the sizes `size`, in JSON-stat's row-major order: the
      last dimension varies fastest. */
  function RowMajor(pos: seq<int>, size: seq<int>): int
    requires |pos| == |size|
  {
    if pos == [] then 0
    else RowMajor(pos[..|pos| - 1], size[..|size| - 1]) * size[|size| - 1] + pos[|pos| - 1]
  }

  /** Every coordinate is inside its dimension. */
  predicate InCube(pos: seq<int>, size: seq<int>)
    requires |pos| == |size|
  {
    forall i :: 0 <= i < |pos| ==> 0 <= pos[i] < size[i]
  }

  function CubeSize(size: seq<int>): int {
    if size == [] then 1 else CubeSize(size[..|size| - 1]) * size[|size| - 1]
  }

  lemma MulMonotone(a: int, b: int, n: int)
    requires a <= b && n >= 0
    ensures a * n <= b * n
  {
    assert b * n - a * n == (b - a) * n;
  }

  lemma InCubePrefix(pos: seq<int>, size: seq<int>)
    requires |pos| == |size| && |pos| > 0 && InCube(pos, size)
    ensures InCube(pos[..|pos| - 1], size[..|size| - 1])
  {
  }

  /** Positions inside the cube get the flat indices 0 .. product of the
      sizes. */
  lemma {:induction false} RowMajorRange(pos: seq<int>, size: seq<int>)
    requires |pos| == |size| && InCube(pos, size)
    ensures 0 <= RowMajor(pos, size) < CubeSize(size)
  {
    if pos != [] {
      var k := |pos| - 1;
      var p, s := pos[..k], size[..k];
      InCubePrefix(pos, size);
      RowMajorRange(p, s);
      var r := RowMajor(p, s);
      var n := size[k];
      assert 0 <= pos[k] < n;
      assert RowMajor(pos, size) == r * n + pos[k];
      assert CubeSize(size) == CubeSize(s) * n;
      MulMonotone(0, r, n);
      MulMonotone(r + 1, CubeSize(s), n);
      assert r * n + pos[k] < (r + 1) * n;
    }
  }

  /** ... and different positions get different flat indices. */
  lemma {:induction false} RowMajorInjective(p1: seq<int>, p2: seq<int>, size: seq<int>)
    requires |p1| == |size| && |p2| == |size| && InCube(p1, size) && InCube(p2, size)
    requires RowMajor(p1, size) == RowMajor(p2, size)
    ensures p1 == p2
  {
    if size != [] {
      var k := |size| - 1;
      var a1, a2, s := p1[..k], p2[..k], size[..k];
      InCubePrefix(p1, size);
      InCubePrefix(p2, size);
      var r1, r2 := RowMajor(a1, s), RowMajor(a2, s);
      var n := size[k];
      assert 0 <= p1[k] < n && 0 <= p2[k] < n;
      assert r1 * n + p1[k] == r2 * n + p2[k];
      if r1 < r2 {
        MulMonotone(r1 + 1, r2, n);
        assert false;
      } else if r2 < r1 {
        MulMonotone(r2 + 1, r1, n);
        assert false;
      }
      assert p1[k] == p2[k];
      RowMajorInjective(a1, a2, s);
      assert p1 == a1 + [p1[k]] && p2 == a2 + [p2[k]];
    }
  }
}
