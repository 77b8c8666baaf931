/**
 * The 3D viewer's state and field generator (3d.js): the global settings,
 * the live seed cube, the seed editing operations that are not UI, and
 * computeSlice2D, which sums the toroidally tiled seed over all levels for
 * one Z slice and scans the result for its range.
 */
module Viewer3D {
  import opened Grid
  import opened Seed3D
  import FieldRange

  /**
   * The level-i contribution to slice cell (x, y) of Z slice z: the seed
   * cell at (x, y, z) scaled down by 2^i and wrapped onto the seed torus.
   */
  function SeedTerm(s: array3<int>, i: nat, x: nat, y: nat, z: nat): int
    reads s
    requires IsCube(s, s.Length0) && s.Length0 >= 1
  {
    var n, step := s.Length0, Pow2(i);
    s[(x / step) % n, (y / step) % n, (z / step) % n]
  }

  /** The sum of the first k levels' contributions at (x, y, z). */
  function SliceSum(s: array3<int>, k: nat, x: nat, y: nat, z: nat): int
    reads s
    requires IsCube(s, s.Length0) && s.Length0 >= 1
  {
    if k == 0 then 0 else SliceSum(s, k - 1, x, y, z) + SeedTerm(s, k - 1, x, y, z)
  }

  /** With a 0/1 seed, k levels add up to a value in [0, k]. */
  lemma {:induction false} SliceSumBounds(s: array3<int>, k: nat, x: nat, y: nat, z: nat)
    requires IsCube(s, s.Length0) && s.Length0 >= 1 && IsBinary(s)
    ensures 0 <= SliceSum(s, k, x, y, z) <= k
  {
    if k > 0 {
      SliceSumBounds(s, k - 1, x, y, z);
    }
  }

  /**
   * The self-similarity of the field: one level more, read at a point whose
   * coordinates halve to (x, y, z), is the finest tile there plus the
   * coarser field at (x, y, z).
   */
  lemma {:induction false} SliceSelfSimilar(s: array3<int>, k: nat, x: nat, y: nat, z: nat, a: nat, b: nat, c: nat)
    requires IsCube(s, s.Length0) && s.Length0 >= 1
    requires a < 2 && b < 2 && c < 2
    ensures SliceSum(s, k + 1, 2 * x + a, 2 * y + b, 2 * z + c) ==
      SeedTerm(s, 0, 2 * x + a, 2 * y + b, 2 * z + c) + SliceSum(s, k, x, y, z)
  {
    if k > 0 {
      SliceSelfSimilar(s, k - 1, x, y, z, a, b, c);
      var p := Pow2(k - 1);
      DivDouble(x, a, p);
      DivDouble(y, b, p);
      DivDouble(z, c, p);
      assert SeedTerm(s, k, 2 * x + a, 2 * y + b, 2 * z + c) == SeedTerm(s, k - 1, x, y, z);
    }
  }

  /** `old[x][y][z] ? 1 : 0`: any non-zero cell is copied as 1. */
  function Truthy(v: int): (r: int)
    ensures r == 0 || r == 1
    ensures r == 0 <==> v == 0
  {
    if v != 0 then 1 else 0
  }

  /** The 3d.js globals the core reads and writes. */
  class Viewer {
    var iterations: nat
    var sizexy: nat
    var seed3d: array3?<int>
    var seedSize: nat

    /**
     * sizexy = 1 << iterations, and a live seed is a 0/1 cube of edge
     * seedSize (every operation that installs or edits a seed keeps it 0/1).
     */
    ghost predicate Valid()
      reads this, seed3d
    {
      sizexy == Pow2(iterations) && (seed3d != null ==> IsCube(seed3d, seedSize) && IsBinary(seed3d))
    }

    /** The initial globals: 8 iterations, no seed yet, seed edge 4. */
    constructor ()
      ensures Valid() && iterations == 8 && seed3d == null && seedSize == 4
    {
      iterations := 8;
      sizexy := Pow2(8);
      seed3d := null;
      seedSize := 4;
    }

    /** wipeSeed: every cell of the live cube becomes 0, in place; its size is unchanged. */
    method WipeSeed()
      requires Valid() && seed3d != null
      modifies seed3d
      ensures Valid()
      ensures forall x, y, z :: 0 <= x < seedSize && 0 <= y < seedSize && 0 <= z < seedSize ==>
        seed3d[x, y, z] == 0
    {
      var s := seed3d;
      var n := s.Length0;
      for x := 0 to n
        invariant forall x', y, z :: 0 <= x' < x && 0 <= y < n && 0 <= z < n ==> s[x', y, z] == 0
      {
        for y := 0 to n
          invariant forall x', y', z :: 0 <= x' < x && 0 <= y' < n && 0 <= z < n ==> s[x', y', z] == 0
          invariant forall y', z :: 0 <= y' < y && 0 <= z < n ==> s[x, y', z] == 0
        {
          for z := 0 to n
            invariant forall x', y', z' :: 0 <= x' < x && 0 <= y' < n && 0 <= z' < n ==> s[x', y', z'] == 0
            invariant forall y', z' :: 0 <= y' < y && 0 <= z' < n ==> s[x, y', z'] == 0
            invariant forall z' :: 0 <= z' < z ==> s[x, y, z'] == 0
          {
            s[x, y, z] := 0;
          }
        }
      }
    }

    /**
     * resizeSeedFromUI without the input read: a new n-cube replaces the
     * seed; the overlap [0, min(old, n)) on every axis keeps the old content
     * (as 0/1), every other cell is 0, and with no old seed all cells are 0.
     */
    method ResizeSeed(n: nat)
      requires Valid()
      modifies this
      ensures Valid() && seedSize == n && seed3d != null && fresh(seed3d)
      ensures iterations == old(iterations) && sizexy == old(sizexy)
      ensures old(seed3d) == null ==>
        forall x, y, z :: 0 <= x < n && 0 <= y < n && 0 <= z < n ==> seed3d[x, y, z] == 0
      ensures old(seed3d) != null ==>
        forall x, y, z :: 0 <= x < n && 0 <= y < n && 0 <= z < n ==>
          seed3d[x, y, z] ==
            if x < old(seedSize) && y < old(seedSize) && z < old(seedSize) then Truthy(old(seed3d[x, y, z])) else 0
    {
      var prev := seed3d;
      var s := AllocSeed3D(n, 0);
      if prev != null {
        var m := if prev.Length0 < n then prev.Length0 else n;
        for x := 0 to m
          modifies s
          invariant forall x', y, z :: 0 <= x' < n && 0 <= y < n && 0 <= z < n ==>
            s[x', y, z] == if x' < x && y < m && z < m then Truthy(prev[x', y, z]) else 0
        {
          for y := 0 to m
            invariant forall x', y', z :: 0 <= x' < n && 0 <= y' < n && 0 <= z < n ==>
              s[x', y', z] == if (x' < x || (x' == x && y' < y)) && y' < m && z < m then Truthy(prev[x', y', z]) else 0
          {
            for z := 0 to m
              invariant forall x', y', z' :: 0 <= x' < n && 0 <= y' < n && 0 <= z' < n ==>
                s[x', y', z'] ==
                  if (x' < x || (x' == x && (y' < y || (y' == y && z' < z)))) && y' < m && z' < m
                  then Truthy(prev[x', y', z']) else 0
            {
              s[x, y, z] := if prev[x, y, z] != 0 then 1 else 0;
            }
          }
        }
      }
      seedSize, seed3d := n, s;
    }

    /** setRingSeed without the redraw: the live seed becomes the ring seed of edge seedSize. */
    method SetRingSeed()
      requires Valid()
      modifies this
      ensures Valid() && seed3d != null && fresh(seed3d) && IsBinary(seed3d)
      ensures seedSize == old(seedSize) && iterations == old(iterations)
      ensures forall x, y, z :: 0 <= x < seedSize && 0 <= y < seedSize && 0 <= z < seedSize ==>
        (seed3d[x, y, z] == 1 <==> OnBorder(seedSize, x, y))
    {
      seed3d := MakeRingSeed3D(seedSize);
    }

    /** randomizeSeed without the redraw: the live seed becomes a symmetric random seed of edge seedSize. */
    method RandomizeSeed(draws: seq<seq<bool>>, useRot180: bool)
      requires Valid() && DrawsFit(seedSize, draws)
      modifies this
      ensures Valid() && seed3d != null && fresh(seed3d) && IsBinary(seed3d)
      ensures seedSize == old(seedSize) && iterations == old(iterations)
      ensures forall x, y, z :: 0 <= x < seedSize && 0 <= y < seedSize && 0 <= z < seedSize ==>
        seed3d[x, y, z] == RandomCell(seedSize, draws, useRot180, x, y, z)
    {
      seed3d := MakeRandomSeed3D(seedSize, draws, useRot180);
    }

    /**
     * computeSlice2D(zSlice): the slice of Z slice zSlice (see SumSlice) with
     * its minimum, maximum (both attained) and range.
     */
    method ComputeSlice2D(zSlice: nat) returns (slice: array2<int>, min: int, max: int, range: int)
      requires Valid() && seed3d != null && seedSize >= 1
      ensures fresh(slice) && slice.Length0 == sizexy && slice.Length1 == sizexy
      ensures forall x, y :: 0 <= x < sizexy && 0 <= y < sizexy ==>
        slice[x, y] == SliceSum(seed3d, Levels(iterations), x, y, zSlice)
      ensures forall x, y :: 0 <= x < sizexy && 0 <= y < sizexy ==> min <= slice[x, y] <= max
      ensures exists x, y :: 0 <= x < sizexy && 0 <= y < sizexy && slice[x, y] == min
      ensures exists x, y :: 0 <= x < sizexy && 0 <= y < sizexy && slice[x, y] == max
      ensures range >= 1 && (min == max ==> range == 1) && (min < max ==> range == max - min)
      ensures 0 <= min && max <= Levels(iterations)
    {
      slice := SumSlice(seed3d, Levels(iterations), sizexy, zSlice);
      min, max, range := FieldRange.ScanRange(slice);
      ghost var minX, minY :| 0 <= minX < sizexy && 0 <= minY < sizexy && slice[minX, minY] == min;
      ghost var maxX, maxY :| 0 <= maxX < sizexy && 0 <= maxY < sizexy && slice[maxX, maxY] == max;
      SliceSumBounds(seed3d, Levels(iterations), minX, minY, zSlice);
      SliceSumBounds(seed3d, Levels(iterations), maxX, maxY, zSlice);
    }
  }

  /**
   * The summation part of computeSlice2D: a zero-filled size-square slice
   * to which each level i < levels adds, at every (x, y), the seed cell
   * [(x / 2^i) % n][(y / 2^i) % n][(zSlice / 2^i) % n].
   */
  method SumSlice(s: array3<int>, levels: nat, size: nat, zSlice: nat) returns (slice: array2<int>)
    requires IsCube(s, s.Length0) && s.Length0 >= 1
    ensures fresh(slice) && slice.Length0 == size && slice.Length1 == size
    ensures forall x, y :: 0 <= x < size && 0 <= y < size ==> slice[x, y] == SliceSum(s, levels, x, y, zSlice)
  {
    var n := s.Length0;
    slice := new int[size, size]((x, y) => 0);
    for i := 0 to levels
      invariant forall x, y :: 0 <= x < size && 0 <= y < size ==> slice[x, y] == SliceSum(s, i, x, y, zSlice)
    {
      var step := Pow2(i);
      var pz := (zSlice / step) % n;
      for x := 0 to size
        invariant forall x', y :: 0 <= x' < size && 0 <= y < size ==>
          slice[x', y] == SliceSum(s, if x' < x then i + 1 else i, x', y, zSlice)
      {
        var px := (x / step) % n;
        for y := 0 to size
          invariant forall x', y' :: 0 <= x' < size && 0 <= y' < size ==>
            slice[x', y'] == SliceSum(s, if x' < x || (x' == x && y' < y) then i + 1 else i, x', y', zSlice)
        {
          var py := (y / step) % n;
          slice[x, y] := slice[x, y] + s[px, py, pz];
        }
      }
    }
  }

  /**
   * A client of the contracts above: a 3-cube of ones resized to 2 and then
   * to 5 keeps ones exactly in its 2-by-2-by-2 corner and is 0 elsewhere.
   */
  method ResizeScenario() {
    var v := new Viewer();
    var ones := AllocSeed3D(3, 1);
    v.seed3d, v.seedSize := ones, 3;
    v.ResizeSeed(2);
    v.ResizeSeed(5);
    assert v.seedSize == 5;
    assert forall x, y, z :: 0 <= x < 5 && 0 <= y < 5 && 0 <= z < 5 ==>
      v.seed3d[x, y, z] == if x < 2 && y < 2 && z < 2 then 1 else 0;
  }
}
