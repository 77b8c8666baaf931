/**
 * The 2D generator (tfractal.js): a fixed iteration count of 10, a square
 * 0/1 seed pattern (the 4-by-4 ring literal until the user applies another),
 * and `init`, which sums the toroidally tiled pattern over all levels into
 * the global field `array` and scans it for min, max and range.
 */
module TFractal {
  import opened Grid
  import FieldRange

  const ITERATIONS: nat := 10
  const SIZE_XY: nat := Pow2(ITERATIONS)

  /** The seed literal the page starts with. */
  const LITERAL_SEED: seq<seq<int>> := [
    [1, 1, 1, 1],
    [1, 0, 0, 1],
    [1, 0, 0, 1],
    [1, 1, 1, 1]
  ]

  /** A non-empty L-by-L pattern. */
  predicate IsSquare(p: seq<seq<int>>) {
    |p| >= 1 && forall r :: 0 <= r < |p| ==> |p[r]| == |p|
  }

  /** Every cell of the pattern holds 0 or 1. */
  predicate IsBinaryPattern(p: seq<seq<int>>) {
    forall r, c :: 0 <= r < |p| && 0 <= c < |p[r]| ==> p[r][c] == 0 || p[r][c] == 1
  }

  /** A seed checkbox as the cell value it stands for: `cellBox.checked ? 1 : 0`. */
  function BoxValue(checked: bool): (v: int)
    ensures v == 0 || v == 1
    ensures v == 1 <==> checked
  {
    if checked then 1 else 0
  }

  /** The level-i contribution at (x, y): pattern[(x / 2^i) % L][(y / 2^i) % L]. */
  function PatternTerm(p: seq<seq<int>>, i: nat, x: nat, y: nat): int
    requires IsSquare(p)
  {
    var len, step := |p|, Pow2(i);
    p[(x / step) % len][(y / step) % len]
  }

  /** The sum of the first k levels' contributions at (x, y). */
  function PatternSum(p: seq<seq<int>>, k: nat, x: nat, y: nat): int
    requires IsSquare(p)
  {
    if k == 0 then 0 else PatternSum(p, k - 1, x, y) + PatternTerm(p, k - 1, x, y)
  }

  /** With a 0/1 pattern, k levels add up to a value in [0, k]. */
  lemma {:induction false} PatternSumBounds(p: seq<seq<int>>, k: nat, x: nat, y: nat)
    requires IsSquare(p) && IsBinaryPattern(p)
    ensures 0 <= PatternSum(p, k, x, y) <= k
  {
    if k > 0 {
      PatternSumBounds(p, k - 1, x, y);
    }
  }

  /**
   * The self-similarity of the field: one level more at (2x + a, 2y + b) is
   * the finest tile there plus the coarser field at (x, y).
   */
  lemma {:induction false} PatternSelfSimilar(p: seq<seq<int>>, k: nat, x: nat, y: nat, a: nat, b: nat)
    requires IsSquare(p) && a < 2 && b < 2
    ensures PatternSum(p, k + 1, 2 * x + a, 2 * y + b) ==
      p[(2 * x + a) % |p|][(2 * y + b) % |p|] + PatternSum(p, k, x, y)
  {
    if k > 0 {
      PatternSelfSimilar(p, k - 1, x, y, a, b);
      var step := Pow2(k - 1);
      DivDouble(x, a, step);
      DivDouble(y, b, step);
      assert PatternTerm(p, k, 2 * x + a, 2 * y + b) == PatternTerm(p, k - 1, x, y);
    }
  }

  /** The literal is the 4-by-4 ring: a cell is 1 exactly on the border, the rule makeRingSeed3D uses. */
  lemma LiteralSeedIsRing()
    ensures IsSquare(LITERAL_SEED) && |LITERAL_SEED| == 4 && IsBinaryPattern(LITERAL_SEED)
    ensures forall r, c :: 0 <= r < 4 && 0 <= c < 4 ==> (LITERAL_SEED[r][c] == 1 <==> OnBorder(4, r, c))
  {
  }

  /** For the literal seed, with ITERATIONS = 10, every field cell lies in [0, 9]. */
  lemma LiteralFieldInRange(x: nat, y: nat)
    ensures IsSquare(LITERAL_SEED)
    ensures 0 <= PatternSum(LITERAL_SEED, Levels(ITERATIONS), x, y) <= 9
  {
    LiteralSeedIsRing();
    PatternSumBounds(LITERAL_SEED, Levels(ITERATIONS), x, y);
  }

  /** The allocation loop of init: a size-square field, every cell 0. */
  method ZeroField(size: nat) returns (a: array2<int>)
    ensures fresh(a) && a.Length0 == size && a.Length1 == size
    ensures forall x, y :: 0 <= x < size && 0 <= y < size ==> a[x, y] == 0
  {
    a := new int[size, size];
    for x := 0 to size
      invariant forall x', y :: 0 <= x' < x && 0 <= y < size ==> a[x', y] == 0
    {
      for y := 0 to size
        invariant forall x', y' :: 0 <= x' < x && 0 <= y' < size ==> a[x', y'] == 0
        invariant forall y' :: 0 <= y' < y ==> a[x, y'] == 0
      {
        a[x, y] := 0;
      }
    }
  }

  /**
   * The level loop of init: starting from a zero field, level i < levels
   * adds pattern[(x / 2^i) % L][(y / 2^i) % L] to every cell (x, y).
   */
  method AddLevels(a: array2<int>, pattern: seq<seq<int>>, levels: nat)
    requires IsSquare(pattern)
    requires forall x, y :: 0 <= x < a.Length0 && 0 <= y < a.Length1 ==> a[x, y] == 0
    modifies a
    ensures forall x, y :: 0 <= x < a.Length0 && 0 <= y < a.Length1 ==> a[x, y] == PatternSum(pattern, levels, x, y)
  {
    for i := 0 to levels
      invariant forall x, y :: 0 <= x < a.Length0 && 0 <= y < a.Length1 ==> a[x, y] == PatternSum(pattern, i, x, y)
    {
      var patternLength := |pattern|;
      var step := Pow2(i);
      for x := 0 to a.Length0
        invariant forall x', y :: 0 <= x' < a.Length0 && 0 <= y < a.Length1 ==>
          a[x', y] == PatternSum(pattern, if x' < x then i + 1 else i, x', y)
      {
        for y := 0 to a.Length1
          invariant forall x', y' :: 0 <= x' < a.Length0 && 0 <= y' < a.Length1 ==>
            a[x', y'] == PatternSum(pattern, if x' < x || (x' == x && y' < y) then i + 1 else i, x', y')
        {
          var px := (x / step) % patternLength;
          var py := (y / step) % patternLength;
          a[x, y] := a[x, y] + pattern[px][py];
        }
      }
    }
  }

  /** The tfractal.js globals the generator writes. */
  class Fractal {
    var field: array2<int>  // the global `array`
    var seed: seq<seq<int>>
    var min: int
    var max: int
    var range: int

    /** The page's initial state: the ring literal as seed, no field yet. */
    constructor ()
      ensures seed == LITERAL_SEED && field.Length0 == 0
    {
      seed := LITERAL_SEED;
      field := new int[0, 0];
      min, max, range := 0, 0, 0;
    }

    /**
     * init without the redraw: the field cell (x, y) is the sum over the
     * ITERATIONS - 1 levels of seed[(x / 2^i) % L][(y / 2^i) % L]; min and
     * max bound every cell and are attained; range is max - min, or 1.
     */
    method Init()
      requires IsSquare(seed)
      modifies this
      ensures seed == old(seed)
      ensures fresh(field) && field.Length0 == SIZE_XY && field.Length1 == SIZE_XY
      ensures forall x, y :: 0 <= x < SIZE_XY && 0 <= y < SIZE_XY ==>
        field[x, y] == PatternSum(seed, Levels(ITERATIONS), x, y)
      ensures forall x, y :: 0 <= x < SIZE_XY && 0 <= y < SIZE_XY ==> min <= field[x, y] <= max
      ensures exists x, y :: 0 <= x < SIZE_XY && 0 <= y < SIZE_XY && field[x, y] == min
      ensures exists x, y :: 0 <= x < SIZE_XY && 0 <= y < SIZE_XY && field[x, y] == max
      ensures range >= 1 && (min == max ==> range == 1) && (min < max ==> range == max - min)
      ensures IsBinaryPattern(seed) ==> 0 <= min && max <= ITERATIONS - 1
    {
      var a := ZeroField(SIZE_XY);
      AddLevels(a, seed, Levels(ITERATIONS));
      var lo, hi, span := FieldRange.ScanRange(a);
      if IsBinaryPattern(seed) {
        ghost var minX, minY :| 0 <= minX < SIZE_XY && 0 <= minY < SIZE_XY && a[minX, minY] == lo;
        ghost var maxX, maxY :| 0 <= maxX < SIZE_XY && 0 <= maxY < SIZE_XY && a[maxX, maxY] == hi;
        PatternSumBounds(seed, Levels(ITERATIONS), minX, minY);
        PatternSumBounds(seed, Levels(ITERATIONS), maxX, maxY);
      }
      field, min, max, range := a, lo, hi, span;
    }

    /**
     * applySeed, given the checkbox states it reads: the seed becomes the
     * 0/1 grid of the checked boxes and the field is regenerated from it.
     */
    method ApplySeed(checked: seq<seq<bool>>)
      requires |checked| >= 1 && forall r :: 0 <= r < |checked| ==> |checked[r]| == |checked|
      modifies this
      ensures IsSquare(seed) && IsBinaryPattern(seed) && |seed| == |checked|
      ensures forall r, c :: 0 <= r < |seed| && 0 <= c < |seed| ==> (seed[r][c] == 1 <==> checked[r][c])
      ensures fresh(field) && field.Length0 == SIZE_XY && field.Length1 == SIZE_XY
      ensures forall x, y :: 0 <= x < SIZE_XY && 0 <= y < SIZE_XY ==>
        field[x, y] == PatternSum(seed, Levels(ITERATIONS), x, y)
      ensures forall x, y :: 0 <= x < SIZE_XY && 0 <= y < SIZE_XY ==> min <= field[x, y] <= max
      ensures exists x, y :: 0 <= x < SIZE_XY && 0 <= y < SIZE_XY && field[x, y] == min
      ensures exists x, y :: 0 <= x < SIZE_XY && 0 <= y < SIZE_XY && field[x, y] == max
      ensures range >= 1 && (min == max ==> range == 1) && (min < max ==> range == max - min)
      ensures 0 <= min <= max <= ITERATIONS - 1
    {
      var size := |checked|;
      seed := seq(size, r requires 0 <= r < size => seq(size, c requires 0 <= c < size => BoxValue(checked[r][c])));
      Init();
    }
  }
}
