/**
 * The range normaliser: one scan over a generated field that finds its
 * smallest and largest value and the span later used to normalise colours.
 * 3d.js and tfractal.js carry the same scan; it is modelled once here.
 */
module FieldRange {

  /** The value downstream division uses: max - min, or 1 when that is 0 (JavaScript's `(max - min) || 1`). */
  function Span(min: int, max: int): (range: int)
    requires min <= max
    ensures range >= 1
    ensures min < max ==> range == max - min
    ensures min == max ==> range == 1
  {
    if max - min != 0 then max - min else 1
  }

  /**
   * Scans every cell once, x outer and y inner, keeping running minimum and
   * maximum. The source starts them at +Infinity / -Infinity; here they start
   * at the first cell, which the first comparison would store anyway.
   */
  method ScanRange(a: array2<int>) returns (min: int, max: int, range: int)
    requires a.Length0 >= 1 && a.Length1 >= 1
    ensures forall x, y :: 0 <= x < a.Length0 && 0 <= y < a.Length1 ==> min <= a[x, y] <= max
    ensures exists x, y :: 0 <= x < a.Length0 && 0 <= y < a.Length1 && a[x, y] == min
    ensures exists x, y :: 0 <= x < a.Length0 && 0 <= y < a.Length1 && a[x, y] == max
    ensures range >= 1 && (min == max ==> range == 1) && (min < max ==> range == max - min)
  {
    min, max := a[0, 0], a[0, 0];
    ghost var minX, minY, maxX, maxY := 0, 0, 0, 0;
    for x := 0 to a.Length0
      invariant forall x', y :: 0 <= x' < x && 0 <= y < a.Length1 ==> min <= a[x', y] <= max
      invariant 0 <= minX < a.Length0 && 0 <= minY < a.Length1 && a[minX, minY] == min
      invariant 0 <= maxX < a.Length0 && 0 <= maxY < a.Length1 && a[maxX, maxY] == max
    {
      for y := 0 to a.Length1
        invariant forall x', y' :: 0 <= x' < x && 0 <= y' < a.Length1 ==> min <= a[x', y'] <= max
        invariant forall y' :: 0 <= y' < y ==> min <= a[x, y'] <= max
        invariant 0 <= minX < a.Length0 && 0 <= minY < a.Length1 && a[minX, minY] == min
        invariant 0 <= maxX < a.Length0 && 0 <= maxY < a.Length1 && a[maxX, maxY] == max
      {
        var v := a[x, y];
        if v < min {
          min := v;
          minX, minY := x, y;
        }
        if v > max {
          max := v;
          maxX, maxY := x, y;
        }
      }
    }
    range := Span(min, max);
  }
}
