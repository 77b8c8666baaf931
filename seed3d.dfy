/**
 * Seed construction for the 3D viewer (3d.js): the n-by-n-by-n cube
 * `s[x][y][z]`, here an `array3<int>`, its allocation, the ring seed and the
 * symmetric random seed.
 *
 * `Math.random` is an input. Each call of genLayer draws one bit per
 * canonical cell, in loop order; `draws[z]` holds the bits drawn for layer z
 * (a draw `Math.random() < 0.5` is `true`). The final draw that picks the
 * mirroring transform is the parameter `useRot180`.
 */
module Seed3D {
  import opened Grid
  import opened Orbit

  /** The seed is a cube of edge n. */
  predicate IsCube(s: array3<int>, n: nat) {
    s.Length0 == n && s.Length1 == n && s.Length2 == n
  }

  /** Every cell holds 0 or 1. */
  predicate IsBinary(s: array3<int>)
    reads s
  {
    forall x, y, z :: 0 <= x < s.Length0 && 0 <= y < s.Length1 && 0 <= z < s.Length2 ==>
      s[x, y, z] == 0 || s[x, y, z] == 1
  }

  /** A random draw as the cell value it produces: `Math.random() < 0.5 ? 1 : 0`. */
  function Bit(b: bool): (v: int)
    ensures v == 0 || v == 1
    ensures v == 1 <==> b
  {
    if b then 1 else 0
  }

  /** Allocates an n-by-n-by-n cube with every cell equal to `fill` (allocSeed3D). */
  method AllocSeed3D(n: nat, fill: int) returns (s: array3<int>)
    ensures fresh(s) && IsCube(s, n)
    ensures forall x, y, z :: 0 <= x < n && 0 <= y < n && 0 <= z < n ==> s[x, y, z] == fill
  {
    s := new int[n, n, n];
    for x := 0 to n
      invariant forall x', y, z :: 0 <= x' < x && 0 <= y < n && 0 <= z < n ==> s[x', y, z] == fill
    {
      for y := 0 to n
        invariant forall x', y', z :: 0 <= x' < x && 0 <= y' < n && 0 <= z < n ==> s[x', y', z] == fill
        invariant forall y', z :: 0 <= y' < y && 0 <= z < n ==> s[x, y', z] == fill
      {
        for z := 0 to n
          invariant forall x', y', z' :: 0 <= x' < x && 0 <= y' < n && 0 <= z' < n ==> s[x', y', z'] == fill
          invariant forall y', z' :: 0 <= y' < y && 0 <= z' < n ==> s[x, y', z'] == fill
          invariant forall z' :: 0 <= z' < z ==> s[x, y, z'] == fill
        {
          s[x, y, z] := fill;
        }
      }
    }
  }

  /**
   * The ring seed (makeRingSeed3D): 1 exactly on the XY border, 0 inside,
   * and the same in every Z layer.
   */
  method MakeRingSeed3D(n: nat) returns (s: array3<int>)
    ensures fresh(s) && IsCube(s, n) && IsBinary(s)
    ensures forall x, y, z :: 0 <= x < n && 0 <= y < n && 0 <= z < n ==>
      (s[x, y, z] == 1 <==> OnBorder(n, x, y))
    ensures forall x, y, z, z' :: 0 <= x < n && 0 <= y < n && 0 <= z < n && 0 <= z' < n ==>
      s[x, y, z] == s[x, y, z']
  {
    s := AllocSeed3D(n, 0);
    for x := 0 to n
      invariant forall x', y, z :: 0 <= x' < n && 0 <= y < n && 0 <= z < n ==>
        s[x', y, z] == if x' < x && OnBorder(n, x', y) then 1 else 0
    {
      for y := 0 to n
        invariant forall x', y', z :: 0 <= x' < n && 0 <= y' < n && 0 <= z < n ==>
          s[x', y', z] == if (x' < x || (x' == x && y' < y)) && OnBorder(n, x', y') then 1 else 0
      {
        var v := if x == 0 || y == 0 || x == n - 1 || y == n - 1 then 1 else 0;
        for z := 0 to n
          invariant forall x', y', z' :: 0 <= x' < n && 0 <= y' < n && 0 <= z' < n ==>
            s[x', y', z'] ==
              if (x' < x || (x' == x && (y' < y || (y' == y && z' < z)))) && OnBorder(n, x', y') then 1 else 0
        {
          s[x, y, z] := v;
        }
      }
    }
  }

  /** genLayer's four writes for canonical cell (i, j) of layer z (3d.js:77-80). */
  method WriteOrbit(s: array3<int>, i: nat, j: nat, z: nat, v: int)
    requires IsCube(s, s.Length0) && i < s.Length0 && j < s.Length0 && z < s.Length0
    modifies s
    ensures forall x, y, z' :: 0 <= x < s.Length0 && 0 <= y < s.Length0 && 0 <= z' < s.Length0 ==>
      s[x, y, z'] == if z' == z && InOrbit(s.Length0, i, j, x, y) then v else old(s[x, y, z'])
  {
    var n := s.Length0;
    s[i, j, z] := v;
    s[j, i, z] := v;
    s[n - 1 - i, n - 1 - j, z] := v;
    s[n - 1 - j, n - 1 - i, z] := v;
  }

  /**
   * The value genLayer leaves at (x, y): the bit drawn at the canonical
   * representative of the cell's orbit.
   */
  function LayerBit(n: nat, layer: seq<bool>, x: nat, y: nat): (v: int)
    requires x < n && y < n && |layer| == CanonCount(n)
    ensures v == 0 || v == 1
  {
    var c := Canon(n, x, y);
    RankInRange(n, c.0, c.1);
    Bit(layer[Rank(n, c.0, c.1)])
  }

  /** The canonical cell (i, j) of layer z has been visited once the loop is past it. */
  predicate Visited(c: (nat, nat), i: nat, j: nat) {
    c.0 < i || (c.0 == i && c.1 < j)
  }

  /**
   * genLayer(z): visits every cell (i, j) in row-major order and, for each
   * canonical one, draws the next bit and writes it to the cell's orbit. The
   * whole layer ends up determined by the draws; no other layer changes.
   */
  method GenLayer(s: array3<int>, z: nat, layer: seq<bool>)
    requires IsCube(s, s.Length0) && z < s.Length0
    requires |layer| == CanonCount(s.Length0)
    modifies s
    ensures forall x, y, z' :: 0 <= x < s.Length0 && 0 <= y < s.Length0 && 0 <= z' < s.Length0 ==>
      s[x, y, z'] == if z' == z then LayerBit(s.Length0, layer, x, y) else old(s[x, y, z'])
  {
    var n := s.Length0;
    var k := 0;  // bits drawn so far
    for i := 0 to n
      invariant k == RowsBefore(n, i)
      invariant forall x, y, z' :: 0 <= x < n && 0 <= y < n && 0 <= z' < n ==>
        s[x, y, z'] == if z' == z && Visited(Canon(n, x, y), i, 0) then LayerBit(n, layer, x, y) else old(s[x, y, z'])
    {
      for j := 0 to n
        invariant k == RowsBefore(n, i) + DrawnInRow(n, i, j)
        invariant forall x, y, z' :: 0 <= x < n && 0 <= y < n && 0 <= z' < n ==>
          s[x, y, z'] == if z' == z && Visited(Canon(n, x, y), i, j) then LayerBit(n, layer, x, y) else old(s[x, y, z'])
      {
        if i <= j && i + j <= n - 1 {
          RankInRange(n, i, j);
          var v := Bit(layer[k]);
          forall x, y | 0 <= x < n && 0 <= y < n && InOrbit(n, i, j, x, y)
            ensures Canon(n, x, y) == (i, j)
          {
            CanonOfOrbit(n, i, j, x, y);
          }
          WriteOrbit(s, i, j, z, v);
          k := k + 1;
        }
      }
    }
  }

  /**
   * One pass of the Z-mirror loop: layer z2 = n-1-z becomes a copy of layer
   * z, either cell for cell or, when `useRot180` is set, read through
   * (x, y) -> s[y][n-1-x][z] (a quarter turn, whatever the flag's name says).
   */
  method MirrorLayer(s: array3<int>, z: nat, useRot180: bool)
    requires IsCube(s, s.Length0) && z < s.Length0 / 2
    modifies s
    ensures forall x, y, z' :: 0 <= x < s.Length0 && 0 <= y < s.Length0 && 0 <= z' < s.Length0 ==>
      s[x, y, z'] ==
        if z' == s.Length0 - 1 - z then
          (if useRot180 then old(s[y, s.Length0 - 1 - x, z]) else old(s[x, y, z]))
        else old(s[x, y, z'])
  {
    var n := s.Length0;
    var z2 := n - 1 - z;
    for x := 0 to n
      invariant forall x', y, z' :: 0 <= x' < n && 0 <= y < n && 0 <= z' < n ==>
        s[x', y, z'] ==
          if z' == z2 && x' < x then
            (if useRot180 then old(s[y, n - 1 - x', z]) else old(s[x', y, z]))
          else old(s[x', y, z'])
    {
      for y := 0 to n
        invariant forall x', y', z' :: 0 <= x' < n && 0 <= y' < n && 0 <= z' < n ==>
          s[x', y', z'] ==
            if z' == z2 && (x' < x || (x' == x && y' < y)) then
              (if useRot180 then old(s[y', n - 1 - x', z]) else old(s[x', y', z]))
            else old(s[x', y', z'])
      {
        s[x, y, z2] := if useRot180 then s[y, n - 1 - x, z] else s[x, y, z];
      }
    }
  }

  /** The number of layers genLayer fills: ceil(n / 2). */
  function GenCount(n: nat): (g: nat)
    ensures 2 * g == n || 2 * g == n + 1
  {
    var half := n / 2;
    if n % 2 == 0 then half else half + 1
  }

  /** One bit sequence per generated layer, one bit per canonical cell. */
  predicate DrawsFit(n: nat, draws: seq<seq<bool>>) {
    |draws| == GenCount(n) && forall k :: 0 <= k < |draws| ==> |draws[k]| == CanonCount(n)
  }

  /**
   * The cell value makeRandomSeed3D produces: layers below GenCount(n) hold
   * their own draws; every other layer z is layer n-1-z copied through the
   * mirroring transform.
   */
  function RandomCell(n: nat, draws: seq<seq<bool>>, useRot180: bool, x: nat, y: nat, z: nat): (v: int)
    requires DrawsFit(n, draws) && x < n && y < n && z < n
    ensures v == 0 || v == 1
  {
    if z < GenCount(n) then LayerBit(n, draws[z], x, y)
    else if useRot180 then LayerBit(n, draws[n - 1 - z], y, n - 1 - x)
    else LayerBit(n, draws[n - 1 - z], x, y)
  }

  /**
   * makeRandomSeed3D: fill layers 0 .. GenCount(n)-1 with genLayer, then
   * mirror each layer z < n/2 into layer n-1-z.
   */
  method MakeRandomSeed3D(n: nat, draws: seq<seq<bool>>, useRot180: bool) returns (s: array3<int>)
    requires DrawsFit(n, draws)
    ensures fresh(s) && IsCube(s, n) && IsBinary(s)
    ensures forall x, y, z :: 0 <= x < n && 0 <= y < n && 0 <= z < n ==>
      s[x, y, z] == RandomCell(n, draws, useRot180, x, y, z)
    ensures forall x, y, z :: 0 <= x < n && 0 <= y < n && 0 <= z < n ==>
      s[x, y, z] == s[y, x, z] && s[x, y, z] == s[n - 1 - x, n - 1 - y, z] && s[x, y, z] == s[n - 1 - y, n - 1 - x, z]
  {
    s := AllocSeed3D(n, 0);
    var half := n / 2;
    var genCount := if n % 2 == 0 then half else half + 1;
    for z := 0 to genCount
      invariant forall x, y, z' :: 0 <= x < n && 0 <= y < n && 0 <= z' < z ==>
        s[x, y, z'] == LayerBit(n, draws[z'], x, y)
    {
      GenLayer(s, z, draws[z]);
    }
    for z := 0 to half
      invariant forall x, y, z' :: 0 <= x < n && 0 <= y < n && 0 <= z' < genCount ==>
        s[x, y, z'] == LayerBit(n, draws[z'], x, y)
      invariant forall x, y, z' :: 0 <= x < n && 0 <= y < n && n - z <= z' < n ==>
        s[x, y, z'] == RandomCell(n, draws, useRot180, x, y, z')
    {
      MirrorLayer(s, z, useRot180);
    }
    forall x, y, z | 0 <= x < n && 0 <= y < n && 0 <= z < n
      ensures s[x, y, z] == s[y, x, z] && s[x, y, z] == s[n - 1 - x, n - 1 - y, z] && s[x, y, z] == s[n - 1 - y, n - 1 - x, z]
    {
      RandomSeedSymmetric(n, draws, useRot180, x, y, z);
    }
  }

  /**
   * After genLayer, the layer is invariant under the four in-plane maps:
   * s[x][y] = s[y][x] = s[n-1-x][n-1-y] = s[n-1-y][n-1-x].
   */
  lemma {:induction false} LayerSymmetric(n: nat, layer: seq<bool>, x: nat, y: nat)
    requires x < n && y < n && |layer| == CanonCount(n)
    ensures LayerBit(n, layer, y, x) == LayerBit(n, layer, x, y)
    ensures LayerBit(n, layer, n - 1 - x, n - 1 - y) == LayerBit(n, layer, x, y)
    ensures LayerBit(n, layer, n - 1 - y, n - 1 - x) == LayerBit(n, layer, x, y)
  {
    CanonSymmetric(n, x, y);
  }

  /**
   * Each canonical cell of a generated layer holds its own draw, and by
   * RankInjective no two canonical cells share one: the layer is determined
   * by the draws over the canonical triangle and by nothing else.
   */
  lemma {:induction false} CanonicalCellHoldsItsDraw(n: nat, draws: seq<seq<bool>>, useRot180: bool, i: nat, j: nat, z: nat)
    requires DrawsFit(n, draws) && i < n && j < n && z < GenCount(n)
    requires Canonical(n, i, j)
    ensures Rank(n, i, j) < CanonCount(n)
    ensures RandomCell(n, draws, useRot180, i, j, z) == Bit(draws[z][Rank(n, i, j)])
  {
    RankInRange(n, i, j);
    CanonOfOrbit(n, i, j, i, j);
  }

  /**
   * The mirror loop only writes layers it never reads: for z < n/2 the
   * target n-1-z is at least GenCount(n), while every layer it reads is
   * below n/2 <= GenCount(n). Afterwards layer n-1-z is layer z, copied
   * plainly or through (x, y) -> (y, n-1-x).
   */
  lemma MirroredLayer(n: nat, draws: seq<seq<bool>>, useRot180: bool, x: nat, y: nat, z: nat)
    requires DrawsFit(n, draws) && x < n && y < n && z < n / 2
    ensures z < n / 2 <= GenCount(n) <= n - 1 - z
    ensures RandomCell(n, draws, useRot180, x, y, n - 1 - z) ==
      if useRot180 then RandomCell(n, draws, useRot180, y, n - 1 - x, z)
      else RandomCell(n, draws, useRot180, x, y, z)
  {
  }

  /**
   * Every layer of the random seed, generated or mirrored, has the same
   * four-fold in-plane symmetry: the quarter turn used by the mirror maps
   * the symmetry group onto itself.
   */
  lemma {:induction false} RandomSeedSymmetric(n: nat, draws: seq<seq<bool>>, useRot180: bool, x: nat, y: nat, z: nat)
    requires DrawsFit(n, draws) && x < n && y < n && z < n
    ensures RandomCell(n, draws, useRot180, y, x, z) == RandomCell(n, draws, useRot180, x, y, z)
    ensures RandomCell(n, draws, useRot180, n - 1 - x, n - 1 - y, z) == RandomCell(n, draws, useRot180, x, y, z)
    ensures RandomCell(n, draws, useRot180, n - 1 - y, n - 1 - x, z) == RandomCell(n, draws, useRot180, x, y, z)
  {
    if z < GenCount(n) {
      LayerSymmetric(n, draws[z], x, y);
    } else if useRot180 {
      LayerSymmetric(n, draws[n - 1 - z], y, n - 1 - x);
    } else {
      LayerSymmetric(n, draws[n - 1 - z], x, y);
    }
  }
}
