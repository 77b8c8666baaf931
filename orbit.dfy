/**
 * The in-plane symmetry that the random seed generator of 3d.js builds into
 * every generated layer. An n-by-n layer is acted on by four maps: the
 * identity, the main-diagonal reflection (i, j) -> (j, i), the half turn
 * (i, j) -> (n-1-i, n-1-j) and the anti-diagonal reflection
 * (i, j) -> (n-1-j, n-1-i). The generator draws one bit per cell of the
 * canonical triangle `i <= j && i + j <= n - 1` and writes it to the whole
 * orbit of that cell.
 */
module Orbit {

  /** A cell of the canonical triangle: the cells for which genLayer draws a bit. */
  predicate Canonical(n: nat, i: nat, j: nat) {
    i <= j && i + j <= n - 1
  }

  /** (x, y) is one of the four cells genLayer writes when it visits (i, j). */
  predicate InOrbit(n: nat, i: nat, j: nat, x: nat, y: nat) {
    (x == i && y == j) || (x == j && y == i)
    || (x == n - 1 - i && y == n - 1 - j) || (x == n - 1 - j && y == n - 1 - i)
  }

  /**
   * The canonical cell whose orbit contains (x, y): reflect across the main
   * diagonal into i <= j, then across the anti-diagonal into i + j <= n - 1.
   * Its ensures is the covering property: every cell of the layer lies in
   * the orbit of some canonical cell.
   */
  function Canon(n: nat, x: nat, y: nat): (c: (nat, nat))
    requires x < n && y < n
    ensures c.0 < n && c.1 < n
    ensures Canonical(n, c.0, c.1)
    ensures InOrbit(n, c.0, c.1, x, y)
  {
    var a, b := if x <= y then x else y, if x <= y then y else x;
    if a + b <= n - 1 then (a, b) else (n - 1 - b, n - 1 - a)
  }

  /**
   * A canonical cell is the representative of every cell of its orbit, so
   * the four writes genLayer makes for it land on cells that no other
   * canonical cell writes.
   */
  lemma CanonOfOrbit(n: nat, i: nat, j: nat, x: nat, y: nat)
    requires i < n && j < n && x < n && y < n
    requires Canonical(n, i, j) && InOrbit(n, i, j, x, y)
    ensures Canon(n, x, y) == (i, j)
  {
  }

  /** No two distinct canonical cells share a cell of their orbits. */
  lemma {:induction false} OrbitsDisjoint(n: nat, i1: nat, j1: nat, i2: nat, j2: nat, x: nat, y: nat)
    requires i1 < n && j1 < n && i2 < n && j2 < n && x < n && y < n
    requires Canonical(n, i1, j1) && Canonical(n, i2, j2)
    requires InOrbit(n, i1, j1, x, y) && InOrbit(n, i2, j2, x, y)
    ensures i1 == i2 && j1 == j2
  {
    CanonOfOrbit(n, i1, j1, x, y);
    CanonOfOrbit(n, i2, j2, x, y);
  }

  /** The four cells of one orbit have the same representative. */
  lemma {:induction false} CanonSymmetric(n: nat, x: nat, y: nat)
    requires x < n && y < n
    ensures Canon(n, y, x) == Canon(n, x, y)
    ensures Canon(n, n - 1 - x, n - 1 - y) == Canon(n, x, y)
    ensures Canon(n, n - 1 - y, n - 1 - x) == Canon(n, x, y)
  {
    var c := Canon(n, x, y);
    CanonOfOrbit(n, c.0, c.1, y, x);
    CanonOfOrbit(n, c.0, c.1, n - 1 - x, n - 1 - y);
    CanonOfOrbit(n, c.0, c.1, n - 1 - y, n - 1 - x);
  }

  /** The number of canonical cells in row i: j runs from i to n-1-i. */
  function RowLength(n: nat, i: nat): nat {
    if 2 * i < n then n - 2 * i else 0
  }

  /** The number of canonical cells in the rows before row i, i.e. the bits drawn before row i starts. */
  function RowsBefore(n: nat, i: nat): nat {
    if i == 0 then 0 else RowsBefore(n, i - 1) + RowLength(n, i - 1)
  }

  /** The number of bits one call of genLayer draws. */
  function CanonCount(n: nat): nat {
    RowsBefore(n, n)
  }

  /**
   * The position, among genLayer's draws for one layer, of the draw made at
   * canonical cell (i, j): the loop visits rows in order and, in row i,
   * the canonical columns i, i+1, ... in order.
   */
  function Rank(n: nat, i: nat, j: nat): nat
    requires Canonical(n, i, j)
  {
    RowsBefore(n, i) + (j - i)
  }

  /** Bits already drawn in row i before column j (the draw counter inside genLayer's inner loop). */
  function DrawnInRow(n: nat, i: nat, j: nat): nat {
    if j <= i then 0 else if j <= n - i then j - i else RowLength(n, i)
  }

  /** Rows are laid out one after another: later rows start no earlier than earlier rows end. */
  lemma {:induction false} RowsBeforeMonotone(n: nat, i: nat, k: nat)
    requires i <= k
    ensures RowsBefore(n, i) <= RowsBefore(n, k)
  {
    if i < k {
      RowsBeforeMonotone(n, i, k - 1);
    }
  }

  /**
   * Every canonical cell gets its own draw: ranks lie below CanonCount(n)
   * and distinct canonical cells have distinct ranks.
   */
  lemma {:induction false} RankInRange(n: nat, i: nat, j: nat)
    requires Canonical(n, i, j)
    ensures Rank(n, i, j) < RowsBefore(n, i + 1) <= CanonCount(n)
  {
    RowsBeforeMonotone(n, i + 1, n);
  }

  lemma {:induction false} RankInjective(n: nat, i1: nat, j1: nat, i2: nat, j2: nat)
    requires Canonical(n, i1, j1) && Canonical(n, i2, j2)
    requires Rank(n, i1, j1) == Rank(n, i2, j2)
    ensures i1 == i2 && j1 == j2
  {
    if i1 < i2 {
      RankInRange(n, i1, j1);
      RowsBeforeMonotone(n, i1 + 1, i2);
    } else if i2 < i1 {
      RankInRange(n, i2, j2);
      RowsBeforeMonotone(n, i2 + 1, i1);
    }
  }
}
