/**
 * Lattices as values: a lattice is a sequence of rows of spins. The engine
 * keeps its lattice in an `array2<int>`; `Cells` reads such an array as a
 * value so that the engine can be specified by functions on values.
 */
module Grid {
  type Lattice = seq<seq<int>>

  /** The two opinions an agent can hold. */
  predicate IsSpin(v: int) {
    v == -1 || v == 1
  }

  /** `g` has exactly `rows` rows of `cols` cells each. */
  predicate IsGrid(g: Lattice, rows: nat, cols: nat) {
    |g| == rows && forall r :: 0 <= r < rows ==> |g[r]| == cols
  }

  /** Every index pair in [0, L) x [0, L) names a cell of `g`. */
  predicate Covers(g: Lattice, L: int) {
    L <= |g| && forall r :: 0 <= r < |g| ==> L <= |g[r]|
  }

  predicate SameShape(g: Lattice, h: Lattice) {
    |g| == |h| && forall r :: 0 <= r < |g| ==> |g[r]| == |h[r]|
  }

  predicate AllSpins(g: Lattice) {
    forall r, c :: 0 <= r < |g| && 0 <= c < |g[r]| ==> IsSpin(g[r][c])
  }

  predicate AllPlus(g: Lattice) {
    forall r, c :: 0 <= r < |g| && 0 <= c < |g[r]| ==> g[r][c] == 1
  }

  /** `lattice[i][j] = v` on a value: only cell (i, j) is different afterwards. */
  function Set(g: Lattice, i: int, j: int, v: int): (h: Lattice)
    requires 0 <= i < |g| && 0 <= j < |g[i]|
    ensures SameShape(g, h)
    ensures h[i][j] == v
    ensures forall r, c :: 0 <= r < |g| && 0 <= c < |g[r]| && (r != i || c != j) ==> h[r][c] == g[r][c]
    ensures v == g[i][j] ==> h == g
  {
    assert v == g[i][j] ==> g[i][j := v] == g[i] && g[i := g[i]] == g;
    g[i := g[i][j := v]]
  }

  /** The contents of an array as a lattice value. */
  ghost function Cells(a: array2<int>): (g: Lattice)
    reads a
    ensures IsGrid(g, a.Length0, a.Length1)
    ensures forall r, c :: 0 <= r < a.Length0 && 0 <= c < a.Length1 ==> g[r][c] == a[r, c]
  {
    seq(a.Length0, r requires 0 <= r < a.Length0 reads a =>
      seq(a.Length1, c requires 0 <= c < a.Length1 reads a => a[r, c]))
  }

  /** Two arrays-as-lattices agree when they agree cell by cell. */
  lemma SameCells(g: Lattice, h: Lattice, rows: nat, cols: nat)
    requires IsGrid(g, rows, cols) && IsGrid(h, rows, cols)
    requires forall r, c :: 0 <= r < rows && 0 <= c < cols ==> g[r][c] == h[r][c]
    ensures g == h
  {
    forall r | 0 <= r < rows
      ensures g[r] == h[r]
    {
    }
  }

  /** The in-place write `lattice[i][j] = v`. */
  method Write(a: array2<int>, i: nat, j: nat, v: int)
    requires i < a.Length0 && j < a.Length1
    modifies a
    ensures Cells(a) == Set(old(Cells(a)), i, j, v)
  {
    ghost var g := Cells(a);
    a[i, j] := v;
    SameCells(Cells(a), Set(g, i, j, v), a.Length0, a.Length1);
  }
}
