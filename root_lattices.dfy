/**
 * The stripes lattice of the root module, built from two constant blocks
 * rather than by overwriting. Its chessboard, random and solid lattices are
 * the same expressions as in `Lattices`.
 */
module RootLattices {
  import opened Grid
  import Lattices

  /** `v * np.ones((rows, cols))` */
  function Block(rows: nat, cols: nat, v: int): (b: Lattice)
    ensures IsGrid(b, rows, cols)
    ensures forall r, c :: 0 <= r < rows && 0 <= c < cols ==> b[r][c] == v
  {
    seq(rows, _ => Lattices.Constant(cols, v))
  }

  /** `np.concatenate((a, b), axis=1)`: row r is a's row r followed by b's. */
  function ConcatColumns(a: Lattice, b: Lattice): (g: Lattice)
    requires |a| == |b|
    ensures |g| == |a| && forall r :: 0 <= r < |a| ==> g[r] == a[r] + b[r]
  {
    seq(|a|, r requires 0 <= r < |a| => a[r] + b[r])
  }

  /**
   * `two_stripes(N)`: a left N x (N // 2) block of -1 next to a right
   * N x (N - N // 2) block of +1; the two widths make up N columns.
   */
  function TwoStripes(N: nat): (g: Lattice)
    ensures IsGrid(g, N, N)
    ensures forall r :: 0 <= r < N ==> g[r][..N / 2] == Lattices.Constant(N / 2, -1)
    ensures forall r :: 0 <= r < N ==> g[r][N / 2..] == Lattices.Constant(N - N / 2, 1)
  {
    var n := N / 2;
    var g := ConcatColumns(Block(N, n, -1), Block(N, N - n, 1));
    assert forall r :: 0 <= r < N ==> g[r][..n] == Block(N, n, -1)[r] && g[r][n..] == Block(N, N - n, 1)[r];
    g
  }

  /** `two_stripes(N)` and `two_vertical_stripes(N)` give the same lattice for every N. */
  lemma TwoStripesIsVerticalStripes(N: nat)
    ensures TwoStripes(N) == Lattices.VerticalStripes(N)
  {
    var g := TwoStripes(N);
    forall r, c | 0 <= r < N && 0 <= c < N
      ensures g[r][c] == Lattices.VerticalStripes(N)[r][c]
    {
      if c < N / 2 {
        assert g[r][c] == g[r][..N / 2][c];
      } else {
        assert g[r][c] == g[r][N / 2..][c - N / 2];
      }
    }
    SameCells(g, Lattices.VerticalStripes(N), N, N);
  }
}
