/**
 * The integer initial lattices of the validating module: two vertical
 * stripes, a chessboard, a random lattice and a solid one, each N x N.
 */
module Lattices {
  import opened Grid
  import opened Sampling
  import Dynamics

  /** A row of n copies of v. */
  function Constant(n: nat, v: int): (row: seq<int>)
    ensures |row| == n && forall k :: 0 <= k < n ==> row[k] == v
  {
    seq(n, _ => v)
  }

  /** The stripes lattice, cell by cell: the first N / 2 columns hold -1, the rest +1. */
  function VerticalStripes(N: nat): (g: Lattice)
    ensures IsGrid(g, N, N) && AllSpins(g)
    ensures forall r, c :: 0 <= r < N && 0 <= c < N ==> (g[r][c] == -1 <==> c < N / 2)
  {
    seq(N, r => seq(N, c => if c < N / 2 then -1 else 1))
  }

  /**
   * `two_vertical_stripes(N)`: `np.ones((N, N))`, then the slice
   * `[:, :N//2]` overwritten with -1 in place.
   */
  method TwoVerticalStripes(N: nat) returns (lattice: array2<int>)
    ensures fresh(lattice) && Cells(lattice) == VerticalStripes(N)
  {
    lattice := new int[N, N]((r, c) => 1);
    var r := 0;
    while r < N
      invariant 0 <= r <= N
      invariant forall a, b :: 0 <= a < N && 0 <= b < N ==>
        lattice[a, b] == if a < r && b < N / 2 then -1 else 1
    {
      var c := 0;
      while c < N / 2
        invariant 0 <= c <= N / 2
        invariant forall a, b :: 0 <= a < N && 0 <= b < N ==>
          lattice[a, b] == if (a < r && b < N / 2) || (a == r && b < c) then -1 else 1
      {
        lattice[r, c] := -1;
        c := c + 1;
      }
      r := r + 1;
    }
    SameCells(Cells(lattice), VerticalStripes(N), N, N);
  }

  /** The number of cells of `row` that hold v. */
  function CountRow(row: seq<int>, v: int): nat {
    if row == [] then 0 else (if row[0] == v then 1 else 0) + CountRow(row[1..], v)
  }

  /** The number of cells of `g` that hold v. */
  function Count(g: Lattice, v: int): nat {
    if g == [] then 0 else CountRow(g[0], v) + Count(g[1..], v)
  }

  lemma {:induction false} CountRowAppend(a: seq<int>, b: seq<int>, v: int)
    ensures CountRow(a + b, v) == CountRow(a, v) + CountRow(b, v)
  {
    if a != [] {
      assert (a + b)[1..] == a[1..] + b;
      CountRowAppend(a[1..], b, v);
    } else {
      assert a + b == b;
    }
  }

  lemma {:induction false} CountConstant(n: nat, w: int, v: int)
    ensures CountRow(Constant(n, w), v) == if w == v then n else 0
  {
    if n > 0 {
      assert Constant(n, w)[1..] == Constant(n - 1, w);
      CountConstant(n - 1, w, v);
    }
  }

  lemma {:induction false} CountEqualRows(g: Lattice, row: seq<int>, v: int)
    requires forall r :: 0 <= r < |g| ==> g[r] == row
    ensures Count(g, v) == |g| * CountRow(row, v)
  {
    if g != [] {
      CountEqualRows(g[1..], row, v);
      assert Count(g, v) == CountRow(row, v) + (|g| - 1) * CountRow(row, v);
    }
  }

  /** The stripes lattice has N * (N / 2) cells holding -1. */
  lemma StripesMinusCount(N: nat)
    ensures Count(VerticalStripes(N), -1) == N * (N / 2)
  {
    var row := Constant(N / 2, -1) + Constant(N - N / 2, 1);
    forall r | 0 <= r < N
      ensures VerticalStripes(N)[r] == row
    {
    }
    CountEqualRows(VerticalStripes(N), row, -1);
    CountRowAppend(Constant(N / 2, -1), Constant(N - N / 2, 1), -1);
    CountConstant(N / 2, -1, -1);
    CountConstant(N - N / 2, 1, -1);
  }

  /**
   * `chessboard(N)`: `2 * ((i + j) % 2) - 1`. Cell (0, 0) holds -1; a cell
   * holds +1 exactly when i + j is odd.
   */
  function Chessboard(N: nat): (g: Lattice)
    ensures IsGrid(g, N, N) && AllSpins(g)
    ensures forall i, j :: 0 <= i < N && 0 <= j < N ==> (g[i][j] == 1 <==> (i + j) % 2 == 1)
    ensures N > 0 ==> g[0][0] == -1
  {
    seq(N, i => seq(N, j => 2 * ((i + j) % 2) - 1))
  }

  /**
   * On an even torus every neighbour of a chessboard cell holds the other
   * opinion: any sample is unanimous, and the conformity update flips the
   * visited cell.
   */
  lemma ChessboardNeighboursDisagree(N: nat, i: int, j: int)
    requires N > 0 && N % 2 == 0 && 0 <= i < N && 0 <= j < N
    ensures forall k :: 0 <= k < 4 ==> Dynamics.Neighbours(Chessboard(N), N, i, j)[k] == -Chessboard(N)[i][j]
  {
    var g := Chessboard(N);
    var nb := Dynamics.Neighbours(g, N, i, j);
    var ps := Dynamics.NeighbourPositions(N, i, j);
    Dynamics.WrapStep(N, i);
    Dynamics.WrapStep(N, j);
    forall k | 0 <= k < 4
      ensures nb[k] == -g[i][j]
    {
      var d := (ps[k].0 + ps[k].1) - (i + j);
      assert d == 1 || d == -1 || d == 1 - N || d == N - 1;
      OddShiftFlipsParity(i + j, d, N);
    }
  }

  lemma OddShiftFlipsParity(x: int, d: int, N: int)
    requires N % 2 == 0 && (d == 1 || d == -1 || d == 1 - N || d == N - 1)
    ensures (x + d) % 2 != x % 2
  {
    var m := N / 2;
    assert N == 2 * m;
  }

  /**
   * `random_lattice(N)`: `np.random.choice([-1, 1], (N, N))`, each cell
   * chosen by its own raw draw.
   */
  function RandomLattice(N: nat, raw: seq<seq<nat>>): (g: Lattice)
    requires IsGrid(raw, N, N)
    ensures IsGrid(g, N, N) && AllSpins(g)
  {
    seq(N, i requires 0 <= i < N => seq(N, j requires 0 <= j < N => [-1, 1][RandInt(0, 2, raw[i][j])]))
  }

  /** Raw draws that make `random_lattice` produce g. */
  function DrawsFor(g: Lattice, N: nat): (raw: seq<seq<nat>>)
    requires IsGrid(g, N, N)
    ensures IsGrid(raw, N, N)
  {
    seq(N, i requires 0 <= i < N => seq(N, j requires 0 <= j < N => if g[i][j] == 1 then 1 else 0))
  }

  /** Every N x N lattice of spins is a possible `random_lattice(N)`. */
  lemma RandomLatticeReachesEveryLattice(g: Lattice, N: nat)
    requires IsGrid(g, N, N) && AllSpins(g)
    ensures RandomLattice(N, DrawsFor(g, N)) == g
  {
    SameCells(RandomLattice(N, DrawsFor(g, N)), g, N, N);
  }

  /** `solid(N)`: every cell holds +1. */
  function Solid(N: nat): (g: Lattice)
    ensures IsGrid(g, N, N) && AllPlus(g)
  {
    seq(N, _ => Constant(N, 1))
  }

  /**
   * Driven as the dashboard drives it (L = N) with p = 0, every step draws
   * U >= 0 and conforms, so a solid lattice comes back solid.
   */
  lemma SolidStaysSolid(N: nat, v: Dynamics.Variant, replacement: bool, q: int, draws: seq<Dynamics.Draw>)
    requires draws != [] ==> N > 0
    requires Dynamics.AllReady(draws, v, replacement, q, 0.0)
    requires forall k :: 0 <= k < |draws| ==> draws[k].u >= 0.0
    ensures Dynamics.Run(Solid(N), N, v, replacement, q, 0.0, draws) == Solid(N)
  {
    var h := Dynamics.Run(Solid(N), N, v, replacement, q, 0.0, draws);
    Dynamics.ConsensusIsStable(Solid(N), N, v, replacement, q, 0.0, draws);
    SameCells(h, Solid(N), N, N);
  }
}
