/**
 * The update engine as the unvalidated root module runs it: `L` elementary
 * steps on an array lattice, each overwriting at most the visited cell in
 * place. Each method is proved against `Dynamics.Run`.
 */
module Simulation {
  import opened Grid
  import opened Sampling
  import opened Dynamics

  /** `range(L)` runs max(L, 0) times. */
  function Steps(L: int): nat {
    if L > 0 then L else 0
  }

  /**
   * What an engine call needs: the lattice holds every cell of [0, L) x [0, L),
   * there is one draw per step, and each draw lets its sampler finish.
   */
  predicate Ready(rows: nat, cols: nat, L: int, v: Variant, replacement: bool, q: int, p: real, draws: seq<Draw>) {
    L <= rows && L <= cols && |draws| == Steps(L) && AllReady(draws, v, replacement, q, p)
  }

  /** The four neighbour reads of the source, from the array. */
  method ReadNeighbours(lattice: array2<int>, L: int, i: int, j: int) returns (neighbours: seq<int>)
    requires 0 <= i < L && 0 <= j < L && L <= lattice.Length0 && L <= lattice.Length1
    ensures neighbours == Neighbours(Cells(lattice), L, i, j)
  {
    WrapStep(L, i);
    WrapStep(L, j);
    neighbours := [lattice[i, (j + 1) % L], lattice[i, (j - 1) % L],
                   lattice[(i + 1) % L, j], lattice[(i - 1) % L, j]];
  }

  /** Either sampler of the source, chosen by `replacement`. */
  method DrawIndices(replacement: bool, q: int, picks: seq<nat>) returns (indexes: seq<int>)
    requires 1 <= q && Suffices(replacement, q, picks)
    ensures indexes == Indices(replacement, q, picks)
  {
    if replacement {
      indexes := WithReplacement(q, picks);
    } else {
      indexes := SampleWithoutReplacement(picks, q);
    }
  }

  /** One step of `independence`: the body of its `for` loop. */
  method IndependenceStep(lattice: array2<int>, L: int, replacement: bool, q: int, p: real, f: real, d: Draw)
    requires 0 < L <= lattice.Length0 && L <= lattice.Length1
    requires DrawReady(d, Dynamics.Independence(f), replacement, q, p)
    modifies lattice
    ensures Cells(lattice) == Step(old(Cells(lattice)), L, Dynamics.Independence(f), replacement, q, p, d)
  {
    ghost var g := Cells(lattice);
    var i, j := RandInt(0, L, d.ri), RandInt(0, L, d.rj);
    IndependenceSpin(g, L, f, replacement, q, p, d, i, j);
    var agent := lattice[i, j];
    var U := d.u;
    if U < p {
      if d.flip < f {
        Write(lattice, i, j, -agent);
      }
    } else {
      var neighbours := ReadNeighbours(lattice, L, i, j);
      var indexes := DrawIndices(replacement, q, d.picks);
      var chosen := Chosen(neighbours, indexes);
      assert chosen == Sample(g, L, i, j, replacement, q, d.picks);
      if Unanimous(chosen, q) {
        Write(lattice, i, j, chosen[0]);
      }
    }
  }

  /**
   * The reads of one `anti_conformity` step: the visited cell, its four
   * neighbours and the sample drawn from them.
   */
  method Observe(lattice: array2<int>, L: int, replacement: bool, q: int, d: Draw)
    returns (i: int, j: int, chosen: seq<int>)
    requires 0 < L <= lattice.Length0 && L <= lattice.Length1
    requires 1 <= q && Suffices(replacement, q, d.picks)
    ensures i == Pick(L, d.ri) && j == Pick(L, d.rj)
    ensures chosen == Sample(Cells(lattice), L, i, j, replacement, q, d.picks)
  {
    i, j := RandInt(0, L, d.ri), RandInt(0, L, d.rj);
    var neighbours := ReadNeighbours(lattice, L, i, j);
    var indexes := DrawIndices(replacement, q, d.picks);
    chosen := Chosen(neighbours, indexes);
  }

  /** One step of `anti_conformity`: the body of its `for` loop. */
  method AntiConformityStep(lattice: array2<int>, L: int, replacement: bool, q: int, p: real, d: Draw)
    requires 0 < L <= lattice.Length0 && L <= lattice.Length1
    requires DrawReady(d, Dynamics.AntiConformity, replacement, q, p)
    modifies lattice
    ensures Cells(lattice) == Step(old(Cells(lattice)), L, Dynamics.AntiConformity, replacement, q, p, d)
  {
    var i, j, chosen := Observe(lattice, L, replacement, q, d);
    AntiConformitySpin(Cells(lattice), L, replacement, q, p, d, i, j, chosen);
    var U := d.u;
    if Unanimous(chosen, q) {
      var spin := if U < p then -chosen[0] else chosen[0];
      Write(lattice, i, j, spin);
    }
  }

  /** `independence(lattice, L, replacement, q, p, f)` */
  method Independence(lattice: array2<int>, L: int, replacement: bool, q: int, p: real, f: real, draws: seq<Draw>)
    requires Ready(lattice.Length0, lattice.Length1, L, Dynamics.Independence(f), replacement, q, p, draws)
    modifies lattice
    ensures Cells(lattice) == Run(old(Cells(lattice)), L, Dynamics.Independence(f), replacement, q, p, draws)
    ensures L <= 0 ==> Cells(lattice) == old(Cells(lattice))
  {
    ghost var start := Cells(lattice);
    var k := 0;
    while k < L
      invariant 0 <= k <= |draws|
      invariant Cells(lattice) == Run(start, L, Dynamics.Independence(f), replacement, q, p, draws[..k])
    {
      RunExtend(start, L, Dynamics.Independence(f), replacement, q, p, draws, k);
      IndependenceStep(lattice, L, replacement, q, p, f, draws[k]);
      k := k + 1;
    }
    assert draws[..k] == draws;
  }

  /** `anti_conformity(lattice, L, replacement, q, p)` */
  method AntiConformity(lattice: array2<int>, L: int, replacement: bool, q: int, p: real, draws: seq<Draw>)
    requires Ready(lattice.Length0, lattice.Length1, L, Dynamics.AntiConformity, replacement, q, p, draws)
    modifies lattice
    ensures Cells(lattice) == Run(old(Cells(lattice)), L, Dynamics.AntiConformity, replacement, q, p, draws)
    ensures L <= 0 ==> Cells(lattice) == old(Cells(lattice))
  {
    ghost var start := Cells(lattice);
    var k := 0;
    while k < L
      invariant 0 <= k <= |draws|
      invariant Cells(lattice) == Run(start, L, Dynamics.AntiConformity, replacement, q, p, draws[..k])
    {
      RunExtend(start, L, Dynamics.AntiConformity, replacement, q, p, draws, k);
      AntiConformityStep(lattice, L, replacement, q, p, draws[k]);
      k := k + 1;
    }
    assert draws[..k] == draws;
  }
}
