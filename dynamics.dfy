/**
 * One elementary step of the q-voter model and a run of several, as functions
 * on lattice values. Both variants of the engine (independence and
 * anti-conformity), in both copies of the simulation code, are specified by
 * `Run`. `L` is at once the number of steps and the side of the torus the
 * engine indexes.
 */
module Dynamics {
  import opened Grid
  import opened Sampling

  /** Which nonconformity the engine models; `f` is the spin-flip threshold. */
  datatype Variant = Independence(f: real) | AntiConformity

  /**
   * The random draws one step consumes: raw draws `ri`, `rj` for the cell,
   * `u` for `U = np.random.rand()`, `flip` for the second `np.random.rand()` of
   * the independence branch, and `picks`, the raw draws of the index sampler.
   */
  datatype Draw = Draw(ri: nat, rj: nat, u: real, flip: real, picks: seq<nat>)

  /** The cell a step visits: `i, j = np.random.randint(0, L, 2)`. */
  function Pick(L: int, raw: nat): (k: int)
    requires L > 0
    ensures 0 <= k < L
  {
    RandInt(0, L, raw)
  }

  /** Every cell of the torus can be visited: the raw draw k picks coordinate k. */
  lemma PickOnto(L: int, k: int)
    requires 0 <= k < L
    ensures Pick(L, k) == k
  {
    RandIntOnto(0, L, k);
  }

  /**
   * The four toroidal neighbour positions, in the order the source lists
   * them: right, left, below, above, each wrapping at the edge of the torus.
   */
  function NeighbourPositions(L: int, i: int, j: int): (ps: seq<(int, int)>)
    requires 0 <= i < L && 0 <= j < L
    ensures ps == [(i, if j == L - 1 then 0 else j + 1), (i, if j == 0 then L - 1 else j - 1),
                   (if i == L - 1 then 0 else i + 1, j), (if i == 0 then L - 1 else i - 1, j)]
    ensures forall k :: 0 <= k < 4 ==> 0 <= ps[k].0 < L && 0 <= ps[k].1 < L
    ensures forall k :: 0 <= k < 4 ==> Adjacent(L, (i, j), ps[k])
  {
    WrapStep(L, i);
    WrapStep(L, j);
    [(i, (j + 1) % L), (i, (j - 1) % L), ((i + 1) % L, j), ((i - 1) % L, j)]
  }

  /** `y` is one step after or before `x` on a ring of `L` positions. */
  predicate RingStep(L: int, x: int, y: int) {
    (x + 1 == y || (x == L - 1 && y == 0)) || (y + 1 == x || (y == L - 1 && x == 0))
  }

  /** `b` is a nearest neighbour of `a` on the `L x L` torus. */
  predicate Adjacent(L: int, a: (int, int), b: (int, int)) {
    (a.0 == b.0 && RingStep(L, a.1, b.1)) || (a.1 == b.1 && RingStep(L, a.0, b.0))
  }

  /** Python's `(x + 1) % L` and `(x - 1) % L` for a position on the ring. */
  lemma WrapStep(L: int, x: int)
    requires 0 <= x < L
    ensures (x + 1) % L == if x == L - 1 then 0 else x + 1
    ensures (x - 1) % L == if x == 0 then L - 1 else x - 1
  {
    if x == L - 1 {
      assert (x + 1) % L == (1 * L) % L == 0;
    }
    if x == 0 {
      assert -1 == (-1) * L + (L - 1);
    }
  }

  /**
   * `neighbours = [lattice[i][(j+1)%L], lattice[i][(j-1)%L],
   * lattice[(i+1)%L][j], lattice[(i-1)%L][j]]`: exactly four reads, each of a
   * cell adjacent to (i, j) on the torus.
   */
  function Neighbours(g: Lattice, L: int, i: int, j: int): (nb: seq<int>)
    requires 0 <= i < L && 0 <= j < L && Covers(g, L)
    ensures |nb| == 4
    ensures forall k :: 0 <= k < 4 ==>
      var ps := NeighbourPositions(L, i, j); nb[k] == g[ps[k].0][ps[k].1]
  {
    var ps := NeighbourPositions(L, i, j);
    [g[ps[0].0][ps[0].1], g[ps[1].0][ps[1].1], g[ps[2].0][ps[2].1], g[ps[3].0][ps[3].1]]
  }

  /** `[neighbours[i] for i in indexes]` */
  function Chosen(nb: seq<int>, idx: seq<int>): (c: seq<int>)
    requires InRange(idx, |nb|)
    ensures |c| == |idx| && forall k :: 0 <= k < |idx| ==> c[k] == nb[idx[k]]
  {
    seq(|idx|, k requires 0 <= k < |idx| => nb[idx[k]])
  }

  /** The opinions the step samples around (i, j). */
  function Sample(g: Lattice, L: int, i: int, j: int, replacement: bool, q: int, picks: seq<nat>): (chosen: seq<int>)
    requires 0 <= i < L && 0 <= j < L && Covers(g, L)
    requires 0 <= q && Suffices(replacement, q, picks)
    ensures |chosen| == q
    ensures forall k :: 0 <= k < q ==> chosen[k] in Neighbours(g, L, i, j)
    ensures replacement ==> forall k :: 0 <= k < q ==> chosen[k] in Neighbours(g, L, i, j)[..3]
  {
    var nb := Neighbours(g, L, i, j);
    var idx := Indices(replacement, q, picks);
    var chosen := Chosen(nb, idx);
    assert forall k :: 0 <= k < q && replacement ==> chosen[k] == nb[..3][idx[k]];
    chosen
  }

  /** `sum(chosen)`: a sum of spins lies in [-|s|, |s|]. */
  function Sum(s: seq<int>): (r: int)
    ensures Spins(s) ==> -|s| <= r <= |s|
  {
    if s == [] then 0
    else
      assert Spins(s) ==> Spins(s[1..]);
      s[0] + Sum(s[1..])
  }

  /**
   * The engine's unanimity test `sum(chosen) == q or sum(chosen) == -q`. For
   * q >= 1 spins it holds exactly when all sampled opinions are equal.
   */
  predicate Unanimous(chosen: seq<int>, q: int): (r: bool)
    ensures 1 <= q == |chosen| && Spins(chosen) ==> (r <==> Agree(chosen))
  {
    SumOfSpins(chosen);
    Sum(chosen) == q || Sum(chosen) == -q
  }

  /** Every sampled opinion equals the first one. */
  predicate Agree(s: seq<int>) {
    forall k :: 0 <= k < |s| ==> s[k] == s[0]
  }

  predicate Spins(s: seq<int>) {
    forall k :: 0 <= k < |s| ==> IsSpin(s[k])
  }

  /** A sum of spins is `|s|` exactly when all of them are +1, `-|s|` when all are -1. */
  lemma {:induction false} SumOfSpins(s: seq<int>)
    ensures Spins(s) ==> (Sum(s) == |s| <==> forall k :: 0 <= k < |s| ==> s[k] == 1)
    ensures Spins(s) ==> (Sum(s) == -|s| <==> forall k :: 0 <= k < |s| ==> s[k] == -1)
  {
    if s != [] && Spins(s) {
      SumOfSpins(s[1..]);
      assert forall k :: 1 <= k < |s| ==> s[k] == s[1..][k - 1];
    }
  }

  /** With q = 0 the empty sample passes the unanimity test, and `chosen[0]` does not exist. */
  lemma EmptySampleIsUnanimous()
    ensures Unanimous([], 0)
  {
  }

  /**
   * The conformity update `if unanimous: lattice[i][j] = chosen[0]`: a sample
   * of spins that agrees sets the cell to the shared opinion; one that does
   * not agree leaves the cell.
   */
  function Conform(cell: int, chosen: seq<int>, q: int): (r: int)
    requires 1 <= q && |chosen| == q
    ensures Spins(chosen) ==> r == if Agree(chosen) then chosen[0] else cell
  {
    if Unanimous(chosen, q) then chosen[0] else cell
  }

  /**
   * The anti-conformity update `if unanimous: lattice[i][j] = -chosen[0]`: a
   * sample of spins that agrees sets the cell to the negated shared opinion.
   */
  function AntiConform(cell: int, chosen: seq<int>, q: int): (r: int)
    requires 1 <= q && |chosen| == q
    ensures Spins(chosen) ==> r == if Agree(chosen) then -chosen[0] else cell
  {
    if Unanimous(chosen, q) then -chosen[0] else cell
  }

  /**
   * What the step needs of its draws: a sampler that can finish with q >= 1
   * indices, unless the independence branch is taken and no sample is drawn.
   */
  predicate DrawReady(d: Draw, v: Variant, replacement: bool, q: int, p: real) {
    (v.Independence? && d.u < p) || (1 <= q && Suffices(replacement, q, d.picks))
  }

  predicate AllReady(draws: seq<Draw>, v: Variant, replacement: bool, q: int, p: real) {
    forall k :: 0 <= k < |draws| ==> DrawReady(draws[k], v, replacement, q, p)
  }

  /** The new opinion of the visited cell; on a lattice of spins it is a spin. */
  function NewSpin(g: Lattice, L: int, v: Variant, replacement: bool, q: int, p: real, d: Draw): (s: int)
    requires L > 0 && Covers(g, L) && DrawReady(d, v, replacement, q, p)
    ensures AllSpins(g) ==> IsSpin(s)
  {
    var i, j := Pick(L, d.ri), Pick(L, d.rj);
    var cell := g[i][j];
    match v
    case Independence(f) =>
      if d.u < p then (if d.flip < f then -cell else cell)
      else
        SampleIsSpins(g, L, i, j, replacement, q, d.picks);
        Conform(cell, Sample(g, L, i, j, replacement, q, d.picks), q)
    case AntiConformity =>
      var chosen := Sample(g, L, i, j, replacement, q, d.picks);
      SampleIsSpins(g, L, i, j, replacement, q, d.picks);
      if d.u < p then AntiConform(cell, chosen, q) else Conform(cell, chosen, q)
  }

  /** A sample from a lattice of spins holds only spins. */
  lemma SampleIsSpins(g: Lattice, L: int, i: int, j: int, replacement: bool, q: int, picks: seq<nat>)
    requires 0 <= i < L && 0 <= j < L && Covers(g, L)
    requires 0 <= q && Suffices(replacement, q, picks)
    ensures AllSpins(g) ==> Spins(Sample(g, L, i, j, replacement, q, picks))
  {
    if AllSpins(g) {
      var nb := Neighbours(g, L, i, j);
      assert Spins(nb);
    }
  }

  /** The new opinion in the independence variant, given the cell and the sample drawn outside the `U < p` branch. */
  lemma IndependenceSpin(g: Lattice, L: int, f: real, replacement: bool, q: int, p: real, d: Draw,
                         i: int, j: int)
    requires L > 0 && Covers(g, L) && DrawReady(d, Independence(f), replacement, q, p)
    requires i == Pick(L, d.ri) && j == Pick(L, d.rj)
    ensures Step(g, L, Independence(f), replacement, q, p, d) ==
      Set(g, i, j, NewSpin(g, L, Independence(f), replacement, q, p, d))
    ensures d.u < p ==> NewSpin(g, L, Independence(f), replacement, q, p, d) == if d.flip < f then -g[i][j] else g[i][j]
    ensures d.u >= p ==> (NewSpin(g, L, Independence(f), replacement, q, p, d) ==
                          Conform(g[i][j], Sample(g, L, i, j, replacement, q, d.picks), q))
  {
  }

  /** The new opinion in the anti-conformity variant, given the cell and its sample. */
  lemma AntiConformitySpin(g: Lattice, L: int, replacement: bool, q: int, p: real, d: Draw,
                           i: int, j: int, chosen: seq<int>)
    requires L > 0 && Covers(g, L) && DrawReady(d, AntiConformity, replacement, q, p)
    requires i == Pick(L, d.ri) && j == Pick(L, d.rj)
    requires chosen == Sample(g, L, i, j, replacement, q, d.picks)
    ensures !Unanimous(chosen, q) ==> Step(g, L, AntiConformity, replacement, q, p, d) == g
    ensures Unanimous(chosen, q) ==>
      (Step(g, L, AntiConformity, replacement, q, p, d) == Set(g, i, j, if d.u < p then -chosen[0] else chosen[0]))
  {
  }

  /** One elementary step: at most the visited cell changes. */
  function Step(g: Lattice, L: int, v: Variant, replacement: bool, q: int, p: real, d: Draw): (h: Lattice)
    requires L > 0 && Covers(g, L) && DrawReady(d, v, replacement, q, p)
    ensures SameShape(g, h) && Covers(h, L)
    ensures h[Pick(L, d.ri)][Pick(L, d.rj)] == NewSpin(g, L, v, replacement, q, p, d)
    ensures forall r, c :: 0 <= r < |g| && 0 <= c < |g[r]| && (r != Pick(L, d.ri) || c != Pick(L, d.rj)) ==>
      h[r][c] == g[r][c]
  {
    Set(g, Pick(L, d.ri), Pick(L, d.rj), NewSpin(g, L, v, replacement, q, p, d))
  }

  /** The steps of one engine call, one per draw, in order. */
  function Run(g: Lattice, L: int, v: Variant, replacement: bool, q: int, p: real, draws: seq<Draw>): (h: Lattice)
    requires draws != [] ==> L > 0 && Covers(g, L)
    requires AllReady(draws, v, replacement, q, p)
    ensures SameShape(g, h)
    ensures draws != [] ==> Covers(h, L)
    decreases |draws|
  {
    if draws == [] then g
    else
      var n := |draws| - 1;
      assert AllReady(draws[..n], v, replacement, q, p);
      Step(Run(g, L, v, replacement, q, p, draws[..n]), L, v, replacement, q, p, draws[n])
  }

  /** Running the first k + 1 draws is running the first k, then step k. */
  lemma RunExtend(g: Lattice, L: int, v: Variant, replacement: bool, q: int, p: real, draws: seq<Draw>, k: nat)
    requires k < |draws| && L > 0 && Covers(g, L) && AllReady(draws, v, replacement, q, p)
    ensures AllReady(draws[..k], v, replacement, q, p) && Covers(Run(g, L, v, replacement, q, p, draws[..k]), L)
    ensures Run(g, L, v, replacement, q, p, draws[..k + 1]) ==
      Step(Run(g, L, v, replacement, q, p, draws[..k]), L, v, replacement, q, p, draws[k])
  {
    assert AllReady(draws[..k], v, replacement, q, p);
    assert draws[..k + 1][..k] == draws[..k];
  }

  /** A step never leaves {-1, +1}. */
  lemma StepKeepsSpins(g: Lattice, L: int, v: Variant, replacement: bool, q: int, p: real, d: Draw)
    requires L > 0 && Covers(g, L) && DrawReady(d, v, replacement, q, p) && AllSpins(g)
    ensures AllSpins(Step(g, L, v, replacement, q, p, d))
  {
    assert IsSpin(NewSpin(g, L, v, replacement, q, p, d));
  }

  /** Every cell stays -1 or +1 through a whole run, for both variants. */
  lemma {:induction false} RunKeepsSpins(g: Lattice, L: int, v: Variant, replacement: bool, q: int, p: real, draws: seq<Draw>)
    requires draws != [] ==> L > 0 && Covers(g, L)
    requires AllReady(draws, v, replacement, q, p) && AllSpins(g)
    ensures AllSpins(Run(g, L, v, replacement, q, p, draws))
    decreases |draws|
  {
    if draws != [] {
      var n := |draws| - 1;
      assert AllReady(draws[..n], v, replacement, q, p);
      RunKeepsSpins(g, L, v, replacement, q, p, draws[..n]);
      StepKeepsSpins(Run(g, L, v, replacement, q, p, draws[..n]), L, v, replacement, q, p, draws[n]);
    }
  }

  /**
   * The independence branch (`U < p`) never looks at the neighbours: two
   * lattices that agree on the visited cell give the same new opinion, which
   * is the negated cell exactly when the flip draw is below f.
   */
  lemma IndependenceBranch(g1: Lattice, g2: Lattice, L: int, f: real, replacement: bool, q: int, p: real, d: Draw)
    requires L > 0 && Covers(g1, L) && Covers(g2, L) && d.u < p
    requires g1[Pick(L, d.ri)][Pick(L, d.rj)] == g2[Pick(L, d.ri)][Pick(L, d.rj)]
    requires IsSpin(g1[Pick(L, d.ri)][Pick(L, d.rj)])
    ensures NewSpin(g1, L, Independence(f), replacement, q, p, d) == NewSpin(g2, L, Independence(f), replacement, q, p, d)
    ensures NewSpin(g1, L, Independence(f), replacement, q, p, d) != g1[Pick(L, d.ri)][Pick(L, d.rj)] <==> d.flip < f
  {
  }

  /**
   * Outside the independence branch, and in both branches of the
   * anti-conformity variant: an agreeing sample decides the cell (the shared
   * opinion, or its negation in the anti-conformity branch `U < p`), and a
   * sample that does not agree leaves the cell as it was.
   */
  lemma SampleRule(g: Lattice, L: int, v: Variant, replacement: bool, q: int, p: real, d: Draw)
    requires L > 0 && Covers(g, L) && AllSpins(g)
    requires 1 <= q && Suffices(replacement, q, d.picks)
    requires v.Independence? ==> d.u >= p
    ensures var i, j := Pick(L, d.ri), Pick(L, d.rj);
      var chosen := Sample(g, L, i, j, replacement, q, d.picks);
      NewSpin(g, L, v, replacement, q, p, d) ==
        if !Agree(chosen) then g[i][j]
        else if v.AntiConformity? && d.u < p then -chosen[0]
        else chosen[0]
  {
    var i, j := Pick(L, d.ri), Pick(L, d.rj);
    var chosen := Sample(g, L, i, j, replacement, q, d.picks);
    assert forall k :: 0 <= k < q ==> chosen[k] in Neighbours(g, L, i, j);
    SampleIsSpins(g, L, i, j, replacement, q, d.picks);
  }

  /**
   * An all-+1 lattice stays all +1 while every step takes the conformity
   * branch (`U >= p`): every sample is unanimous with opinion +1.
   */
  lemma {:induction false} ConsensusIsStable(g: Lattice, L: int, v: Variant, replacement: bool, q: int, p: real, draws: seq<Draw>)
    requires draws != [] ==> L > 0 && Covers(g, L)
    requires AllReady(draws, v, replacement, q, p) && AllPlus(g)
    requires forall k :: 0 <= k < |draws| ==> draws[k].u >= p
    ensures AllPlus(Run(g, L, v, replacement, q, p, draws))
    decreases |draws|
  {
    if draws != [] {
      var n := |draws| - 1;
      assert AllReady(draws[..n], v, replacement, q, p);
      ConsensusIsStable(g, L, v, replacement, q, p, draws[..n]);
      StepKeepsConsensus(Run(g, L, v, replacement, q, p, draws[..n]), L, v, replacement, q, p, draws[n]);
    }
  }

  /** One conformity step on an all-+1 lattice: the sample is all +1 and so is the result. */
  lemma StepKeepsConsensus(g: Lattice, L: int, v: Variant, replacement: bool, q: int, p: real, d: Draw)
    requires L > 0 && Covers(g, L) && DrawReady(d, v, replacement, q, p) && AllPlus(g) && d.u >= p
    ensures AllPlus(Step(g, L, v, replacement, q, p, d))
  {
    var i, j := Pick(L, d.ri), Pick(L, d.rj);
    var chosen := Sample(g, L, i, j, replacement, q, d.picks);
    assert forall k :: 0 <= k < q ==> chosen[k] in Neighbours(g, L, i, j);
    assert forall k :: 0 <= k < q ==> chosen[k] == 1;
    SumOfSpins(chosen);
  }
}
