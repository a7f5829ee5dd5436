/**
 * The engine as the validating module runs it: the checkers first, in the
 * order the source calls them, then the same step loop as `Simulation`.
 */
module CheckedSimulation {
  import opened Grid
  import opened Sampling
  import opened Dynamics
  import opened Checkers
  import Simulation

  /**
   * The checks of `independence`: L, p, f, replacement, q. Which arguments
   * pass does not depend on the order; a raise is the raise of the first check
   * in that order that fails.
   */
  function ValidateIndependence(L: PyValue, replacement: PyValue, q: PyValue, p: PyValue, f: PyValue): (r: Outcome)
    ensures r.Pass? <==> (IsPositiveInteger(L).Pass? && IsProbability(p).Pass? && IsProbability(f).Pass?
                          && IsBool(replacement).Pass? && IsProperQ(q).Pass?)
    ensures r.Pass? ==> (AsInt(L) >= 0 && p == PyFloat(AsReal(p)) && f == PyFloat(AsReal(f))
                         && 0.0 <= AsReal(p) <= 1.0 && 0.0 <= AsReal(f) <= 1.0
                         && replacement == PyBool(AsBool(replacement)))
    ensures IsPositiveInteger(L).Raise? ==> r == IsPositiveInteger(L)
    ensures IsPositiveInteger(L).Pass? && IsProbability(p).Raise? ==> r == IsProbability(p)
    ensures IsPositiveInteger(L).Pass? && IsProbability(p).Pass? && IsProbability(f).Raise? ==>
              r == IsProbability(f)
    ensures (IsPositiveInteger(L).Pass? && IsProbability(p).Pass? && IsProbability(f).Pass?
             && IsBool(replacement).Raise?) ==> r == IsBool(replacement)
    ensures (IsPositiveInteger(L).Pass? && IsProbability(p).Pass? && IsProbability(f).Pass?
             && IsBool(replacement).Pass?) ==> r == IsProperQ(q)
  {
    Then(IsPositiveInteger(L), Then(IsProbability(p), Then(IsProbability(f),
      Then(IsBool(replacement), IsProperQ(q)))))
  }

  /** The checks of `anti_conformity`: L, p, replacement, q; a raise is that of the first check that fails. */
  function ValidateAntiConformity(L: PyValue, replacement: PyValue, q: PyValue, p: PyValue): (r: Outcome)
    ensures r.Pass? <==> (IsPositiveInteger(L).Pass? && IsProbability(p).Pass?
                          && IsBool(replacement).Pass? && IsProperQ(q).Pass?)
    ensures r.Pass? ==> (AsInt(L) >= 0 && p == PyFloat(AsReal(p)) && 0.0 <= AsReal(p) <= 1.0
                         && replacement == PyBool(AsBool(replacement)))
    ensures IsPositiveInteger(L).Raise? ==> r == IsPositiveInteger(L)
    ensures IsPositiveInteger(L).Pass? && IsProbability(p).Raise? ==> r == IsProbability(p)
    ensures IsPositiveInteger(L).Pass? && IsProbability(p).Pass? && IsBool(replacement).Raise? ==>
              r == IsBool(replacement)
    ensures IsPositiveInteger(L).Pass? && IsProbability(p).Pass? && IsBool(replacement).Pass? ==>
              r == IsProperQ(q)
  {
    Then(IsPositiveInteger(L), Then(IsProbability(p), Then(IsBool(replacement), IsProperQ(q))))
  }

  /**
   * The q values the engine is modelled for once validation passes: an int (or
   * bool), or, without replacement, a float with an integral value.
   */
  predicate CountLike(q: PyValue, replacement: PyValue) {
    IsInstanceInt(q) || (q.PyFloat? && q.x == q.x.Floor as real && !AsBool(replacement))
  }

  /** The number of indices a count-like q asks for. */
  function QCount(q: PyValue): (n: int)
    ensures IsInstanceInt(q) ==> n == AsInt(q)
    ensures q.PyFloat? && q.x == q.x.Floor as real ==> n as real == q.x
  {
    if q.PyFloat? then q.x.Floor else AsInt(q)
  }

  /**
   * An integral float q acts in the step as the int it equals: the loop test
   * `len(indexes) < q` and the unanimity test `sum(chosen) == q or
   * sum(chosen) == -q` compare ints with q, and give the same answers for the
   * float as for its integer value.
   */
  lemma IntegralQActsAsInt(x: real, len: int, sum: int)
    requires x == x.Floor as real
    ensures (len as real < x) <==> len < x.Floor
    ensures (sum as real == x || sum as real == -x) <==> (sum == x.Floor || sum == -x.Floor)
  {
  }

  /**
   * Validation does not establish what a step needs of q: it lets q = 0
   * through, whose empty sample passes the unanimity test with no `chosen[0]`,
   * and q = 5, for which no candidate stream lets the rejection loop finish.
   */
  lemma ValidationAdmitsUnusableQ(L: nat, p: real, f: real, replacement: bool, stream: seq<nat>)
    requires 0.0 <= p <= 1.0 && 0.0 <= f <= 1.0
    ensures ValidateIndependence(PyInt(L), PyBool(replacement), PyInt(0), PyFloat(p), PyFloat(f)).Pass?
    ensures ValidateAntiConformity(PyInt(L), PyBool(replacement), PyInt(0), PyFloat(p)).Pass? && Unanimous([], 0)
    ensures ValidateIndependence(PyInt(L), PyBool(false), PyInt(5), PyFloat(p), PyFloat(f)).Pass?
    ensures ValidateAntiConformity(PyInt(L), PyBool(false), PyInt(5), PyFloat(p)).Pass?
    ensures WithoutReplacement(stream, 5).None?
  {
    EmptySampleIsUnanimous();
    RejectionNeedsAtMostFour(stream, 5);
  }

  /**
   * `independence` of the validating module. On a raise the lattice is
   * untouched; otherwise the lattice ends as the unvalidated engine leaves
   * it, given the same draws.
   */
  method Independence(lattice: array2<int>, L: PyValue, replacement: PyValue, q: PyValue, p: PyValue, f: PyValue,
                      draws: seq<Draw>) returns (outcome: Outcome)
    requires ValidateIndependence(L, replacement, q, p, f).Pass? ==>
               (CountLike(q, replacement) &&
                Simulation.Ready(lattice.Length0, lattice.Length1, AsInt(L), Dynamics.Independence(AsReal(f)),
                                 AsBool(replacement), QCount(q), AsReal(p), draws))
    modifies lattice
    ensures outcome == ValidateIndependence(L, replacement, q, p, f)
    ensures outcome.Raise? ==> unchanged(lattice)
    ensures outcome.Pass? ==> Cells(lattice) == Run(old(Cells(lattice)), AsInt(L), Dynamics.Independence(AsReal(f)),
                                                  AsBool(replacement), QCount(q), AsReal(p), draws)
  {
    outcome := ValidateIndependence(L, replacement, q, p, f);
    if outcome.Raise? {
      return;
    }
    Simulation.Independence(lattice, AsInt(L), AsBool(replacement), QCount(q), AsReal(p), AsReal(f), draws);
  }

  /** `anti_conformity` of the validating module. */
  method AntiConformity(lattice: array2<int>, L: PyValue, replacement: PyValue, q: PyValue, p: PyValue,
                        draws: seq<Draw>) returns (outcome: Outcome)
    requires ValidateAntiConformity(L, replacement, q, p).Pass? ==>
               (CountLike(q, replacement) &&
                Simulation.Ready(lattice.Length0, lattice.Length1, AsInt(L), Dynamics.AntiConformity,
                                 AsBool(replacement), QCount(q), AsReal(p), draws))
    modifies lattice
    ensures outcome == ValidateAntiConformity(L, replacement, q, p)
    ensures outcome.Raise? ==> unchanged(lattice)
    ensures outcome.Pass? ==> Cells(lattice) == Run(old(Cells(lattice)), AsInt(L), Dynamics.AntiConformity,
                                                  AsBool(replacement), QCount(q), AsReal(p), draws)
  {
    outcome := ValidateAntiConformity(L, replacement, q, p);
    if outcome.Raise? {
      return;
    }
    Simulation.AntiConformity(lattice, AsInt(L), AsBool(replacement), QCount(q), AsReal(p), draws);
  }
}
