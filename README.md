# q-voter lattice engine in Dafny

This project models the core of a q-voter opinion-dynamics simulator. The simulator works on an `L x L`
periodic lattice of agents, each holding opinion -1 or +1. One engine call runs `L` elementary steps.
Each step:

1. picks a cell `(i, j)`;
2. reads that cell's four toroidal neighbours;
3. samples `q` of the neighbour indices, with replacement or by rejection sampling without replacement;
4. updates the cell.

There are two update rules:

- **independence**: with `U < p` the cell flips when a second draw is below `f`. Otherwise it conforms: it takes
  the sampled opinion when the sample is unanimous.
- **anti-conformity**: a unanimous sample sets the cell to the sampled opinion, or to its negation when `U < p`.

The repository holds the engine twice, with the same step loop in both copies:

- `simulation.py` does not validate its arguments;
- `scripts/simulation.py` first runs the parameter checkers of `scripts/checkers.py`.

The project also models the integer initial lattices: stripes, chessboard, random and solid.

Every random draw is an explicit input. A `Dynamics.Draw` record holds one step's draws:

- raw draws for `i` and `j`;
- `U`;
- the spin-flip draw;
- the raw stream the index sampler reads.

`Sampling.RandInt(lo, hi, raw) = lo + raw % (hi - lo)` stands for `np.random.randint(lo, hi)`. So the ranges
`[0, L)`, `[0, 3)` and `[0, 4)` come from the code's own constants; they are not assumed.

The engine keeps its lattice in an `array2<int>` and overwrites the visited cell in place. The step loop, the
rejection loop and the stripes initializer are methods with loop invariants. Each method is proved against a
function on lattice values (`Dynamics.Step`, `Dynamics.Run`, `Sampling.WithoutReplacement`,
`Lattices.VerticalStripes`). The properties are then proved about those functions.

Modules and files:

| file | module | models |
|---|---|---|
| `wrappers.dfy` | `Wrappers` | the `Option` type |
| `grid.dfy` | `Grid` | lattices as values; reading an array as a value; the in-place write |
| `sampling.dfy` | `Sampling` | randint; the with-replacement sampler; the rejection loop |
| `dynamics.dfy` | `Dynamics` | neighbours, the unanimity test and the update rules; `Step` and `Run` |
| `simulation.dfy` | `Simulation` | `simulation.py`: the unvalidated engine on `array2<int>` |
| `checkers.dfy` | `Checkers` | `scripts/checkers.py` over a small Python value type |
| `checked_simulation.dfy` | `CheckedSimulation` | `scripts/simulation.py`: validation, then the engine |
| `lattices.dfy` | `Lattices` | `scripts/lattices.py` |
| `root_lattices.dfy` | `RootLattices` | `lattices.py` |

## Decisions

- The loop bodies of `scripts/simulation.py` and `simulation.py` are identical. `Simulation` models them once.
  `CheckedSimulation` runs the checkers and then calls `Simulation`. So the two copies end in the same lattice
  once validation passes, because both are specified by the same `Dynamics.Run`.
- `chessboard` is `2*((i+j)%2)-1`. Cell (0, 0) holds -1, and the cells with `i + j` odd hold +1. The model
  follows this code, not a reading in which the even cells hold +1.
- `is_proper_q` is modelled as written: `q > 4 and not isinstance(q, int)`. It passes every int, including
  0 and 5. `CheckedSimulation.ValidationAdmitsUnusableQ` shows that validation lets through `q` values that
  no step can use.
- A step needs `q >= 1` only when it draws a sample (`Dynamics.DrawReady`). The independence branch
  `U < p` draws none.
  - Without replacement, the candidate stream must let the rejection loop finish. That already forces `q <= 4`
    (`Sampling.RejectionNeedsAtMostFour`).
  - With replacement, `randint(0, 3, size=q)` also works for `q > 4`.
- The engine indexes only `[0, L)`. So it needs a lattice of at least `L x L`, not exactly `L x L`. The
  dashboard calls it with `L = N` (app.py:202, 204).
- Python's `%` on a positive modulus agrees with Dafny's Euclidean `%`. So `(j - 1) % L` is `L - 1` at `j = 0`
  in both (`Dynamics.WrapStep`).
- Python's `bool` is a subclass of `int`. `is_positive_integer(True)` passes, and `AsInt` reads `True` as 1.
  `is_probability` rejects ints, even 0 and 1.

## Model

| member | source | states |
|---|---|---|
| `Sampling.RandInt` | scripts/simulation.py:27 | a randint draw lies in `[lo, hi)` |
| `Sampling.RandIntOnto` | scripts/simulation.py:27 | every value in `[lo, hi)` is the draw of some raw input, so no cell, index or candidate the source can draw is missing from the model |
| `Sampling.AsRaw` | scripts/simulation.py:37 | raw draws that name given non-negative values, one per value |
| `Sampling.WithReplacement` | scripts/simulation.py:37-38 | `randint(0, 3, size=q)` gives q indices, each in `[0, 3)`, so index 3 (the `(i-1) % L` neighbour) is never drawn |
| `Sampling.WithReplacementOnto` | scripts/simulation.py:37 | every sequence of q indices in `[0, 3)` is a possible `randint(0, 3, size=q)` |
| `Sampling.Indices` | scripts/simulation.py:36-45 | either sampler yields q indices in `[0, 4)`; with replacement they lie in `[0, 3)`; without replacement they are pairwise distinct |
| `Sampling.Reject` | simulation.py:29-33 | when the loop finishes, its indices extend the ones it started with and number exactly q (or what it started with, when that is already q or more); it has read at least the missing number of candidates |
| `Sampling.WithoutReplacement` | simulation.py:29-33 | a finished loop started from `[]` holds exactly q indices (none for q < 0), pairwise distinct and in `[0, 4)` |
| `Sampling.RejectSound` | scripts/simulation.py:40-44 | started from pairwise-distinct indices in `[0, 4)`, the rejection loop only ever holds such indices |
| `Sampling.RejectionNeedsAtMostFour` | scripts/simulation.py:41-44 | no candidate stream lets the rejection loop finish when q > 4 |
| `Sampling.RejectMonotone` | simulation.py:30-33 | a stream that suffices for q indices suffices for fewer, and yields a prefix of the larger sample |
| `Sampling.CoveringStreamSuffices` | simulation.py:30-33 | for q <= 4 the loop finishes on every candidate stream that offers, somewhere and in any order, each index it does not yet hold |
| `Sampling.RejectReadsStream` | simulation.py:31-33 | every index the loop adds was drawn from the candidate stream |
| `Sampling.FourNeedEveryIndex` | simulation.py:29-33 | for q = 4 the loop finishes exactly when the stream offers every one of 0, 1, 2 and 3 |
| `Sampling.SampleWithoutReplacement` | simulation.py:29-34 | the while loop returns the sample `WithoutReplacement` describes: q distinct indices in `[0, 4)` with q <= 4, and every one of 0..3 when q = 4 |
| `Sampling.WithoutReplacementOnto` | scripts/simulation.py:40-44 | every sequence of distinct indices in `[0, 4)`, in any order, is a possible outcome of the rejection loop |
| `Sampling.RejectFrom` | scripts/simulation.py:41-44 | once the loop holds a prefix of a sequence of distinct indices, the raw draws naming the rest complete it |
| `Dynamics.Pick` | simulation.py:16 | the visited cell lies in `[0, L) x [0, L)` |
| `Dynamics.PickOnto` | simulation.py:16 | every coordinate in `[0, L)` can be picked, so every cell of the torus can be visited |
| `Dynamics.WrapStep` | simulation.py:23-24 | `(x+1) % L` and `(x-1) % L` wrap from L-1 to 0 and from 0 to L-1, and are otherwise x+1 and x-1 |
| `Dynamics.NeighbourPositions` | simulation.py:23-24 | the four positions are, in this order, right, left, below and above (i, j), each wrapping at the edge; each is in bounds and a nearest neighbour of (i, j) on the torus |
| `Dynamics.Neighbours` | simulation.py:23-24 | the step reads exactly four values, namely the lattice at the four neighbour positions |
| `Dynamics.Chosen` | simulation.py:27 | element k of `chosen` is `neighbours[indexes[k]]` |
| `Dynamics.Sample` | simulation.py:25-34 | the sample has q opinions, each one of the cell's neighbours; with replacement each comes from the first three neighbours |
| `Dynamics.Sum` | simulation.py:35 | a sum of n spins lies in `[-n, n]` |
| `Dynamics.SumOfSpins` | simulation.py:35 | a sum of n spins is n exactly when all are +1, and -n exactly when all are -1 |
| `Dynamics.Unanimous` | simulation.py:35 | for q >= 1 spins, `sum == q or sum == -q` holds exactly when all sampled opinions are equal |
| `Dynamics.EmptySampleIsUnanimous` | simulation.py:35-36 | with q = 0 the empty sample passes the unanimity test, so `chosen[0]` would be read from an empty list |
| `Dynamics.Conform` | simulation.py:35-36 | a sample of spins that agrees sets the cell to `chosen[0]`; one that does not agree leaves the cell |
| `Dynamics.AntiConform` | simulation.py:65-67 | a sample of spins that agrees sets the cell to `-chosen[0]`; one that does not agree leaves the cell |
| `Dynamics.SampleIsSpins` | simulation.py:23-34 | a sample taken from a lattice of spins holds only spins |
| `Dynamics.NewSpin` | simulation.py:17-36 | on a lattice of spins the visited cell's new opinion, in every branch of both variants, is -1 or +1 |
| `Dynamics.Step` | simulation.py:16-36 | a step keeps the lattice's shape, gives the visited cell its new opinion, and changes no other cell |
| `Dynamics.Run` | simulation.py:15-37 | a run of steps keeps the lattice's shape |
| `Dynamics.StepKeepsSpins` | simulation.py:17-36 | on a lattice of spins, every cell after the step is -1 or +1 |
| `Dynamics.RunKeepsSpins` | simulation.py:15-71 | every cell stays -1 or +1 through a whole call, in both variants |
| `Dynamics.IndependenceBranch` | simulation.py:19-21 | when `U < p`, the new opinion ignores the neighbours; it differs from the old one exactly when the flip draw is below f |
| `Dynamics.SampleRule` | simulation.py:64-70 | in the sampling branches the new opinion is the cell itself if the sample does not agree; otherwise it is `-chosen[0]` in the anti-conformity branch (`U < p`) and `chosen[0]` in the conformity branch |
| `Dynamics.ConsensusIsStable` | simulation.py:35-36 | an all-+1 lattice stays all +1 while every step takes the conformity branch |
| `Dynamics.StepKeepsConsensus` | simulation.py:69-70 | one conformity step on an all-+1 lattice samples only +1 opinions and leaves the lattice all +1 |
| `Simulation.ReadNeighbours` | simulation.py:52-53 | the four array reads give `Neighbours` of the current lattice |
| `Simulation.DrawIndices` | simulation.py:54-63 | the sampler chosen by `replacement` returns `Indices` |
| `Simulation.IndependenceStep` | simulation.py:16-36 | one loop body of `independence` leaves the array as `Step` leaves the lattice |
| `Simulation.Observe` | simulation.py:51-63 | the reads of one `anti_conformity` step visit cell `(Pick(L, ri), Pick(L, rj))` and return its `Sample` from the current lattice |
| `Simulation.AntiConformityStep` | simulation.py:51-70 | one loop body of `anti_conformity` leaves the array as `Step` leaves the lattice |
| `Simulation.Independence` | simulation.py:4-37 | `independence` leaves the array as `Run` of the independence variant leaves the lattice; with L <= 0 the array is unchanged |
| `Simulation.AntiConformity` | simulation.py:40-71 | `anti_conformity` leaves the array as `Run` of the anti-conformity variant leaves the lattice; with L <= 0 the array is unchanged |
| `Grid.Set` | simulation.py:36 | writing `lattice[i][j]` keeps the shape and changes only cell (i, j); writing the old value changes nothing |
| `Grid.Write` | scripts/simulation.py:47 | the in-place array write is `Set` on the array's contents |
| `Checkers.IsInstanceInt` | scripts/checkers.py:6 | `isinstance(v, int)` holds of every bool and of no float or other value; an int value compares as the number its integer stands for |
| `Checkers.IsPositiveInteger` | scripts/checkers.py:5-7 | passes exactly the ints >= 0 and the bools; otherwise it raises a ValueError that names the value |
| `Checkers.IsProbability` | scripts/checkers.py:9-11 | passes exactly the floats in `[0, 1]`; ints, bools and other values raise |
| `Checkers.IsBool` | scripts/checkers.py:13-15 | passes exactly the bools |
| `Checkers.IsProperQ` | scripts/checkers.py:17-19 | passes every int and bool and every float <= 4; a float > 4 raises the ValueError that names it; a value that does not compare with 4 raises TypeError |
| `Checkers.Then` | scripts/simulation.py:21-25 | validation passes when both checks pass; a raise of the first check is reported as it is, and otherwise the outcome is the second check's |
| `CheckedSimulation.ValidateIndependence` | scripts/simulation.py:21-25 | passes exactly when each of the five checks passes, in any order; passing means L is a non-negative int, p and f are floats in `[0, 1]`, and replacement is a bool; a raise is the raise of the first failing check in the order L, p, f, replacement, q |
| `CheckedSimulation.ValidateAntiConformity` | scripts/simulation.py:61-64 | the same for the four checks of `anti_conformity`, in the order L, p, replacement, q |
| `CheckedSimulation.ValidationAdmitsUnusableQ` | scripts/checkers.py:17-19 | validation passes q = 0, whose empty sample is "unanimous", and q = 5 without replacement, for which no stream lets the rejection loop finish |
| `CheckedSimulation.QCount` | scripts/simulation.py:41 | an int q counts as itself, and an integral float q as the integer it equals |
| `CheckedSimulation.IntegralQActsAsInt` | scripts/simulation.py:41-46 | for an integral float q, `len(indexes) < q` and `sum(chosen) == q or sum(chosen) == -q` give the answers they give for its integer value |
| `CheckedSimulation.Independence` | scripts/simulation.py:10-48 | returns the validation outcome; on a raise the lattice is untouched; on a pass it ends as the unvalidated `independence` leaves it, run with the count q stands for (an int, or an integral float without replacement) |
| `CheckedSimulation.AntiConformity` | scripts/simulation.py:51-86 | the same for `anti_conformity` |
| `Lattices.VerticalStripes` | scripts/lattices.py:7-10 | an N x N lattice of spins whose cell (r, c) is -1 exactly when c < N // 2 |
| `Lattices.TwoVerticalStripes` | scripts/lattices.py:7-10 | `np.ones` followed by the in-place write of -1 into columns `[0, N // 2)` leaves a fresh array equal to `VerticalStripes(N)` |
| `Lattices.StripesMinusCount` | scripts/lattices.py:9 | the stripes lattice has exactly `N * (N // 2)` cells holding -1 |
| `Lattices.Chessboard` | scripts/lattices.py:37-38 | an N x N lattice of spins; a cell holds +1 exactly when i + j is odd, and cell (0, 0) holds -1 |
| `Lattices.ChessboardNeighboursDisagree` | scripts/lattices.py:38 | on an even torus all four neighbours of every chessboard cell hold the opposite opinion |
| `Lattices.RandomLattice` | scripts/lattices.py:41-42 | an N x N lattice with every cell -1 or +1 |
| `Lattices.RandomLatticeReachesEveryLattice` | scripts/lattices.py:42 | every N x N lattice of spins is produced by some choice of draws |
| `Lattices.Solid` | scripts/lattices.py:45-46 | an N x N lattice with every cell +1 |
| `Lattices.SolidStaysSolid` | app.py:201-204 | driven with L = N and p = 0, a solid lattice comes back solid in both variants |
| `RootLattices.Block` | lattices.py:15-16 | `v * np.ones((rows, cols))` is a rows x cols block with every cell v |
| `RootLattices.ConcatColumns` | lattices.py:17 | concatenating along axis 1 puts row r of the first block before row r of the second |
| `RootLattices.TwoStripes` | lattices.py:8-17 | an N x N lattice; each row has `N // 2` cells of -1 followed by `N - N // 2` cells of +1 |
| `RootLattices.TwoStripesIsVerticalStripes` | lattices.py:14-17 | `two_stripes(N)` equals `two_vertical_stripes(N)` of the validating module, for every N |

`chessboard`, `random_lattice` and `solid` in `lattices.py` (lines 62-86) are the same expressions as in
`scripts/lattices.py`. The `Lattices` members model both copies.

## Left out

- `app.py` (the Dash layout, callbacks, figures, stored state, interval timer and mean plotting) is driver
  and UI code. Only its call with `L = N` is reflected, in `Lattices.SolidStaysSolid`.
- `diagonal_stripes`, `circle` and `ring`, in both lattice files, are left out. They compare `np.linspace`
  floating-point coordinates, and exact reals would not reproduce the float masks at boundary cells.
- The probability distributions are left out: the uniformity of `randint`, `rand` and `choice`, and the
  meaning of p and f as probabilities. Every draw is an input.
- The rejection loop's almost-sure termination is not modelled. The loop runs over a finite supplied
  candidate stream, which the precondition requires to be long enough. `Sampling.CoveringStreamSuffices`
  and `Sampling.FourNeedEveryIndex` say which streams are.
- NumPy dtypes are not modelled: `np.ones` gives floats and `chessboard` gives ints. All spins are `int`.
- `Checkers.IsProbability`: a `PyFloat` holds a real, so NaN and infinities are not modelled. In Python,
  `is_probability(nan)` passes, because every comparison with NaN is false.
- Checker messages are modelled as the failing check plus the value given, not as formatted strings.
- The preconditions of `Simulation.Independence`, `Simulation.AntiConformity` and `Dynamics.Run` leave out
  three inputs:
  - a lattice smaller than `L x L`, which raises IndexError in the first step whose cell or neighbour lies
    outside it, and finishes only when the draws happen to stay inside;
  - `q = 0` in a step that samples, which reads `chosen[0]` of an empty list, or a negative `q` with
    replacement, for which `randint` raises;
  - a negative `q` without replacement, which quietly never matches.
- `CheckedSimulation.Independence` and `CheckedSimulation.AntiConformity` model a float `q <= 4`, which passes
  `is_proper_q`, only when it is integral and `replacement` is false. Such a q runs as the int it equals
  (`CheckedSimulation.IntegralQActsAsInt`). Two kinds of float q are left out:
  - with replacement, `randint(0, 3, size=q)`: NumPy refuses a float size, so the first step that samples
    raises TypeError; calls that never sample finish.
  - a non-integral float without replacement: the loop draws the least integer above q of indices (none when
    q < 0), and an int sum never equals q or -q, so no sampling step changes the lattice.
- A negative `N` for the initializers becomes a NumPy error in the source; `N` is a `nat` here.
