/**
 * The random draws of one update step, and the two ways the engine picks
 * neighbour indices. Every call to NumPy's generator is replaced by a raw
 * draw supplied by the caller; `RandInt` maps a raw draw into the half-open
 * range the source asks `np.random.randint` for.
 */
module Sampling {
  import opened Wrappers

  /** `np.random.randint(lo, hi)` applied to the raw draw `raw`. */
  function RandInt(lo: int, hi: int, raw: nat): (r: int)
    requires lo < hi
    ensures lo <= r < hi
  {
    lo + raw % (hi - lo)
  }

  /** Every value in [lo, hi) is drawn by some raw draw: `RandInt` misses nothing of the range. */
  lemma RandIntOnto(lo: int, hi: int, r: int)
    requires lo <= r < hi
    ensures RandInt(lo, hi, r - lo) == r
  {
  }

  /** Raw draws that name the given non-negative values themselves. */
  function AsRaw(s: seq<int>): (raw: seq<nat>)
    ensures |raw| == |s| && forall k :: 0 <= k < |s| && 0 <= s[k] ==> raw[k] == s[k]
  {
    seq(|s|, k requires 0 <= k < |s| => if s[k] < 0 then 0 else s[k])
  }

  predicate InRange(s: seq<int>, hi: int) {
    forall k :: 0 <= k < |s| ==> 0 <= s[k] < hi
  }

  predicate Distinct(s: seq<int>) {
    forall a, b :: 0 <= a < b < |s| ==> s[a] != s[b]
  }

  /**
   * `np.random.randint(0, 3, size=q)`: the first q raw draws, each mapped into
   * [0, 3). The upper bound 3 is exclusive, so index 3 (the neighbour above,
   * `(i - 1) % L`) is never drawn.
   */
  function WithReplacement(q: nat, picks: seq<nat>): (idx: seq<int>)
    requires q <= |picks|
    ensures |idx| == q && InRange(idx, 3)
  {
    seq(q, k requires 0 <= k < q => RandInt(0, 3, picks[k]))
  }

  /**
   * The rejection loop `while len(indexes) < q: new = randint(0, 4); if new
   * not in indexes: indexes.append(new)` run over the finite candidate stream
   * `stream`, starting from `acc`. None means the stream ran out before q
   * distinct indices were found, i.e. the source would draw more.
   */
  function Reject(stream: seq<nat>, q: int, acc: seq<int>): (r: Option<seq<int>>)
    ensures r.Some? ==> acc <= r.value && |r.value| == if |acc| >= q then |acc| else q
    ensures r.Some? && |acc| < q ==> |stream| >= q - |acc|
    decreases |stream|
  {
    if |acc| >= q then Some(acc)
    else if stream == [] then None
    else
      var c := RandInt(0, 4, stream[0]);
      if c in acc then Reject(stream[1..], q, acc)
      else
        assert acc <= acc + [c];
        Reject(stream[1..], q, acc + [c])
  }

  /** The without-replacement sample drawn from `stream`, if it suffices: q distinct indices in [0, 4). */
  function WithoutReplacement(stream: seq<nat>, q: int): (r: Option<seq<int>>)
    ensures r.Some? ==> |r.value| == (if q < 0 then 0 else q) && Distinct(r.value) && InRange(r.value, 4)
  {
    RejectSound(stream, q, []);
    Reject(stream, q, [])
  }

  /** The supplied draws let the sampler finish with q indices. */
  predicate Suffices(replacement: bool, q: int, picks: seq<nat>) {
    if replacement then 0 <= q <= |picks| else WithoutReplacement(picks, q).Some?
  }

  /** The indices the step samples, in either mode. */
  function Indices(replacement: bool, q: int, picks: seq<nat>): (idx: seq<int>)
    requires 0 <= q && Suffices(replacement, q, picks)
    ensures |idx| == q && InRange(idx, 4)
    ensures replacement ==> InRange(idx, 3)
    ensures !replacement ==> Distinct(idx)
  {
    if replacement then WithReplacement(q, picks) else WithoutReplacement(picks, q).value
  }

  /** Started from distinct indices in [0, 4), the rejection loop only ever holds such indices. */
  lemma {:induction false} RejectSound(stream: seq<nat>, q: int, acc: seq<int>)
    requires Distinct(acc) && InRange(acc, 4)
    ensures Reject(stream, q, acc).Some? ==>
      var r := Reject(stream, q, acc).value;
      Distinct(r) && InRange(r, 4)
    decreases |stream|
  {
    if |acc| >= q || stream == [] {
    } else {
      var c := RandInt(0, 4, stream[0]);
      if c in acc {
        RejectSound(stream[1..], q, acc);
      } else {
        RejectSound(stream[1..], q, acc + [c]);
      }
    }
  }

  /** Pigeonhole: no more than four distinct indices lie in [0, 4). */
  lemma AtMostFour(s: seq<int>)
    requires Distinct(s) && InRange(s, 4)
    ensures |s| <= 4
  {
    if |s| > 4 {
      FirstFive(s);
      assert false;
    }
  }

  lemma FirstFive(s: seq<int>)
    requires |s| >= 5
    ensures s[..5] == [s[0], s[1], s[2], s[3], s[4]]
  {
  }

  /** Four distinct indices in [0, 4) are 0, 1, 2 and 3 in some order. */
  lemma FourCoverAll(s: seq<int>)
    requires Distinct(s) && InRange(s, 4) && |s| == 4
    ensures forall v :: 0 <= v < 4 ==> v in s
  {
    forall v | 0 <= v < 4
      ensures v in s
    {
      if v !in s {
        FirstFour(s);
        assert false;
      }
    }
  }

  lemma FirstFour(s: seq<int>)
    requires |s| == 4
    ensures s == [s[0], s[1], s[2], s[3]]
  {
  }

  /**
   * The rejection loop can only finish when q <= 4: for q > 4 no candidate
   * stream, however long, lets it stop.
   */
  lemma {:induction false} RejectionNeedsAtMostFour(stream: seq<nat>, q: int)
    ensures WithoutReplacement(stream, q).Some? ==> q <= 4
  {
    if q > 0 && WithoutReplacement(stream, q).Some? {
      AtMostFour(WithoutReplacement(stream, q).value);
    }
  }

  /** A stream that suffices for q indices suffices for fewer, and yields a prefix of them. */
  lemma {:induction false} RejectMonotone(stream: seq<nat>, q: int, fewer: int, acc: seq<int>)
    requires fewer <= q && Reject(stream, q, acc).Some?
    ensures Reject(stream, fewer, acc).Some?
    ensures Reject(stream, fewer, acc).value <= Reject(stream, q, acc).value
    decreases |stream|
  {
    if |acc| < fewer && stream != [] {
      var c := RandInt(0, 4, stream[0]);
      RejectMonotone(stream[1..], q, fewer, if c in acc then acc else acc + [c]);
    }
  }

  /** The candidate stream draws the index v at some turn. */
  predicate Offers(stream: seq<nat>, v: int) {
    exists k :: 0 <= k < |stream| && RandInt(0, 4, stream[k]) == v
  }

  /** Fewer than |cands| values leave one of `cands` out. */
  lemma {:induction false} Missing(acc: seq<int>, cands: set<int>) returns (v: int)
    requires |acc| < |cands|
    ensures v in cands && v !in acc
    decreases |acc|
  {
    if acc == [] {
      if forall x :: x !in cands {
        assert false;
      }
      v :| v in cands;
    } else {
      v := Missing(acc[1..], cands - {acc[0]});
      assert acc == [acc[0]] + acc[1..];
    }
  }

  /**
   * For q <= 4 the rejection loop finishes on every candidate stream that
   * offers each index it does not yet hold: no particular order, repetition or
   * length of the stream is needed.
   */
  lemma {:induction false} CoveringStreamSuffices(stream: seq<nat>, q: int, acc: seq<int>)
    requires q <= 4
    requires forall v :: 0 <= v < 4 && v !in acc ==> Offers(stream, v)
    ensures Reject(stream, q, acc).Some?
    decreases |stream|
  {
    if |acc| < q {
      assert |{0, 1, 2, 3}| == 4;
      var v := Missing(acc, {0, 1, 2, 3});
      assert Offers(stream, v);
      var c := RandInt(0, 4, stream[0]);
      var next := if c in acc then acc else acc + [c];
      forall w | 0 <= w < 4 && w !in next
        ensures Offers(stream[1..], w)
      {
        var k :| 0 <= k < |stream| && RandInt(0, 4, stream[k]) == w;
        assert k != 0 && stream[1..][k - 1] == stream[k];
      }
      CoveringStreamSuffices(stream[1..], q, next);
    }
  }

  /** Every index the loop takes, it read from the stream. */
  lemma {:induction false} RejectReadsStream(stream: seq<nat>, q: int, acc: seq<int>)
    requires Reject(stream, q, acc).Some?
    ensures forall v :: v in Reject(stream, q, acc).value && v !in acc ==> Offers(stream, v)
    decreases |stream|
  {
    if |acc| < q {
      var c := RandInt(0, 4, stream[0]);
      var next := if c in acc then acc else acc + [c];
      RejectReadsStream(stream[1..], q, next);
      forall v | v in Reject(stream, q, acc).value && v !in acc
        ensures Offers(stream, v)
      {
        if v == c {
          assert RandInt(0, 4, stream[0]) == v;
        } else {
          assert Offers(stream[1..], v);
          var k :| 0 <= k < |stream[1..]| && RandInt(0, 4, stream[1..][k]) == v;
          assert stream[k + 1] == stream[1..][k];
        }
      }
    }
  }

  /** Four indices without replacement are drawn exactly when the stream offers each of 0..3. */
  lemma FourNeedEveryIndex(stream: seq<nat>)
    ensures WithoutReplacement(stream, 4).Some? <==> forall v :: 0 <= v < 4 ==> Offers(stream, v)
  {
    if WithoutReplacement(stream, 4).Some? {
      FourCoverAll(WithoutReplacement(stream, 4).value);
      RejectReadsStream(stream, 4, []);
    }
    if forall v :: 0 <= v < 4 ==> Offers(stream, v) {
      CoveringStreamSuffices(stream, 4, []);
    }
  }

  /** Every sequence of q indices in [0, 3) is a possible `randint(0, 3, size=q)`. */
  lemma WithReplacementOnto(idx: seq<int>)
    requires InRange(idx, 3)
    ensures WithReplacement(|idx|, AsRaw(idx)) == idx
  {
    assert forall k :: 0 <= k < |idx| ==> RandInt(0, 3, AsRaw(idx)[k]) == idx[k];
  }

  /**
   * Every sequence of distinct indices in [0, 4), in every order, is a possible
   * outcome of the rejection loop.
   */
  lemma WithoutReplacementOnto(s: seq<int>)
    requires Distinct(s) && InRange(s, 4)
    ensures WithoutReplacement(AsRaw(s), |s|) == Some(s)
  {
    RejectFrom(s, 0);
    assert AsRaw(s)[0..] == AsRaw(s);
  }

  /** Having drawn `s[..n]`, the loop draws the rest of `s` from the rest of its raw draws. */
  lemma {:induction false} RejectFrom(s: seq<int>, n: nat)
    requires Distinct(s) && InRange(s, 4) && n <= |s|
    ensures Reject(AsRaw(s)[n..], |s|, s[..n]) == Some(s)
    decreases |s| - n
  {
    if n < |s| {
      RejectFrom(s, n + 1);
      var raw := AsRaw(s)[n..];
      assert raw[0] == s[n] && RandInt(0, 4, raw[0]) == s[n];
      assert s[n] !in s[..n];
      assert raw[1..] == AsRaw(s)[n + 1..];
      assert s[..n] + [s[n]] == s[..n + 1];
    } else {
      assert s[..n] == s;
    }
  }

  /**
   * The rejection loop itself. It reads candidates from `stream` until it
   * holds q distinct indices; the result is what `WithoutReplacement`
   * describes: q pairwise-distinct indices in [0, 4), and every one of them
   * when q == 4.
   */
  method SampleWithoutReplacement(stream: seq<nat>, q: int) returns (indexes: seq<int>)
    requires 0 <= q && WithoutReplacement(stream, q).Some?
    ensures WithoutReplacement(stream, q) == Some(indexes)
    ensures |indexes| == q <= 4 && Distinct(indexes) && InRange(indexes, 4)
    ensures q == 4 ==> forall v :: 0 <= v < 4 ==> v in indexes
  {
    indexes := [];
    var k := 0;
    while |indexes| < q
      invariant 0 <= k <= |stream|
      invariant Reject(stream[k..], q, indexes) == WithoutReplacement(stream, q)
      decreases |stream| - k
    {
      assert stream[k..] != [];
      var next := RandInt(0, 4, stream[k]);
      if next !in indexes {
        indexes := indexes + [next];
      }
      assert stream[k..][1..] == stream[k + 1..];
      k := k + 1;
    }
    RejectSound(stream, q, []);
    AtMostFour(indexes);
    if q == 4 {
      FourCoverAll(indexes);
    }
  }
}
