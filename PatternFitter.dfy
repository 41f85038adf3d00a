/** The pattern fitter: for one seed and one charge, walks away from the seed
    in m/z, taking at each step the tallest pool peak found at the expected
    isotope position (fitPattern and fitHalfPattern). */
module PatternFitter {
  import opened Peaks
  import opened Tolerance

  /** A peak is a good candidate for the n-th isotope when it matches the
      expected position and is not already part of the fitted peaks. */
  predicate IsCandidate(c: Peak, seed: Peak, charge: int, direction: int, n: nat, fitted: seq<Peak>, p: Params)
    requires charge != 0
  {
    Matches(c, seed, charge, direction, n, p) && c !in fitted
  }

  /** The good candidates for the n-th isotope, in pool order. */
  function Candidates(pool: Pool, seed: Peak, charge: int, direction: int, n: nat, fitted: seq<Peak>, p: Params): (r: seq<Peak>)
    requires charge != 0
    ensures |r| <= |pool|
  {
    if pool == [] then []
    else
      var init := pool[..|pool| - 1];
      assert pool == init + [pool[|pool| - 1]];
      var rest := Candidates(init, seed, charge, direction, n, fitted, p);
      match pool[|pool| - 1]
      case None => rest
      case Some(c) => if IsCandidate(c, seed, charge, direction, n, fitted, p) then rest + [c] else rest
  }

  /** The good candidates are exactly the pool peaks that qualify. */
  lemma {:induction false} CandidateIn(pool: Pool, seed: Peak, charge: int, direction: int, n: nat,
                                       fitted: seq<Peak>, p: Params, c: Peak)
    requires charge != 0
    ensures c in Candidates(pool, seed, charge, direction, n, fitted, p) <==>
            Some(c) in pool && IsCandidate(c, seed, charge, direction, n, fitted, p)
  {
    if pool != [] {
      var init := pool[..|pool| - 1];
      assert pool == init + [pool[|pool| - 1]];
      CandidateIn(init, seed, charge, direction, n, fitted, p, c);
    }
  }

  /** A good candidate is a pool peak that is not fitted yet. */
  lemma CandidateUnfitted(pool: Pool, seed: Peak, charge: int, direction: int, n: nat,
                          fitted: seq<Peak>, p: Params, c: Peak)
    requires charge != 0
    requires c in Candidates(pool, seed, charge, direction, n, fitted, p)
    ensures Some(c) in pool && c !in fitted
  {
    CandidateIn(pool, seed, charge, direction, n, fitted, p, c);
  }

  /** s[k] is the tallest peak of s and no peak before it is as tall: the
      peak a scan keeping the first strict maximum ends with. */
  predicate FirstTallestAt(s: seq<Peak>, k: int) {
    && 0 <= k < |s|
    && (forall j :: 0 <= j < |s| ==> s[j].height <= s[k].height)
    && (forall j :: 0 <= j < k ==> s[j].height < s[k].height)
  }

  /** The position of the candidate the selection picks. */
  function BestIndex(s: seq<Peak>): (k: nat)
    requires |s| > 0
    ensures FirstTallestAt(s, k)
  {
    if |s| == 1 then 0
    else
      var k := BestIndex(s[..|s| - 1]);
      if s[k].height < s[|s| - 1].height then |s| - 1 else k
  }

  /** The number of pool slots holding a peak that is not among `fitted`:
      what a search can still add. */
  function Unfitted(pool: Pool, fitted: seq<Peak>): (k: nat)
    ensures k <= NonNullCount(pool)
  {
    if pool == [] then 0
    else
      var last := pool[|pool| - 1];
      Unfitted(pool[..|pool| - 1], fitted) + (if last.Some? && last.value !in fitted then 1 else 0)
  }

  /** Fitting one more peak never adds unfitted slots, and fitting a pool
      peak that was not fitted before removes at least one. */
  lemma {:induction false} UnfittedShrinks(pool: Pool, fitted: seq<Peak>, b: Peak)
    ensures Unfitted(pool, fitted + [b]) <= Unfitted(pool, fitted)
    ensures Some(b) in pool && b !in fitted ==> Unfitted(pool, fitted + [b]) < Unfitted(pool, fitted)
  {
    if pool != [] {
      var init := pool[..|pool| - 1];
      assert pool == init + [pool[|pool| - 1]];
      UnfittedShrinks(init, fitted, b);
    }
  }

  /** A seed that sits in the pool is not among its own unfitted slots. */
  lemma {:induction false} UnfittedAroundSeed(pool: Pool, seed: Peak)
    ensures Some(seed) in pool ==> Unfitted(pool, [seed]) < NonNullCount(pool)
  {
    if pool != [] {
      var init := pool[..|pool| - 1];
      assert pool == init + [pool[|pool| - 1]];
      UnfittedAroundSeed(init, seed);
    }
  }

  /** The peaks one half-pattern search ends with when it starts from
      `fitted` at step n: while the n-th isotope has candidates, the tallest
      of them is appended and the search moves on to step n + 1. */
  function HalfFit(pool: Pool, seed: Peak, charge: int, direction: int, p: Params, fitted: seq<Peak>, n: nat): (r: seq<Peak>)
    requires charge != 0
    ensures |fitted| <= |r|
    decreases Unfitted(pool, fitted)
  {
    var cands := Candidates(pool, seed, charge, direction, n, fitted, p);
    if cands == [] then fitted
    else
      var best := cands[BestIndex(cands)];
      CandidateUnfitted(pool, seed, charge, direction, n, fitted, p, best);
      UnfittedShrinks(pool, fitted, best);
      HalfFit(pool, seed, charge, direction, p, fitted + [best], n + 1)
  }

  /** A half-pattern search only appends: it ends with the peaks it started
      from, followed by the ones it found. */
  lemma {:induction false} HalfFitPrefix(pool: Pool, seed: Peak, charge: int, direction: int, p: Params,
                                         fitted: seq<Peak>, n: nat)
    requires charge != 0
    ensures HalfFit(pool, seed, charge, direction, p, fitted, n)[..|fitted|] == fitted
    decreases Unfitted(pool, fitted)
  {
    var cands := Candidates(pool, seed, charge, direction, n, fitted, p);
    if cands != [] {
      var best := cands[BestIndex(cands)];
      CandidateUnfitted(pool, seed, charge, direction, n, fitted, p, best);
      UnfittedShrinks(pool, fitted, best);
      var r := HalfFit(pool, seed, charge, direction, p, fitted + [best], n + 1);
      HalfFitPrefix(pool, seed, charge, direction, p, fitted + [best], n + 1);
      assert r[..|fitted|] == r[..|fitted| + 1][..|fitted|];
    }
  }

  /** A half-pattern search stops only when the next isotope position has
      no candidate left. */
  lemma {:induction false} HalfFitStops(pool: Pool, seed: Peak, charge: int, direction: int, p: Params,
                                        fitted: seq<Peak>, n: nat)
    requires charge != 0
    ensures var r := HalfFit(pool, seed, charge, direction, p, fitted, n);
            Candidates(pool, seed, charge, direction, n + |r| - |fitted|, r, p) == []
    decreases Unfitted(pool, fitted)
  {
    var cands := Candidates(pool, seed, charge, direction, n, fitted, p);
    if cands != [] {
      var best := cands[BestIndex(cands)];
      CandidateUnfitted(pool, seed, charge, direction, n, fitted, p, best);
      UnfittedShrinks(pool, fitted, best);
      var f' := fitted + [best];
      HalfFitStops(pool, seed, charge, direction, p, f', n + 1);
      var r := HalfFit(pool, seed, charge, direction, p, f', n + 1);
      assert HalfFit(pool, seed, charge, direction, p, fitted, n) == r;
      assert n + 1 + |r| - |f'| == n + |r| - |fitted|;
    }
  }

  /** The peak chosen at a step of the search: among the good candidates
      for that step (given the peaks fitted so far) it is the one the
      selection picks, hence the tallest, the earliest among equally tall
      ones; it came from a non-null pool slot, was not fitted before, and
      lies within both tolerances of the expected isotope position. */
  predicate ChosenAt(pool: Pool, seed: Peak, charge: int, direction: int, p: Params, r: seq<Peak>, k: int, step: nat)
    requires charge != 0 && 0 <= k < |r|
  {
    var cands := Candidates(pool, seed, charge, direction, step, r[..k], p);
    && cands != []
    && r[k] == cands[BestIndex(cands)]
    && (forall c :: c in cands ==> c.height <= r[k].height)
    && Some(r[k]) in pool
    && r[k] !in r[..k]
    && Matches(r[k], seed, charge, direction, step, p)
  }

  /** When the n-th isotope has candidates, the search appends the one the
      selection picks and goes on from step n + 1. */
  lemma HalfFitFirst(pool: Pool, seed: Peak, charge: int, direction: int, p: Params, fitted: seq<Peak>, n: nat)
    requires charge != 0
    requires Candidates(pool, seed, charge, direction, n, fitted, p) != []
    ensures var cands := Candidates(pool, seed, charge, direction, n, fitted, p);
            var r := HalfFit(pool, seed, charge, direction, p, fitted, n);
            && |fitted| < |r|
            && r[..|fitted|] == fitted
            && r[|fitted|] == cands[BestIndex(cands)]
  {
    var cands := Candidates(pool, seed, charge, direction, n, fitted, p);
    var best := cands[BestIndex(cands)];
    CandidateUnfitted(pool, seed, charge, direction, n, fitted, p, best);
    UnfittedShrinks(pool, fitted, best);
    var f' := fitted + [best];
    var r := HalfFit(pool, seed, charge, direction, p, f', n + 1);
    assert HalfFit(pool, seed, charge, direction, p, fitted, n) == r;
    HalfFitPrefix(pool, seed, charge, direction, p, f', n + 1);
    assert r[..|fitted|] == r[..|f'|][..|fitted|];
    assert r[|fitted|] == r[..|f'|][|fitted|];
  }

  /** The first peak a half-pattern search adds, when there is one, is the
      peak chosen at step n. */
  lemma HalfFitFirstAdded(pool: Pool, seed: Peak, charge: int, direction: int, p: Params,
                          fitted: seq<Peak>, n: nat)
    requires charge != 0
    requires |fitted| < |HalfFit(pool, seed, charge, direction, p, fitted, n)|
    ensures ChosenAt(pool, seed, charge, direction, p, HalfFit(pool, seed, charge, direction, p, fitted, n), |fitted|, n)
  {
    var r := HalfFit(pool, seed, charge, direction, p, fitted, n);
    var cands := Candidates(pool, seed, charge, direction, n, fitted, p);
    assert cands != [];
    HalfFitFirst(pool, seed, charge, direction, p, fitted, n);
    var best := r[|fitted|];
    CandidateIn(pool, seed, charge, direction, n, fitted, p, best);
    forall c | c in cands ensures c.height <= best.height {
      var j :| 0 <= j < |cands| && cands[j] == c;
    }
  }

  /** Every peak a half-pattern search adds, at position k of the result,
      is the peak chosen at step n + k - |fitted|. */
  lemma {:induction false} HalfFitAdded(pool: Pool, seed: Peak, charge: int, direction: int, p: Params,
                                        fitted: seq<Peak>, n: nat, k: int, step: nat)
    requires charge != 0
    requires |fitted| <= k < |HalfFit(pool, seed, charge, direction, p, fitted, n)|
    requires step == n + k - |fitted|
    ensures ChosenAt(pool, seed, charge, direction, p, HalfFit(pool, seed, charge, direction, p, fitted, n), k, step)
    decreases Unfitted(pool, fitted)
  {
    if k == |fitted| {
      HalfFitFirstAdded(pool, seed, charge, direction, p, fitted, n);
    } else {
      var cands := Candidates(pool, seed, charge, direction, n, fitted, p);
      assert cands != [];
      var best := cands[BestIndex(cands)];
      CandidateUnfitted(pool, seed, charge, direction, n, fitted, p, best);
      UnfittedShrinks(pool, fitted, best);
      var f' := fitted + [best];
      assert HalfFit(pool, seed, charge, direction, p, fitted, n) == HalfFit(pool, seed, charge, direction, p, f', n + 1);
      HalfFitAdded(pool, seed, charge, direction, p, f', n + 1, k, step);
    }
  }

  /** A half-pattern search keeps the fitted peaks free of duplicates. */
  lemma {:induction false} HalfFitDistinct(pool: Pool, seed: Peak, charge: int, direction: int, p: Params,
                                           fitted: seq<Peak>, n: nat)
    requires charge != 0
    requires Distinct(fitted)
    ensures Distinct(HalfFit(pool, seed, charge, direction, p, fitted, n))
    decreases Unfitted(pool, fitted)
  {
    var cands := Candidates(pool, seed, charge, direction, n, fitted, p);
    if cands != [] {
      var best := cands[BestIndex(cands)];
      CandidateUnfitted(pool, seed, charge, direction, n, fitted, p, best);
      UnfittedShrinks(pool, fitted, best);
      HalfFitDistinct(pool, seed, charge, direction, p, fitted + [best], n + 1);
    }
  }

  /** Each step moves at least one pool slot into the fitted set, so the
      fitted size grows by no more than the unfitted slots shrink. */
  lemma {:induction false} HalfFitBalance(pool: Pool, seed: Peak, charge: int, direction: int, p: Params,
                                          fitted: seq<Peak>, n: nat)
    requires charge != 0
    ensures var r := HalfFit(pool, seed, charge, direction, p, fitted, n);
            |r| + Unfitted(pool, r) <= |fitted| + Unfitted(pool, fitted)
    decreases Unfitted(pool, fitted)
  {
    var cands := Candidates(pool, seed, charge, direction, n, fitted, p);
    if cands != [] {
      var best := cands[BestIndex(cands)];
      CandidateUnfitted(pool, seed, charge, direction, n, fitted, p, best);
      UnfittedShrinks(pool, fitted, best);
      HalfFitBalance(pool, seed, charge, direction, p, fitted + [best], n + 1);
    }
  }

  /** Every peak a half-pattern search ends with was fitted before or sits
      in the pool. */
  lemma HalfFitFromPool(pool: Pool, seed: Peak, charge: int, direction: int, p: Params,
                        fitted: seq<Peak>, n: nat)
    requires charge != 0
    ensures forall q :: q in HalfFit(pool, seed, charge, direction, p, fitted, n) ==> q in fitted || Some(q) in pool
  {
    var r := HalfFit(pool, seed, charge, direction, p, fitted, n);
    HalfFitPrefix(pool, seed, charge, direction, p, fitted, n);
    forall q | q in r ensures q in fitted || Some(q) in pool {
      var k :| 0 <= k < |r| && r[k] == q;
      if k < |fitted| {
        assert q == r[..|fitted|][k];
      } else {
        HalfFitAdded(pool, seed, charge, direction, p, fitted, n, k, n + k - |fitted|);
      }
    }
  }

  /** The fitted peaks for one charge, starting from `fitted` (the seed):
      nothing for charge 0; otherwise the left half (direction -1, skipped
      for a monotonic shape) and then the right half (direction +1), both
      growing the same fitted peaks. */
  function Fit(pool: Pool, seed: Peak, charge: int, p: Params, fitted: seq<Peak>): seq<Peak> {
    if charge == 0 then fitted
    else
      var left := if p.monotonicShape then fitted else HalfFit(pool, seed, charge, -1, p, fitted, 1);
      HalfFit(pool, seed, charge, 1, p, left, 1)
  }

  /** The shape a fitted list keeps while it grows: the seed first, no
      duplicates, every other member a pool peak, and every peak added
      beyond the seed paid for by one unfitted pool slot. */
  predicate FitShape(pool: Pool, seed: Peak, fitted: seq<Peak>) {
    && |fitted| >= 1 && fitted[0] == seed
    && Distinct(fitted)
    && (forall q :: q in fitted ==> q == seed || Some(q) in pool)
    && |fitted| + Unfitted(pool, fitted) <= 1 + Unfitted(pool, [seed])
  }

  /** A half-pattern search from step 1 keeps the shape. */
  lemma HalfFitKeepsShape(pool: Pool, seed: Peak, charge: int, direction: int, p: Params, fitted: seq<Peak>)
    requires charge != 0 && FitShape(pool, seed, fitted)
    ensures FitShape(pool, seed, HalfFit(pool, seed, charge, direction, p, fitted, 1))
  {
    var r := HalfFit(pool, seed, charge, direction, p, fitted, 1);
    HalfFitPrefix(pool, seed, charge, direction, p, fitted, 1);
    assert r[0] == r[..|fitted|][0];
    HalfFitDistinct(pool, seed, charge, direction, p, fitted, 1);
    HalfFitBalance(pool, seed, charge, direction, p, fitted, 1);
    HalfFitFromPool(pool, seed, charge, direction, p, fitted, 1);
  }

  /** What a pattern fitted around a seed looks like: the seed first, no
      duplicates, every other member a pool peak, and so at most one more
      peak than the pool holds (no more than the pool holds when the seed
      is itself in the pool). */
  lemma FitProperties(pool: Pool, seed: Peak, charge: int, p: Params)
    ensures var r := Fit(pool, seed, charge, p, [seed]);
            && |r| >= 1 && r[0] == seed
            && Distinct(r)
            && (forall q :: q in r ==> q == seed || Some(q) in pool)
            && |r| <= NonNullCount(pool) + 1
            && (Some(seed) in pool ==> |r| <= NonNullCount(pool))
            && (charge == 0 ==> r == [seed])
  {
    var r := Fit(pool, seed, charge, p, [seed]);
    UnfittedAroundSeed(pool, seed);
    assert FitShape(pool, seed, [seed]);
    if charge != 0 {
      var left := if p.monotonicShape then [seed] else HalfFit(pool, seed, charge, -1, p, [seed], 1);
      if !p.monotonicShape {
        HalfFitKeepsShape(pool, seed, charge, -1, p, [seed]);
      }
      HalfFitKeepsShape(pool, seed, charge, 1, p, left);
      assert r == HalfFit(pool, seed, charge, 1, p, left, 1);
    }
    assert FitShape(pool, seed, r);
  }

  /** The good-candidate scan (the loop collecting goodCandidates). */
  method CollectCandidates(pool: array<Option<Peak>>, seed: Peak, charge: int, direction: int, n: nat,
                           fitted: seq<Peak>, p: Params) returns (goodCandidates: seq<Peak>)
    requires charge != 0
    ensures goodCandidates == Candidates(pool[..], seed, charge, direction, n, fitted, p)
    ensures forall c :: c in goodCandidates <==> Some(c) in pool[..] && IsCandidate(c, seed, charge, direction, n, fitted, p)
  {
    goodCandidates := [];
    var ind := 0;
    while ind < pool.Length
      invariant 0 <= ind <= pool.Length
      invariant goodCandidates == Candidates(pool[..ind], seed, charge, direction, n, fitted, p)
    {
      assert pool[..ind + 1][..ind] == pool[..ind];
      var candidatePeak := pool[ind];
      if candidatePeak.Some? {
        var c := candidatePeak.value;
        if Abs((c.mz - ExpectedShift(charge, direction, n)) - seed.mz) <= p.mzTolerance
           && Abs(c.rt - seed.rt) < p.rtTolerance
           && c !in fitted
        {
          goodCandidates := goodCandidates + [c];
        }
      }
      ind := ind + 1;
    }
    assert pool[..] == pool[..pool.Length];
    forall c ensures c in goodCandidates <==> Some(c) in pool[..] && IsCandidate(c, seed, charge, direction, n, fitted, p) {
      CandidateIn(pool[..], seed, charge, direction, n, fitted, p, c);
    }
  }

  /** The best-candidate selection: the first candidate of strictly greatest
      height, or none when there are no candidates. */
  method SelectBest(goodCandidates: seq<Peak>) returns (bestCandidate: Option<Peak>)
    ensures bestCandidate.None? <==> goodCandidates == []
    ensures bestCandidate.Some? ==> bestCandidate.value == goodCandidates[BestIndex(goodCandidates)]
    ensures bestCandidate.Some? ==> exists k :: FirstTallestAt(goodCandidates, k) && goodCandidates[k] == bestCandidate.value
  {
    bestCandidate := None;
    ghost var at := 0;
    var i := 0;
    while i < |goodCandidates|
      invariant 0 <= i <= |goodCandidates|
      invariant bestCandidate.None? <==> i == 0
      invariant i > 0 ==> at == BestIndex(goodCandidates[..i]) && bestCandidate == Some(goodCandidates[at])
    {
      assert goodCandidates[..i + 1][..i] == goodCandidates[..i];
      var candidatePeak := goodCandidates[i];
      if bestCandidate.Some? {
        if bestCandidate.value.height < candidatePeak.height {
          bestCandidate := Some(candidatePeak);
          at := i;
        }
      } else {
        bestCandidate := Some(candidatePeak);
        at := i;
      }
      i := i + 1;
    }
    assert goodCandidates[..i] == goodCandidates;
  }

  /** fitHalfPattern: the do-while search in one direction. */
  method FitHalfPattern(pool: array<Option<Peak>>, seed: Peak, charge: int, direction: int, p: Params,
                        fitted0: seq<Peak>) returns (fitted: seq<Peak>)
    requires charge != 0
    ensures fitted == HalfFit(pool[..], seed, charge, direction, p, fitted0, 1)
    ensures |fitted0| <= |fitted| && fitted[..|fitted0|] == fitted0
  {
    fitted := fitted0;
    var n := 1;
    var followingPeakFound := true;
    while followingPeakFound
      invariant followingPeakFound ==>
        HalfFit(pool[..], seed, charge, direction, p, fitted, n) == HalfFit(pool[..], seed, charge, direction, p, fitted0, 1)
      invariant !followingPeakFound ==> fitted == HalfFit(pool[..], seed, charge, direction, p, fitted0, 1)
      decreases Unfitted(pool[..], fitted) + (if followingPeakFound then 1 else 0)
    {
      followingPeakFound := false;
      var goodCandidates := CollectCandidates(pool, seed, charge, direction, n, fitted, p);
      var bestCandidate := SelectBest(goodCandidates);
      if bestCandidate.Some? {
        assert bestCandidate.value in goodCandidates;
        UnfittedShrinks(pool[..], fitted, bestCandidate.value);
        fitted := fitted + [bestCandidate.value];
        n := n + 1;
        followingPeakFound := true;
      }
    }
    HalfFitPrefix(pool[..], seed, charge, direction, p, fitted0, 1);
  }

  /** fitPattern: returns at once for charge 0; otherwise searches direction
      -1 (unless the shape is monotonic) and then direction +1, both adding
      to the same fitted peaks. */
  method FitPattern(pool: array<Option<Peak>>, seed: Peak, charge: int, p: Params, fitted0: seq<Peak>)
    returns (fitted: seq<Peak>)
    ensures charge == 0 ==> fitted == fitted0
    ensures charge != 0 && p.monotonicShape ==>
      fitted == HalfFit(pool[..], seed, charge, 1, p, fitted0, 1)
    ensures charge != 0 && !p.monotonicShape ==>
      fitted == HalfFit(pool[..], seed, charge, 1, p, HalfFit(pool[..], seed, charge, -1, p, fitted0, 1), 1)
    ensures fitted == Fit(pool[..], seed, charge, p, fitted0)
  {
    fitted := fitted0;
    if charge == 0 {
      return;
    }
    if !p.monotonicShape {
      fitted := FitHalfPattern(pool, seed, charge, -1, p, fitted);
    }
    fitted := FitHalfPattern(pool, seed, charge, 1, p, fitted);
  }
}
