/** The charge selector: fits a pattern around the seed for every charge
    from 1 to maximumCharge and keeps the one that explains the most peaks,
    the smaller charge on a tie. */
module ChargeSelector {
  import opened Peaks
  import opened PatternFitter

  /** A charge together with the peaks fitted for it. */
  datatype ChargeFit = ChargeFit(charge: int, peaks: seq<Peak>)

  /** The fitted set for every charge, as a function of the charge. */
  function FitsOf(pool: Pool, seed: Peak, p: Params): int -> seq<Peak> {
    c => Fit(pool, seed, c, p, [seed])
  }

  /** The winner among charges 1..k, given the set fitted for each charge,
      as the selection loop leaves it after trying charge k: a charge
      replaces the one kept so far when it explains more peaks, or as many
      with a smaller charge. */
  function BestUpTo(fits: int -> seq<Peak>, k: int): (r: ChargeFit)
    requires k >= 1
    decreases k
  {
    if k == 1 then ChargeFit(1, fits(1))
    else
      var prev := BestUpTo(fits, k - 1);
      if |fits(k)| > |prev.peaks| || (|fits(k)| == |prev.peaks| && prev.charge > k) then ChargeFit(k, fits(k))
      else prev
  }

  /** The winner among charges 1..k is one of them, with the set fitted for
      it; no charge tried explains more peaks, and every smaller charge
      explains fewer. */
  lemma {:induction false} BestUpToProperties(fits: int -> seq<Peak>, k: int)
    requires k >= 1
    ensures 1 <= BestUpTo(fits, k).charge <= k
    ensures BestUpTo(fits, k).peaks == fits(BestUpTo(fits, k).charge)
    ensures forall c :: 1 <= c <= k ==> |fits(c)| <= |BestUpTo(fits, k).peaks|
    ensures forall c :: 1 <= c < BestUpTo(fits, k).charge ==> |fits(c)| < |BestUpTo(fits, k).peaks|
    decreases k
  {
    if k > 1 {
      BestUpToProperties(fits, k - 1);
    }
  }

  /** The charge and fitted set chosen for a seed. */
  function BestFit(pool: Pool, seed: Peak, p: Params): ChargeFit
    requires p.maximumCharge >= 1
  {
    BestUpTo(FitsOf(pool, seed, p), p.maximumCharge)
  }

  /** What the charge selection promises: the chosen charge lies in
      1..maximumCharge, its fitted set is the one fitted for that charge,
      holds at least the seed, and is maximal over all charges; every
      smaller charge explains strictly fewer peaks; and the set is
      duplicate-free, holds the seed at position 0 and otherwise only pool
      peaks, and has no more peaks than the pool has non-null slots when
      the seed sits in the pool. */
  lemma BestFitProperties(pool: Pool, seed: Peak, p: Params)
    requires p.maximumCharge >= 1
    ensures var r := BestFit(pool, seed, p);
            && 1 <= r.charge <= p.maximumCharge
            && r.peaks == Fit(pool, seed, r.charge, p, [seed])
            && |r.peaks| >= 1 && r.peaks[0] == seed
            && (forall c :: 1 <= c <= p.maximumCharge ==> |Fit(pool, seed, c, p, [seed])| <= |r.peaks|)
            && (forall c :: 1 <= c < r.charge ==> |Fit(pool, seed, c, p, [seed])| < |r.peaks|)
            && Distinct(r.peaks)
            && (forall q :: q in r.peaks ==> q == seed || Some(q) in pool)
            && (Some(seed) in pool ==> |r.peaks| <= NonNullCount(pool))
  {
    var fits := FitsOf(pool, seed, p);
    var r := BestFit(pool, seed, p);
    BestUpToProperties(fits, p.maximumCharge);
    assert r.peaks == Fit(pool, seed, r.charge, p, [seed]) by {
      assert r.peaks == fits(r.charge);
    }
    forall c | 1 <= c <= p.maximumCharge
      ensures |Fit(pool, seed, c, p, [seed])| <= |r.peaks|
    {
      assert fits(c) == Fit(pool, seed, c, p, [seed]);
    }
    forall c | 1 <= c < r.charge
      ensures |Fit(pool, seed, c, p, [seed])| < |r.peaks|
    {
      assert fits(c) == Fit(pool, seed, c, p, [seed]);
    }
    FitProperties(pool, seed, r.charge, p);
  }

  /** The loop over charges 1..maximumCharge (the charge array holds
      i + 1 at index i), proved against the table `fits` of the pattern
      fitted for each charge. */
  method SelectCharge(pool: array<Option<Peak>>, seed: Peak, p: Params, ghost fits: int -> seq<Peak>)
    returns (bestFitCharge: int, bestFitPeaks: seq<Peak>)
    requires p.maximumCharge >= 1
    requires forall c {:trigger Fit(pool[..], seed, c, p, [seed])} :: fits(c) == Fit(pool[..], seed, c, p, [seed])
    ensures ChargeFit(bestFitCharge, bestFitPeaks) == BestUpTo(fits, p.maximumCharge)
  {
    bestFitCharge := 0;
    var bestFitScore := -1;
    bestFitPeaks := [];
    var charge := 1;
    while charge <= p.maximumCharge
      invariant 1 <= charge <= p.maximumCharge + 1
      invariant charge == 1 ==> bestFitCharge == 0 && bestFitScore == -1
      invariant charge > 1 ==> ChargeFit(bestFitCharge, bestFitPeaks) == BestUpTo(fits, charge - 1)
                               && bestFitScore == |bestFitPeaks|
    {
      var fittedPeaks := [seed];
      fittedPeaks := FitPattern(pool, seed, charge, p, fittedPeaks);
      var score := |fittedPeaks|;
      if score > bestFitScore || (score == bestFitScore && bestFitCharge > charge) {
        bestFitScore := score;
        bestFitCharge := charge;
        bestFitPeaks := fittedPeaks;
      }
      charge := charge + 1;
    }
  }
}
