/** The greedy grouping pass over the height-sorted peak array, and the task
    object that runs it: its status, its progress counters and the
    deisotoped list it publishes.

    The pass is specified for a given per-seed charge fitter `fit` (the
    charge and fitted set a seed gets from the pool as it stands); the task
    runs it with a fitter that SelectsBest pins to BestFit. */
module IsotopeGrouper {
  import opened Peaks
  import opened ChargeSelector
  import opened GroupAggregator

  datatype TaskStatus = Waiting | Processing | Finished | Canceled | Error

  /** The deisotoped rows built so far and the pool as it stands. */
  datatype Progress = Progress(rows: seq<Row>, pool: Pool)

  /** The charge and fitted set a seed gets from a pool. */
  type Fitter = (Pool, Peak) -> ChargeFit

  /** `fit` is the charge selection: for every pool and seed it returns
      BestFit. */
  ghost predicate SelectsBest(fit: Fitter, p: Params)
    requires p.maximumCharge >= 1
  {
    forall pool, seed {:trigger BestFit(pool, seed, p)} :: fit(pool, seed) == BestFit(pool, seed, p)
  }

  /** A fitted set that starts with the seed, holds no peak twice and
      otherwise only takes peaks from the pool. */
  ghost predicate FitSound(pool: Pool, seed: Peak, r: ChargeFit) {
    && |r.peaks| >= 1 && r.peaks[0] == seed
    && Distinct(r.peaks)
    && (forall q :: q in r.peaks ==> q == seed || Some(q) in pool)
  }

  ghost predicate SoundFitter(fit: Fitter) {
    forall pool, seed :: FitSound(pool, seed, fit(pool, seed))
  }

  /** The charge selection as a Fitter value. */
  function Grouper(p: Params): Fitter
    requires p.maximumCharge >= 1
  {
    (pool, seed) => BestFit(pool, seed, p)
  }

  /** Grouper(p) is the charge selection, so a task can always be given
      one. */
  lemma GrouperSelectsBest(p: Params)
    requires p.maximumCharge >= 1
    ensures SelectsBest(Grouper(p), p)
  {
  }

  /** The charge selection only ever yields sound fitted sets. */
  lemma BestIsSound(fit: Fitter, p: Params)
    requires p.maximumCharge >= 1 && SelectsBest(fit, p)
    ensures SoundFitter(fit)
  {
    forall pool, seed
      ensures FitSound(pool, seed, fit(pool, seed))
    {
      BestFitProperties(pool, seed, p);
    }
  }

  /** The peaks a seed consumes: its fitted set when that holds more than
      the seed itself, nothing for a null slot or a lone seed. */
  function Consumed(fit: Fitter, pool: Pool, i: int): (g: seq<Peak>)
    requires 0 <= i < |pool|
    ensures pool[i].None? ==> g == []
  {
    match pool[i]
    case None => []
    case Some(seed) =>
      var best := fit(pool, seed);
      if |best.peaks| == 1 then [] else best.peaks
  }

  /** With a sound fitter, a consumed group is the seed followed by at least
      one more peak, holds no peak twice, and takes only peaks still in the
      pool. */
  lemma ConsumedProperties(fit: Fitter, pool: Pool, i: int)
    requires SoundFitter(fit) && 0 <= i < |pool|
    ensures var g := Consumed(fit, pool, i);
            && (g != [] ==> |g| >= 2 && g[0] == pool[i].value && Distinct(g))
            && (forall q :: q in g ==> Some(q) in pool)
  {
    if pool[i].Some? {
      assert FitSound(pool, pool[i].value, fit(pool, pool[i].value));
      assert Some(pool[i].value) in pool;
    }
  }

  /** One turn of the seed loop at slot i. */
  function Step(rowOf: Peak -> Row, fit: Fitter, st: Progress, i: int): (r: Progress)
    requires 0 <= i < |st.pool|
    ensures |r.pool| == |st.pool|
    ensures st.pool[i].None? ==> r == st
    ensures st.pool[i].Some? ==>
              && |r.rows| == |st.rows| + 1
              && r.rows[..|st.rows|] == st.rows
              && r.rows[|st.rows|].id == rowOf(st.pool[i].value).id
  {
    match st.pool[i]
    case None => st
    case Some(seed) =>
      var group := Consumed(fit, st.pool, i);
      if group == [] then Progress(st.rows + [rowOf(seed)], st.pool)
      else
        var best := fit(st.pool, seed);
        Progress(st.rows + [GroupedRow(rowOf(seed), seed, best.peaks, best.charge)], Consume(st.pool, group))
  }

  /** The state after the seed loop has handled slots 0..k-1. */
  function Processed(rowOf: Peak -> Row, fit: Fitter, pool0: Pool, k: int): (st: Progress)
    requires 0 <= k <= |pool0|
    ensures |st.pool| == |pool0| && |st.rows| <= k
    decreases k
  {
    if k == 0 then Progress([], pool0)
    else Step(rowOf, fit, Processed(rowOf, fit, pool0, k - 1), k - 1)
  }

  /** The state after slot k is the step at slot k applied to the state
      before it. */
  lemma ProcessedNext(rowOf: Peak -> Row, fit: Fitter, pool0: Pool, k: int)
    requires 0 <= k < |pool0|
    ensures Processed(rowOf, fit, pool0, k + 1) == Step(rowOf, fit, Processed(rowOf, fit, pool0, k), k)
  {
  }

  /** The first loop head at which a cancel is seen, or n if none is. */
  function FirstCancel(cancelSeen: nat -> bool, n: nat): (k: nat)
    ensures k <= n
    ensures forall j :: 0 <= j < k ==> !cancelSeen(j)
    ensures k < n ==> cancelSeen(k)
    decreases n
  {
    if n == 0 then 0
    else
      var k := FirstCancel(cancelSeen, n - 1);
      if k < n - 1 then k else if cancelSeen(n - 1) then n - 1 else n
  }

  /** A step at a seed whose fitted set holds the seed alone appends the
      seed's own row and leaves the pool alone. */
  lemma StepAtLoneSeed(rowOf: Peak -> Row, fit: Fitter, st: Progress, i: int, seed: Peak, charge: int, peaks: seq<Peak>)
    requires 0 <= i < |st.pool| && st.pool[i] == Some(seed)
    requires fit(st.pool, seed) == ChargeFit(charge, peaks) && |peaks| == 1
    ensures Step(rowOf, fit, st, i) == Progress(st.rows + [rowOf(seed)], st.pool)
  {
  }

  /** A step at a seed whose fitted set holds more peaks appends the grouped
      row and nulls the slots of the fitted set. */
  lemma StepAtGroupSeed(rowOf: Peak -> Row, fit: Fitter, st: Progress, i: int, seed: Peak, charge: int, peaks: seq<Peak>)
    requires 0 <= i < |st.pool| && st.pool[i] == Some(seed)
    requires fit(st.pool, seed) == ChargeFit(charge, peaks) && |peaks| >= 2
    ensures Step(rowOf, fit, st, i) ==
              Progress(st.rows + [GroupedRow(rowOf(seed), seed, peaks, charge)], Consume(st.pool, peaks))
  {
    assert Consumed(fit, st.pool, i) == peaks;
  }

  /** The pool after a step is the pool before it with the consumed
      group's slots nulled. */
  lemma StepConsumes(rowOf: Peak -> Row, fit: Fitter, st: Progress, i: int)
    requires 0 <= i < |st.pool|
    ensures Step(rowOf, fit, st, i).pool == Consume(st.pool, Consumed(fit, st.pool, i))
  {
    if Consumed(fit, st.pool, i) == [] {
      ConsumeNothing(st.pool);
    }
  }

  /** A seed that forms a group is consumed along with it; a lone seed
      leaves the pool as it was. */
  lemma StepNullsSeed(rowOf: Peak -> Row, fit: Fitter, st: Progress, i: int)
    requires SoundFitter(fit) && 0 <= i < |st.pool|
    ensures Consumed(fit, st.pool, i) == [] ==> Step(rowOf, fit, st, i).pool == st.pool
    ensures Consumed(fit, st.pool, i) != [] ==> Step(rowOf, fit, st, i).pool[i].None?
  {
    StepConsumes(rowOf, fit, st, i);
    ConsumedProperties(fit, st.pool, i);
    ConsumeSlot(st.pool, Consumed(fit, st.pool, i), i);
  }

  /** A step only nulls slots: each slot afterwards is null or as before. */
  lemma StepOnlyNulls(rowOf: Peak -> Row, fit: Fitter, st: Progress, i: int, j: int)
    requires 0 <= i < |st.pool| && 0 <= j < |st.pool|
    ensures Step(rowOf, fit, st, i).pool[j].None? || Step(rowOf, fit, st, i).pool[j] == st.pool[j]
  {
    StepConsumes(rowOf, fit, st, i);
    ConsumeSlot(st.pool, Consumed(fit, st.pool, i), j);
  }

  /** One turn of the loop only nulls slots. */
  lemma ProcessedStep(rowOf: Peak -> Row, fit: Fitter, pool0: Pool, k: int, j: int)
    requires 0 <= k < |pool0| && 0 <= j < |pool0|
    ensures Processed(rowOf, fit, pool0, k + 1).pool[j].None? ||
            Processed(rowOf, fit, pool0, k + 1).pool[j] == Processed(rowOf, fit, pool0, k).pool[j]
  {
    StepOnlyNulls(rowOf, fit, Processed(rowOf, fit, pool0, k), k, j);
  }

  /** A slot of the pool is only ever nulled: at every point of the loop
      each slot is either null or still holds the peak it started with. */
  lemma {:induction false} ProcessedOnlyNulls(rowOf: Peak -> Row, fit: Fitter, pool0: Pool, k: int, j: int)
    requires 0 <= k <= |pool0| && 0 <= j < |pool0|
    ensures Processed(rowOf, fit, pool0, k).pool[j].None? || Processed(rowOf, fit, pool0, k).pool[j] == pool0[j]
    decreases k
  {
    if k > 0 {
      ProcessedOnlyNulls(rowOf, fit, pool0, k - 1, j);
      ProcessedStep(rowOf, fit, pool0, k - 1, j);
    }
  }

  /** A nulled slot stays null for the rest of the loop. */
  lemma {:induction false} NullsStay(rowOf: Peak -> Row, fit: Fitter, pool0: Pool, k1: int, k2: int, j: int)
    requires 0 <= k1 <= k2 <= |pool0| && 0 <= j < |pool0|
    requires Processed(rowOf, fit, pool0, k1).pool[j].None?
    ensures Processed(rowOf, fit, pool0, k2).pool[j].None?
    decreases k2
  {
    if k2 > k1 {
      NullsStay(rowOf, fit, pool0, k1, k2 - 1, j);
      ProcessedStep(rowOf, fit, pool0, k2 - 1, j);
    }
  }

  /** A peak available later in the loop was available earlier. */
  lemma {:induction false} AvailableEarlier(rowOf: Peak -> Row, fit: Fitter, pool0: Pool, k1: int, k2: int, q: Peak)
    requires 0 <= k1 <= k2 <= |pool0|
    requires Some(q) in Processed(rowOf, fit, pool0, k2).pool
    ensures Some(q) in Processed(rowOf, fit, pool0, k1).pool
    decreases k2
  {
    if k2 > k1 {
      var st := Processed(rowOf, fit, pool0, k2 - 1);
      var r := Processed(rowOf, fit, pool0, k2);
      var j :| 0 <= j < |r.pool| && r.pool[j] == Some(q);
      StepOnlyNulls(rowOf, fit, st, k2 - 1, j);
      assert st.pool[j] == Some(q);
      AvailableEarlier(rowOf, fit, pool0, k1, k2 - 1, q);
    }
  }

  /** Once consumed at step i, a peak is gone from the pool for good. */
  lemma ConsumedGone(rowOf: Peak -> Row, fit: Fitter, pool0: Pool, i: int, k: int, q: Peak)
    requires 0 <= i < k <= |pool0|
    requires q in Consumed(fit, Processed(rowOf, fit, pool0, i).pool, i)
    ensures Some(q) !in Processed(rowOf, fit, pool0, k).pool
  {
    var st := Processed(rowOf, fit, pool0, i);
    var g := Consumed(fit, st.pool, i);
    assert Processed(rowOf, fit, pool0, i + 1) == Step(rowOf, fit, st, i);
    StepConsumes(rowOf, fit, st, i);
    ConsumeAvailable(st.pool, g, q);
    if Some(q) in Processed(rowOf, fit, pool0, k).pool {
      AvailableEarlier(rowOf, fit, pool0, i + 1, k, q);
    }
  }

  /** No peak is consumed by two seeds: with a sound fitter, the groups of
      two different steps share no peak. */
  lemma GroupsDisjoint(rowOf: Peak -> Row, fit: Fitter, pool0: Pool, i: int, j: int, q: Peak)
    requires SoundFitter(fit) && 0 <= i < j < |pool0|
    requires q in Consumed(fit, Processed(rowOf, fit, pool0, i).pool, i)
    ensures q !in Consumed(fit, Processed(rowOf, fit, pool0, j).pool, j)
  {
    ConsumedGone(rowOf, fit, pool0, i, j, q);
    ConsumedProperties(fit, Processed(rowOf, fit, pool0, j).pool, j);
  }

  /** On a height-sorted array, the seed of step i is at least as tall as
      every peak still available from slot i on. */
  lemma SeedIsTallestRemaining(rowOf: Peak -> Row, fit: Fitter, pool0: Pool, i: int, j: int)
    requires 0 <= i <= j < |pool0|
    requires SortedByHeight(pool0)
    requires Processed(rowOf, fit, pool0, i).pool[i].Some?
    requires Processed(rowOf, fit, pool0, i).pool[j].Some?
    ensures Processed(rowOf, fit, pool0, i).pool[j].value.height <= Processed(rowOf, fit, pool0, i).pool[i].value.height
  {
    ProcessedOnlyNulls(rowOf, fit, pool0, i, i);
    ProcessedOnlyNulls(rowOf, fit, pool0, i, j);
  }

  /** The loop body for a non-null seed at slot ind: choose the charge; keep
      the seed's own row when the seed stands alone; otherwise build the
      grouped row and null the fitted slots. Returns the row to append. */
  method GroupSeed(sortedPeaks: array<Option<Peak>>, ind: int, p: Params, rowOf: Peak -> Row,
                   ghost fit: Fitter, ghost rows: seq<Row>)
    returns (row: Row)
    requires p.maximumCharge >= 1 && SelectsBest(fit, p)
    requires 0 <= ind < sortedPeaks.Length && sortedPeaks[ind].Some?
    modifies sortedPeaks
    ensures Step(rowOf, fit, Progress(rows, old(sortedPeaks[..])), ind) == Progress(rows + [row], sortedPeaks[..])
  {
    ghost var st := Progress(rows, sortedPeaks[..]);
    var seed := sortedPeaks[ind].value;
    var bestFitCharge, bestFitPeaks := SelectCharge(sortedPeaks, seed, p, FitsOf(st.pool, seed, p));
    assert BestFit(st.pool, seed, p) == ChargeFit(bestFitCharge, bestFitPeaks);
    assert fit(st.pool, seed) == ChargeFit(bestFitCharge, bestFitPeaks);
    BestFitProperties(st.pool, seed, p);
    var oldRow := rowOf(seed);
    if |bestFitPeaks| == 1 {
      StepAtLoneSeed(rowOf, fit, st, ind, seed, bestFitCharge, bestFitPeaks);
      row := oldRow;
      return;
    }
    StepAtGroupSeed(rowOf, fit, st, ind, seed, bestFitCharge, bestFitPeaks);
    row := BuildGroupRow(oldRow, seed, bestFitPeaks, bestFitCharge);
    RemoveAssigned(sortedPeaks, bestFitPeaks);
  }

  /** The grouping task. `rowOf` is the peak list's peak-to-row lookup;
      `published` records that the deisotoped list was added to the
      project. */
  class IsotopeGrouperTask {
    const params: Params
    const rowOf: Peak -> Row
    var status: TaskStatus
    var processedPeaks: int
    var totalPeaks: int
    var deisotopedRows: seq<Row>
    var published: bool

    constructor (params: Params, rowOf: Peak -> Row)
      ensures this.params == params && this.rowOf == rowOf
      ensures status == Waiting && processedPeaks == 0 && totalPeaks == 0
      ensures deisotopedRows == [] && !published
    {
      this.params := params;
      this.rowOf := rowOf;
      status := Waiting;
      processedPeaks := 0;
      totalPeaks := 0;
      deisotopedRows := [];
      published := false;
    }

    /** The share of the peaks handled so far: 0 while the total is 0,
        otherwise processed over total, which lies in [0, 1] while the
        counter has not passed the total. */
    function FinishedPercentage(): (r: real)
      reads this
      ensures totalPeaks == 0 ==> r == 0.0
      ensures totalPeaks != 0 ==> r * totalPeaks as real == processedPeaks as real
      ensures 0 <= processedPeaks <= totalPeaks ==> 0.0 <= r <= 1.0
    {
      if totalPeaks == 0 then 0.0
      else
        var r := processedPeaks as real / totalPeaks as real;
        PercentageBounds(processedPeaks, totalPeaks);
        r
    }

    /** Cancelling only sets the status; the loop notices it at its head. */
    method Cancel()
      modifies this
      ensures status == Canceled
      ensures processedPeaks == old(processedPeaks) && totalPeaks == old(totalPeaks)
      ensures deisotopedRows == old(deisotopedRows) && published == old(published)
    {
      status := Canceled;
    }

    /** The grouping pass over the height-sorted peak array, with `fit` the
        charge selection. `cancelSeen(ind)` says whether a cancel from
        another thread has arrived by the time the loop head for slot `ind`
        is reached. The pass handles the slots before the first such loop
        head; when there is none it publishes the deisotoped list and
        finishes, otherwise it returns cancelled without publishing. */
    method Run(sortedPeaks: array<Option<Peak>>, cancelSeen: nat -> bool, ghost fit: Fitter)
      requires params.maximumCharge >= 1 && SelectsBest(fit, params)
      requires SortedByHeight(sortedPeaks[..])
      modifies this, sortedPeaks
      ensures var k := FirstCancel(cancelSeen, sortedPeaks.Length);
              var st := Processed(rowOf, fit, old(sortedPeaks[..]), k);
              && sortedPeaks[..] == st.pool
              && deisotopedRows == st.rows
              && processedPeaks == old(processedPeaks) + k
              && totalPeaks == sortedPeaks.Length
              && (k < sortedPeaks.Length ==> status == Canceled && published == old(published))
              && (k == sortedPeaks.Length ==> status == Finished && published)
      ensures old(processedPeaks) == 0 ==> 0 <= processedPeaks <= totalPeaks
    {
      ghost var pool0 := sortedPeaks[..];
      ghost var k := FirstCancel(cancelSeen, sortedPeaks.Length);
      status := Processing;
      deisotopedRows := [];
      totalPeaks := sortedPeaks.Length;
      var ind := 0;
      while ind < totalPeaks
        invariant 0 <= ind <= k
        invariant totalPeaks == sortedPeaks.Length
        invariant status == Processing
        invariant Progress(deisotopedRows, sortedPeaks[..]) == Processed(rowOf, fit, pool0, ind)
        invariant processedPeaks == old(processedPeaks) + ind
        invariant published == old(published)
      {
        if cancelSeen(ind) {
          Cancel();
        }
        if status == Canceled {
          return;
        }
        ProcessedNext(rowOf, fit, pool0, ind);
        var aPeak := sortedPeaks[ind];
        if aPeak.Some? {
          var row := GroupSeed(sortedPeaks, ind, params, rowOf, fit, deisotopedRows);
          deisotopedRows := deisotopedRows + [row];
        }
        processedPeaks := processedPeaks + 1;
        ind := ind + 1;
      }
      published := true;
      status := Finished;
    }
  }

  lemma PercentageBounds(processed: int, total: int)
    requires total != 0
    ensures (processed as real / total as real) * total as real == processed as real
    ensures 0 <= processed <= total ==> 0.0 <= processed as real / total as real <= 1.0
  {
  }
}
