/** What happens once a charge has been chosen for a seed: the fitted peaks
    become the points of an isotope pattern attached to a copy of the seed
    in a row that keeps the seed row's ID, and their slots in the sorted
    peak array are nulled so that no later seed sees them again. */
module GroupAggregator {
  import opened Peaks

  /** One (m/z, height) point per fitted peak, in fitted order. */
  function IsotopePoints(fitted: seq<Peak>): (pts: seq<DataPoint>)
    ensures |pts| == |fitted|
  {
    if fitted == [] then []
    else
      var last := fitted[|fitted| - 1];
      IsotopePoints(fitted[..|fitted| - 1]) + [DataPoint(last.mz, last.height)]
  }

  /** The i-th point carries the i-th fitted peak's m/z and height. */
  lemma {:induction false} IsotopePointAt(fitted: seq<Peak>, i: int)
    requires 0 <= i < |fitted|
    ensures IsotopePoints(fitted)[i].mz == fitted[i].mz
    ensures IsotopePoints(fitted)[i].intensity == fitted[i].height
  {
    if i < |fitted| - 1 {
      IsotopePointAt(fitted[..|fitted| - 1], i);
    }
  }

  /** The row that replaces the seed's row: same ID and copied properties,
      holding a copy of the seed with the detected pattern and the charge. */
  function GroupedRow(oldRow: Row, seed: Peak, fitted: seq<Peak>, charge: int): Row {
    var pattern := IsotopePattern(IsotopePoints(fitted), Detected, seed.id);
    Row(oldRow.id, oldRow.properties, RowPeak(seed, Some(pattern), Some(charge)))
  }

  /** Builds the isotope array point by point and the new row around it. */
  method BuildGroupRow(oldRow: Row, seed: Peak, bestFitPeaks: seq<Peak>, bestFitCharge: int)
    returns (newRow: Row)
    ensures newRow == GroupedRow(oldRow, seed, bestFitPeaks, bestFitCharge)
    ensures newRow.id == oldRow.id && newRow.properties == oldRow.properties
    ensures newRow.entry.peak == seed && newRow.entry.charge == Some(bestFitCharge)
    ensures newRow.entry.pattern.Some?
    ensures newRow.entry.pattern.value.status == Detected
    ensures newRow.entry.pattern.value.seedId == seed.id
    ensures |newRow.entry.pattern.value.points| == |bestFitPeaks|
    ensures forall i :: 0 <= i < |bestFitPeaks| ==>
              newRow.entry.pattern.value.points[i] == DataPoint(bestFitPeaks[i].mz, bestFitPeaks[i].height)
  {
    var isotopes := new DataPoint[|bestFitPeaks|];
    for i := 0 to isotopes.Length
      invariant forall j :: 0 <= j < i ==> isotopes[j] == DataPoint(bestFitPeaks[j].mz, bestFitPeaks[j].height)
    {
      var p := bestFitPeaks[i];
      isotopes[i] := DataPoint(p.mz, p.height);
    }
    var newPattern := IsotopePattern(isotopes[..], Detected, seed.id);
    var newPeak := RowPeak(seed, Some(newPattern), Some(bestFitCharge));
    forall j | 0 <= j < |bestFitPeaks|
      ensures isotopes[j] == IsotopePoints(bestFitPeaks)[j]
    {
      IsotopePointAt(bestFitPeaks, j);
    }
    assert isotopes[..] == IsotopePoints(bestFitPeaks);
    newRow := Row(oldRow.id, oldRow.properties, newPeak);
  }

  /** The pool after the slots holding a member of `group` are nulled. */
  function Consume(pool: Pool, group: seq<Peak>): (r: Pool)
    ensures |r| == |pool|
  {
    if pool == [] then []
    else
      var last := pool[|pool| - 1];
      Consume(pool[..|pool| - 1], group) + [if last.Some? && last.value in group then None else last]
  }

  /** Exactly the slots holding a member of the group are nulled; every
      other slot keeps what it held. */
  lemma {:induction false} ConsumeSlot(pool: Pool, group: seq<Peak>, i: int)
    requires 0 <= i < |pool|
    ensures pool[i].Some? && pool[i].value in group ==> Consume(pool, group)[i].None?
    ensures pool[i].None? || pool[i].value !in group ==> Consume(pool, group)[i] == pool[i]
  {
    if i < |pool| - 1 {
      ConsumeSlot(pool[..|pool| - 1], group, i);
    }
  }

  /** After consumption a peak is still available exactly when it was
      available before and is not one of the consumed peaks. */
  lemma ConsumeAvailable(pool: Pool, group: seq<Peak>, q: Peak)
    ensures Some(q) in Consume(pool, group) <==> Some(q) in pool && q !in group
  {
    var r := Consume(pool, group);
    if Some(q) in r {
      var i :| 0 <= i < |r| && r[i] == Some(q);
      ConsumeSlot(pool, group, i);
      assert pool[i] == Some(q);
    }
    if Some(q) in pool && q !in group {
      var i :| 0 <= i < |pool| && pool[i] == Some(q);
      ConsumeSlot(pool, group, i);
      assert r[i] == Some(q);
    }
  }

  /** Consuming nothing leaves the pool as it is. */
  lemma ConsumeNothing(pool: Pool)
    ensures Consume(pool, []) == pool
  {
    forall i | 0 <= i < |pool|
      ensures Consume(pool, [])[i] == pool[i]
    {
      ConsumeSlot(pool, [], i);
    }
  }

  /** The nulling loop over the whole array. */
  method RemoveAssigned(sortedPeaks: array<Option<Peak>>, bestFitPeaks: seq<Peak>)
    modifies sortedPeaks
    ensures sortedPeaks[..] == Consume(old(sortedPeaks[..]), bestFitPeaks)
  {
    ghost var pool0 := sortedPeaks[..];
    for i := 0 to sortedPeaks.Length
      invariant forall j :: 0 <= j < i ==> sortedPeaks[j] == Consume(pool0, bestFitPeaks)[j]
      invariant forall j :: i <= j < sortedPeaks.Length ==> sortedPeaks[j] == pool0[j]
    {
      ConsumeSlot(pool0, bestFitPeaks, i);
      if sortedPeaks[i].Some? && sortedPeaks[i].value in bestFitPeaks {
        sortedPeaks[i] := None;
      }
    }
  }
}
