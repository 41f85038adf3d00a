/** The values the isotope grouper works on: detected peaks, the candidate
    pool (the sorted peak array whose slots are nulled once consumed),
    isotope patterns and peak-list rows. */
module Peaks {

  datatype Option<T> = None | Some(value: T)

  /** A chromatographic peak of the run's single data file. `id` stands for
      the identity of the Java object, so two distinct peak objects are two
      distinct values even when their m/z, RT and height coincide. */
  datatype Peak = Peak(id: nat, mz: real, rt: real, height: real)

  /** The peak array sorted by height; a `None` slot is a peak already
      assigned to an isotope pattern (a nulled array slot). */
  type Pool = seq<Option<Peak>>

  /** The user parameters the algorithm reads (m/z tolerance in Da,
      RT tolerance, whether only the right half of a pattern is searched,
      and the highest charge tried). */
  datatype Params = Params(mzTolerance: real, rtTolerance: real, monotonicShape: bool, maximumCharge: int)

  /** One (m/z, intensity) point of an isotope pattern. */
  datatype DataPoint = DataPoint(mz: real, intensity: real)

  datatype PatternStatus = Detected

  /** An isotope pattern: its points in fitted order, its status and a
      description taken from the seed peak (here the seed's identity). */
  datatype IsotopePattern = IsotopePattern(points: seq<DataPoint>, status: PatternStatus, seedId: nat)

  /** The peak a row holds for the data file, with the isotope pattern and
      charge attached to it, if any. */
  datatype RowPeak = RowPeak(peak: Peak, pattern: Option<IsotopePattern>, charge: Option<int>)

  /** A peak-list row: its persistent ID, the properties copied along with
      it (comments, identities; opaque to the algorithm) and its peak. */
  datatype Row = Row(id: int, properties: seq<string>, entry: RowPeak)

  /** No peak occurs twice. */
  predicate Distinct(s: seq<Peak>) {
    forall i, j :: 0 <= i < j < |s| ==> s[i] != s[j]
  }

  /** What the peak list hands over after sorting: every slot filled, no
      peak object twice, heights non-increasing along the array. */
  predicate SortedByHeight(pool: Pool) {
    && (forall i :: 0 <= i < |pool| ==> pool[i].Some?)
    && (forall i, j :: 0 <= i < j < |pool| ==> pool[i] != pool[j])
    && (forall i, j :: 0 <= i < j < |pool| && pool[i].Some? && pool[j].Some? ==>
          pool[j].value.height <= pool[i].value.height)
  }

  /** The number of slots not yet nulled. */
  function NonNullCount(pool: Pool): (k: nat)
    ensures k <= |pool|
    ensures k == 0 <==> forall i :: 0 <= i < |pool| ==> pool[i].None?
  {
    if pool == [] then 0
    else NonNullCount(pool[..|pool| - 1]) + (if pool[|pool| - 1].Some? then 1 else 0)
  }
}
