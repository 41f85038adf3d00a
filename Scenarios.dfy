/** Worked examples. In the first, a monoisotopic peak at m/z 500 with its
    two isotopes one isotope distance apart at charge 1, all at the same
    retention time and decreasing in height, form one group of three. In
    the second, a lone seed keeps its row and is later taken into the group
    of a shorter seed. */
module Scenarios {
  import opened Peaks
  import opened Tolerance
  import opened PatternFitter
  import opened ChargeSelector
  import opened GroupAggregator
  import opened IsotopeGrouper

  const A: Peak := Peak(0, 500.0, 10.0, 100.0)
  const B: Peak := Peak(1, 501.0033, 10.0, 80.0)
  const C: Peak := Peak(2, 502.0066, 10.0, 50.0)
  const Settings: Params := Params(0.01, 0.5, true, 1)

  function Three(): Pool {
    [Some(A), Some(B), Some(C)]
  }

  /** The candidates among the three peaks, slot by slot. */
  lemma CandidatesOfThree(seed: Peak, charge: int, direction: int, n: nat, fitted: seq<Peak>, p: Params)
    requires charge != 0
    ensures Candidates(Three(), seed, charge, direction, n, fitted, p) ==
              (if IsCandidate(A, seed, charge, direction, n, fitted, p) then [A] else [])
              + (if IsCandidate(B, seed, charge, direction, n, fitted, p) then [B] else [])
              + (if IsCandidate(C, seed, charge, direction, n, fitted, p) then [C] else [])
  {
    assert Three()[..2] == [Some(A), Some(B)];
    assert [Some(A), Some(B)][..1] == [Some(A)];
    assert [Some(A)][..0] == [];
    var one := Candidates([Some(A)], seed, charge, direction, n, fitted, p);
    assert one == if IsCandidate(A, seed, charge, direction, n, fitted, p) then [A] else [];
    var two := Candidates([Some(A), Some(B)], seed, charge, direction, n, fitted, p);
    assert two == one + (if IsCandidate(B, seed, charge, direction, n, fitted, p) then [B] else []);
  }

  /** The first isotope of A at charge 1 is B alone. */
  lemma FirstIsotopeOfA()
    ensures Candidates(Three(), A, 1, 1, 1, [A], Settings) == [B]
  {
    assert Matches(B, A, 1, 1, 1, Settings) && !Matches(C, A, 1, 1, 1, Settings);
    CandidatesOfThree(A, 1, 1, 1, [A], Settings);
  }

  /** The second isotope of A at charge 1 is C alone. */
  lemma SecondIsotopeOfA()
    ensures Candidates(Three(), A, 1, 1, 2, [A, B], Settings) == [C]
  {
    assert !Matches(B, A, 1, 1, 2, Settings) && Matches(C, A, 1, 1, 2, Settings);
    CandidatesOfThree(A, 1, 1, 2, [A, B], Settings);
  }

  /** Nothing is left for a third isotope. */
  lemma NoThirdIsotopeOfA()
    ensures Candidates(Three(), A, 1, 1, 3, [A, B, C], Settings) == []
  {
    CandidatesOfThree(A, 1, 1, 3, [A, B, C], Settings);
  }

  /** With the right half only and charge 1, the fit around A finds B, then C. */
  lemma ThreeFit()
    ensures Fit(Three(), A, 1, Settings, [A]) == [A, B, C]
  {
    var pool := Three();
    FirstIsotopeOfA();
    SecondIsotopeOfA();
    NoThirdIsotopeOfA();
    assert BestIndex([B]) == 0 && BestIndex([C]) == 0;
    assert [A] + [B] == [A, B] && [A, B] + [C] == [A, B, C];
    assert HalfFit(pool, A, 1, 1, Settings, [A, B, C], 3) == [A, B, C];
    assert HalfFit(pool, A, 1, 1, Settings, [A, B], 2) == [A, B, C];
    assert HalfFit(pool, A, 1, 1, Settings, [A], 1) == [A, B, C];
  }

  /** Charge 1 is chosen for A, with all three peaks. */
  lemma ThreeBestFit()
    ensures BestFit(Three(), A, Settings) == ChargeFit(1, [A, B, C])
  {
    ThreeFit();
  }

  /** Consuming all three peaks empties every slot. */
  lemma ThreeConsumed()
    ensures Consume(Three(), [A, B, C]) == [None, None, None]
  {
    ConsumeSlot(Three(), [A, B, C], 0);
    ConsumeSlot(Three(), [A, B, C], 1);
    ConsumeSlot(Three(), [A, B, C], 2);
  }

  /** The first step of the pass groups all three peaks around A. */
  lemma ThreeFirstStep(rowOf: Peak -> Row)
    ensures Processed(rowOf, Grouper(Settings), Three(), 1) ==
              Progress([GroupedRow(rowOf(A), A, [A, B, C], 1)], [None, None, None])
  {
    var fit := Grouper(Settings);
    ThreeBestFit();
    ThreeConsumed();
    StepAtGroupSeed(rowOf, fit, Processed(rowOf, fit, Three(), 0), 0, A, 1, [A, B, C]);
  }

  /** The grouping pass turns the three peaks into one row that keeps A's
      row ID and carries a three-point pattern of charge 1, and nulls all
      three slots. */
  lemma ThreeGroupIntoOne(rowOf: Peak -> Row)
    ensures Processed(rowOf, Grouper(Settings), Three(), 3).rows == [GroupedRow(rowOf(A), A, [A, B, C], 1)]
    ensures Processed(rowOf, Grouper(Settings), Three(), 3).pool == [None, None, None]
  {
    ThreeFirstStep(rowOf);
    var fit := Grouper(Settings);
    assert Processed(rowOf, fit, Three(), 2) == Processed(rowOf, fit, Three(), 1);
  }

  /** A peak without any isotope in range keeps its own row. */
  lemma LoneSeedKeepsRow(rowOf: Peak -> Row)
    ensures Processed(rowOf, Grouper(Settings), [Some(A)], 1) == Progress([rowOf(A)], [Some(A)])
  {
    var pool := [Some(A)];
    var fit := Grouper(Settings);
    assert Candidates(pool, A, 1, 1, 1, [A], Settings) == [];
    assert Fit(pool, A, 1, Settings, [A]) == [A];
    assert BestFit(pool, A, Settings) == ChargeFit(1, [A]);
    StepAtLoneSeed(rowOf, fit, Processed(rowOf, fit, pool, 0), 0, A, 1, [A]);
  }

  /** A second example: a taller peak X whose isotope positions are empty,
      and a shorter peak Y one isotope distance below it. */
  const X: Peak := Peak(3, 501.0033, 10.0, 90.0)
  const Y: Peak := Peak(4, 500.0, 10.0, 60.0)

  function Two(): Pool {
    [Some(X), Some(Y)]
  }

  /** The candidates among the two peaks, slot by slot. */
  lemma CandidatesOfTwo(seed: Peak, charge: int, direction: int, n: nat, fitted: seq<Peak>, p: Params)
    requires charge != 0
    ensures Candidates(Two(), seed, charge, direction, n, fitted, p) ==
              (if IsCandidate(X, seed, charge, direction, n, fitted, p) then [X] else [])
              + (if IsCandidate(Y, seed, charge, direction, n, fitted, p) then [Y] else [])
  {
    assert Two()[..1] == [Some(X)];
    assert [Some(X)][..0] == [];
  }

  /** X finds nothing at its first isotope position. */
  lemma XStandsAlone()
    ensures Fit(Two(), X, 1, Settings, [X]) == [X]
  {
    assert !Matches(X, X, 1, 1, 1, Settings) && !Matches(Y, X, 1, 1, 1, Settings);
    CandidatesOfTwo(X, 1, 1, 1, [X], Settings);
    assert Candidates(Two(), X, 1, 1, 1, [X], Settings) == [];
  }

  /** Y finds X as its first isotope and nothing after it. */
  lemma YTakesX()
    ensures Fit(Two(), Y, 1, Settings, [Y]) == [Y, X]
  {
    var pool := Two();
    assert Matches(X, Y, 1, 1, 1, Settings) && !Matches(Y, Y, 1, 1, 1, Settings);
    CandidatesOfTwo(Y, 1, 1, 1, [Y], Settings);
    assert Candidates(pool, Y, 1, 1, 1, [Y], Settings) == [X];
    CandidatesOfTwo(Y, 1, 1, 2, [Y, X], Settings);
    assert Candidates(pool, Y, 1, 1, 2, [Y, X], Settings) == [];
    assert BestIndex([X]) == 0;
    assert [Y] + [X] == [Y, X];
    assert HalfFit(pool, Y, 1, 1, Settings, [Y, X], 2) == [Y, X];
    assert HalfFit(pool, Y, 1, 1, Settings, [Y], 1) == [Y, X];
  }

  /** X keeps its own row and stays in the pool. */
  lemma TwoFirstStep(rowOf: Peak -> Row)
    ensures Processed(rowOf, Grouper(Settings), Two(), 1) == Progress([rowOf(X)], Two())
  {
    var fit := Grouper(Settings);
    XStandsAlone();
    assert fit(Two(), X) == ChargeFit(1, [X]);
    StepAtLoneSeed(rowOf, fit, Processed(rowOf, fit, Two(), 0), 0, X, 1, [X]);
  }

  /** Consuming Y's group empties both slots. */
  lemma TwoConsumed()
    ensures Consume(Two(), [Y, X]) == [None, None]
  {
    ConsumeSlot(Two(), [Y, X], 0);
    ConsumeSlot(Two(), [Y, X], 1);
  }

  /** A lone seed is not consumed, so a later seed can still take it into
      its group: X ends up both in its own row and in Y's pattern. */
  lemma LoneSeedLaterGrouped(rowOf: Peak -> Row)
    ensures Processed(rowOf, Grouper(Settings), Two(), 2).rows == [rowOf(X), GroupedRow(rowOf(Y), Y, [Y, X], 1)]
    ensures Processed(rowOf, Grouper(Settings), Two(), 2).pool == [None, None]
  {
    var fit := Grouper(Settings);
    TwoFirstStep(rowOf);
    YTakesX();
    assert fit(Two(), Y) == ChargeFit(1, [Y, X]);
    TwoConsumed();
    StepAtGroupSeed(rowOf, fit, Processed(rowOf, fit, Two(), 1), 1, Y, 1, [Y, X]);
  }
}
