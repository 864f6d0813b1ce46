/**
 * The "create roster" action: the sum guard, model building, the search with the collector
 * as callback, and the outcome shown to the user. The CP-SAT search is an oracle here: the
 * finite sequence of assignments it reports, in its own order, before it exhausts the search
 * space or its time limit.
 */
module App {
  import opened Roster
  import opened CpModel
  import opened Collector
  import Calendar

  predicate AllShaped(xs: seq<Matrix>, days: nat, n: nat)
  {
    forall i :: 0 <= i < |xs| ==> Shaped(xs[i], days, n)
  }

  /** What the solver promises of the assignments it reports: a value for every variable,
      and every posted constraint satisfied. */
  predicate SolverSolutions(xs: seq<Matrix>, c: Config, model: seq<Constraint>)
  {
    && AllShaped(xs, c.days, |c.hospitals|)
    && forall i :: 0 <= i < |xs| ==> AllDefined(xs[i], model) && AllSatisfied(xs[i], model)
  }

  /** The decodings of the first `k` reported assignments. */
  function DecodeFirst(xs: seq<Matrix>, k: nat, hospitals: seq<string>, days: nat): seq<seq<string>>
    requires k <= |xs| && AllShaped(xs, days, |hospitals|)
  {
    seq(k, i requires 0 <= i < k => Decode(xs[i], hospitals, days))
  }

  /** The cap as it acts on the number of kept solutions (a cap below 1 keeps none). */
  function Cap(maxSolutions: int): nat
  {
    if maxSolutions <= 0 then 0 else maxSolutions
  }

  function Min(a: nat, b: nat): nat
  {
    if a <= b then a else b
  }

  /**
   * `SearchForAllSolutions`: the solver calls the collector once per solution found, until the
   * collector asks it to stop or the solver runs out of solutions or time. The collector keeps
   * the first `Cap(maxSolutions)` reported solutions, and asks to stop exactly when more are offered.
   */
  method SearchForAllSolutions(c: Config, model: seq<Constraint>, collector: SolutionCollector, found: seq<Matrix>)
    requires WellFormed(c) && model == PostedConstraints(c)
    requires collector.Valid() && collector.solutions == [] && !collector.stopRequested
    requires collector.hospitals == c.hospitals && collector.days == c.days
    requires SolverSolutions(found, c, model)
    modifies collector
    ensures collector.Valid()
    ensures collector.stopRequested <==> |found| > Cap(collector.maxSolutions)
    ensures |collector.solutions| == Min(|found|, Cap(collector.maxSolutions))
    ensures collector.solutions == DecodeFirst(found, |collector.solutions|, c.hospitals, c.days)
  {
    var m := Cap(collector.maxSolutions);
    var i := 0;
    while i < |found| && !collector.stopRequested
      invariant 0 <= i <= |found|
      invariant collector.Valid()
      invariant collector.hospitals == c.hospitals && collector.days == c.days
      invariant if collector.stopRequested then i == m + 1 else i <= m
      invariant collector.solutions == DecodeFirst(found, Min(i, m), c.hospitals, c.days)
    {
      collector.OnSolutionCallback(found[i]);
      assert i < m ==> DecodeFirst(found, i + 1, c.hospitals, c.days)
                       == DecodeFirst(found, i, c.hospitals, c.days) + [Decode(found[i], c.hospitals, c.days)];
      i := i + 1;
    }
  }

  /** What the action shows: the sum error, "no solution", or the rosters found. */
  datatype Outcome = ShiftSumMismatch | NoSolution | Found(rosters: seq<seq<string>>)

  /**
   * The button handler: reject a configuration whose counts do not add up to the month length,
   * otherwise build the model, search with the collector, and report what it kept. The
   * number of days is the length of the chosen month.
   */
  method CreateRosters(year: int, month: int, c: Config, maxPatterns: int, found: seq<Matrix>) returns (out: Outcome)
    requires 1 <= month <= 12 && c.days == Calendar.DaysInMonth(year, month)
    requires WellFormed(c)
    requires SolverSolutions(found, c, PostedConstraints(c))
    ensures out.ShiftSumMismatch? <==> !ShiftSumMatches(c)
    ensures out.NoSolution? <==> ShiftSumMatches(c) && Min(|found|, Cap(maxPatterns)) == 0
    ensures out.Found? ==>
              && 1 <= |out.rosters| == Min(|found|, Cap(maxPatterns))
              && out.rosters == DecodeFirst(found, |out.rosters|, c.hospitals, c.days)
              && (forall k :: 0 <= k < |out.rosters| ==> ValidRoster(found[k], c))
              && (forall k :: 0 <= k < |out.rosters| ==> |out.rosters[k]| == c.days)
  {
    if Sum(c.exactShifts) != c.days {
      return ShiftSumMismatch;
    }
    var model := BuildModel(c);
    var collector := new SolutionCollector(c.hospitals, c.days, maxPatterns);
    SearchForAllSolutions(c, model, collector, found);
    if collector.solutions != [] {
      out := Found(collector.solutions);
      forall k | 0 <= k < |out.rosters|
        ensures ValidRoster(found[k], c) && |out.rosters[k]| == c.days
      {
        PostedMeansValid(found[k], c);
        DecodeOnePerDay(found[k], c.hospitals, c.days);
      }
    } else {
      out := NoSolution;
    }
  }

  /** A month has at least 28 days, so for every hospital the posted window rule is exactly
      the rule that its duties are at least 4 days apart. */
  lemma MonthWindowIffGap(year: int, month: int, col: seq<bool>)
    requires 1 <= month <= 12 && |col| == Calendar.DaysInMonth(year, month)
    ensures WindowRule(col) <==> Gapped(col)
  {
    WindowIffGap(col);
  }

  /** When the counts do not add up to the month length the solver could report no roster
      at all, so the sum guard never discards a solvable configuration. */
  lemma GuardRejectsOnlyUnsolvable(c: Config, found: seq<Matrix>)
    requires WellFormed(c) && !ShiftSumMatches(c)
    requires SolverSolutions(found, c, PostedConstraints(c))
    ensures found == []
  {
    if found != [] {
      PostedMeansValid(found[0], c);
      GuardNecessary(found[0], c);
    }
  }

  /** Every kept roster is distinct when the solver reports distinct assignments and the
      hospital names are distinct. */
  lemma KeptRostersDistinct(c: Config, found: seq<Matrix>, kept: nat)
    requires WellFormed(c) && kept <= |found|
    requires forall i, j :: 0 <= i < j < |c.hospitals| ==> c.hospitals[i] != c.hospitals[j]
    requires SolverSolutions(found, c, PostedConstraints(c))
    requires forall i, j :: 0 <= i < j < |found| ==> found[i] != found[j]
    ensures forall i, j :: 0 <= i < j < kept ==>
              DecodeFirst(found, kept, c.hospitals, c.days)[i] != DecodeFirst(found, kept, c.hospitals, c.days)[j]
  {
    forall i, j | 0 <= i < j < kept
      ensures Decode(found[i], c.hospitals, c.days) != Decode(found[j], c.hospitals, c.days)
    {
      PostedMeansValid(found[i], c);
      PostedMeansValid(found[j], c);
      if Decode(found[i], c.hospitals, c.days) == Decode(found[j], c.hospitals, c.days) {
        DecodeInjective(found[i], found[j], c.hospitals);
      }
    }
  }
}
