/**
 * The constraints posted to the CP-SAT model, written as data, and what satisfying all of
 * them means for a roster. The solver itself is not modelled here.
 */
module CpModel {
  import opened Roster

  /** The boolean variable x[day, hospital]. */
  datatype Var = Var(day: int, hospital: int)

  /** A linear constraint over 0/1 variables, as handed to `model.Add`. */
  datatype Constraint = SumEquals(vars: seq<Var>, rhs: int) | SumAtMost(vars: seq<Var>, rhs: int)

  /** Every variable named exists in the assignment `x`. */
  predicate Defined(x: Matrix, vs: seq<Var>)
  {
    forall i :: 0 <= i < |vs| ==> 0 <= vs[i].day < |x| && 0 <= vs[i].hospital < |x[vs[i].day]|
  }

  /** Value of the sum of the named variables under the assignment `x`. */
  function SumOf(x: Matrix, vs: seq<Var>): int
    requires Defined(x, vs)
  {
    if vs == [] then 0
    else
      var v := vs[|vs| - 1];
      SumOf(x, vs[..|vs| - 1]) + Bit(x[v.day][v.hospital])
  }

  predicate Satisfied(x: Matrix, c: Constraint)
    requires Defined(x, c.vars)
  {
    match c
    case SumEquals(vs, k) => SumOf(x, vs) == k
    case SumAtMost(vs, k) => SumOf(x, vs) <= k
  }

  predicate AllDefined(x: Matrix, cs: seq<Constraint>)
  {
    forall i :: 0 <= i < |cs| ==> Defined(x, cs[i].vars)
  }

  predicate AllSatisfied(x: Matrix, cs: seq<Constraint>)
    requires AllDefined(x, cs)
  {
    forall i :: 0 <= i < |cs| ==> Satisfied(x, cs[i])
  }

  // ---------------------------------------------------------------------------
  // The four families, as the posting loops emit them
  // ---------------------------------------------------------------------------

  /** x[d, h] for every hospital, in list order. */
  function DayVars(d: int, n: nat): seq<Var>
  {
    seq(n, h => Var(d, h))
  }

  /** One `sum == 1` per day. */
  function CoverageConstraints(days: nat, n: nat): seq<Constraint>
  {
    seq(days, d => SumEquals(DayVars(d, n), 1))
  }

  /** `x[d - 1, h] == 0` for every listed 1-based NG day `d` of hospital `h`. */
  function NgConstraintsOf(h: int, ng: seq<int>): seq<Constraint>
  {
    seq(|ng|, k requires 0 <= k < |ng| => SumEquals([Var(ng[k] - 1, h)], 0))
  }

  function NgConstraints(grid: seq<seq<bool>>, n: nat): seq<Constraint>
    requires n <= |grid|
  {
    if n == 0 then [] else NgConstraints(grid, n - 1) + NgConstraintsOf(n - 1, NgDays(grid[n - 1]))
  }

  /** x[d, h] for every day. */
  function HospitalVars(h: int, days: nat): seq<Var>
  {
    seq(days, d => Var(d, h))
  }

  /** One `sum == exact_shifts[h]` per hospital. */
  function LoadConstraints(exact: seq<int>, days: nat): seq<Constraint>
  {
    seq(|exact|, h requires 0 <= h < |exact| => SumEquals(HospitalVars(h, days), exact[h]))
  }

  function WindowVars(d: int, h: int): seq<Var>
  {
    [Var(d, h), Var(d + 1, h), Var(d + 2, h), Var(d + 3, h)]
  }

  /** Length of Python's `range(days - 3)`: empty when there are fewer than 4 days. */
  function WindowStarts(days: nat): nat
  {
    if days >= 3 then days - 3 else 0
  }

  function SpacingConstraintsOf(h: int, days: nat): seq<Constraint>
  {
    seq(WindowStarts(days), d => SumAtMost(WindowVars(d, h), 1))
  }

  function SpacingConstraints(days: nat, n: nat): seq<Constraint>
  {
    if n == 0 then [] else SpacingConstraints(days, n - 1) + SpacingConstraintsOf(n - 1, days)
  }

  /** Everything the model holds, in the order it is posted. */
  function PostedConstraints(c: Config): seq<Constraint>
    requires WellFormed(c)
  {
    var n := |c.hospitals|;
    CoverageConstraints(c.days, n) + NgConstraints(c.ngGrid, n)
      + LoadConstraints(c.exactShifts, c.days) + SpacingConstraints(c.days, n)
  }

  // ---------------------------------------------------------------------------
  // Posting
  // ---------------------------------------------------------------------------

  /** Coverage: `sum(x[d, h] for h in hospitals) == 1` for each day in turn. */
  method PostCoverage(days: nat, n: nat) returns (cs: seq<Constraint>)
    ensures cs == CoverageConstraints(days, n)
  {
    cs := [];
    var d := 0;
    while d < days
      invariant 0 <= d <= days
      invariant cs == CoverageConstraints(d, n)
    {
      cs := cs + [SumEquals(DayVars(d, n), 1)];
      d := d + 1;
    }
  }

  /** Exclusion: for each hospital and each of its 1-based NG days `d`, `x[d - 1, h] == 0`. */
  method PostNgDays(grid: seq<seq<bool>>) returns (cs: seq<Constraint>)
    ensures cs == NgConstraints(grid, |grid|)
  {
    var n := |grid|;
    var ngDays := seq(n, h requires 0 <= h < n => NgDays(grid[h]));
    cs := [];
    var h := 0;
    while h < n
      invariant 0 <= h <= n
      invariant cs == NgConstraints(grid, h)
    {
      var ng := ngDays[h];
      ghost var before := cs;
      var k := 0;
      while k < |ng|
        invariant 0 <= k <= |ng|
        invariant cs == before + NgConstraintsOf(h, ng[..k])
      {
        assert NgConstraintsOf(h, ng[..k + 1]) == NgConstraintsOf(h, ng[..k]) + [SumEquals([Var(ng[k] - 1, h)], 0)];
        cs := cs + [SumEquals([Var(ng[k] - 1, h)], 0)];
        k := k + 1;
      }
      assert ng[..k] == ng;
      h := h + 1;
    }
  }

  /** Exact load: `sum(x[d, h] for d in days) == exact_shifts[h]` for each hospital in turn. */
  method PostLoads(exact: seq<int>, days: nat) returns (cs: seq<Constraint>)
    ensures cs == LoadConstraints(exact, days)
  {
    cs := [];
    var h := 0;
    while h < |exact|
      invariant 0 <= h <= |exact|
      invariant cs == LoadConstraints(exact[..h], days)
    {
      assert LoadConstraints(exact[..h + 1], days)
        == LoadConstraints(exact[..h], days) + [SumEquals(HospitalVars(h, days), exact[h])];
      cs := cs + [SumEquals(HospitalVars(h, days), exact[h])];
      h := h + 1;
    }
    assert exact[..h] == exact;
  }

  /** Spacing: `x[d, h] + x[d+1, h] + x[d+2, h] + x[d+3, h] <= 1` for each hospital and each
      `d in range(days - 3)`. */
  method PostSpacing(days: nat, n: nat) returns (cs: seq<Constraint>)
    ensures cs == SpacingConstraints(days, n)
  {
    cs := [];
    var h := 0;
    while h < n
      invariant 0 <= h <= n
      invariant cs == SpacingConstraints(days, h)
    {
      ghost var before := cs;
      var d := 0;
      while d < days - 3
        invariant 0 <= d <= WindowStarts(days)
        invariant cs == before + SpacingConstraintsOf(h, days)[..d]
      {
        assert SpacingConstraintsOf(h, days)[..d + 1]
          == SpacingConstraintsOf(h, days)[..d] + [SumAtMost(WindowVars(d, h), 1)];
        cs := cs + [SumAtMost(WindowVars(d, h), 1)];
        d := d + 1;
      }
      assert SpacingConstraintsOf(h, days)[..d] == SpacingConstraintsOf(h, days);
      h := h + 1;
    }
  }

  /** The model as posted: the four families in source order. */
  method BuildModel(c: Config) returns (cs: seq<Constraint>)
    requires WellFormed(c)
    ensures cs == PostedConstraints(c)
  {
    var n := |c.hospitals|;
    var coverage := PostCoverage(c.days, n);
    var ng := PostNgDays(c.ngGrid);
    var loads := PostLoads(c.exactShifts, c.days);
    var spacing := PostSpacing(c.days, n);
    cs := coverage + ng + loads + spacing;
  }

  // ---------------------------------------------------------------------------
  // Meaning of the posted model
  // ---------------------------------------------------------------------------

  /** A sum of variables equals the number of true entries of the booleans it reads. */
  lemma {:induction false} SumOfBits(x: Matrix, vs: seq<Var>, bits: seq<bool>)
    requires Defined(x, vs) && |vs| == |bits|
    requires forall i :: 0 <= i < |vs| ==> x[vs[i].day][vs[i].hospital] == bits[i]
    ensures SumOf(x, vs) == Count(bits)
  {
    if vs != [] {
      var m := |vs| - 1;
      assert Defined(x, vs[..m]);
      SumOfBits(x, vs[..m], bits[..m]);
    }
  }

  lemma AllConcat(x: Matrix, a: seq<Constraint>, b: seq<Constraint>)
    ensures AllDefined(x, a + b) <==> AllDefined(x, a) && AllDefined(x, b)
    ensures AllDefined(x, a + b) ==> (AllSatisfied(x, a + b) <==> AllSatisfied(x, a) && AllSatisfied(x, b))
  {
    assert forall i :: 0 <= i < |a| ==> (a + b)[i] == a[i];
    assert forall i :: 0 <= i < |b| ==> (a + b)[|a| + i] == b[i];
  }

  lemma CoverageMeaning(x: Matrix, days: nat, n: nat)
    requires Shaped(x, days, n)
    ensures AllDefined(x, CoverageConstraints(days, n))
    ensures AllSatisfied(x, CoverageConstraints(days, n)) <==> OneHospitalPerDay(x)
  {
    var cs := CoverageConstraints(days, n);
    forall d | 0 <= d < days
      ensures Defined(x, cs[d].vars) && SumOf(x, cs[d].vars) == Count(x[d])
    {
      SumOfBits(x, DayVars(d, n), x[d]);
    }
  }

  /** The NG constraints of one hospital hold exactly when it has no duty on a ticked day. */
  lemma NgRowMeaning(x: Matrix, h: nat, row: seq<bool>)
    requires forall d :: 0 <= d < |x| ==> h < |x[d]|
    requires |row| == |x|
    ensures AllDefined(x, NgConstraintsOf(h, NgDays(row)))
    ensures AllSatisfied(x, NgConstraintsOf(h, NgDays(row)))
        <==> forall d :: 0 <= d < |row| && row[d] ==> !x[d][h]
  {
    var ng := NgDays(row);
    var cs := NgConstraintsOf(h, ng);
    forall k | 0 <= k < |cs|
      ensures Defined(x, cs[k].vars)
      ensures 1 <= ng[k] <= |row| && row[ng[k] - 1] && (Satisfied(x, cs[k]) <==> !x[ng[k] - 1][h])
    {
      assert ng[k] in ng;
      assert SumOf(x, cs[k].vars) == Bit(x[ng[k] - 1][h]) by {
        assert cs[k].vars[..0] == [];
      }
    }
    if AllSatisfied(x, cs) {
      forall d | 0 <= d < |row| && row[d]
        ensures !x[d][h]
      {
        NgDayRoundTrip(row, d);
        var k :| 0 <= k < |ng| && ng[k] == d + 1;
      }
    }
  }

  predicate NgRespectedUpTo(x: Matrix, grid: seq<seq<bool>>, m: nat)
    requires m <= |grid|
    requires forall h :: 0 <= h < m ==> |grid[h]| == |x|
    requires forall d :: 0 <= d < |x| ==> m <= |x[d]|
  {
    forall h, d :: 0 <= h < m && 0 <= d < |x| && grid[h][d] ==> !x[d][h]
  }

  lemma {:induction false} NgMeaning(x: Matrix, grid: seq<seq<bool>>, m: nat)
    requires m <= |grid|
    requires forall h :: 0 <= h < m ==> |grid[h]| == |x|
    requires forall d :: 0 <= d < |x| ==> m <= |x[d]|
    ensures AllDefined(x, NgConstraints(grid, m))
    ensures AllSatisfied(x, NgConstraints(grid, m)) <==> NgRespectedUpTo(x, grid, m)
  {
    if m > 0 {
      NgMeaning(x, grid, m - 1);
      NgRowMeaning(x, m - 1, grid[m - 1]);
      AllConcat(x, NgConstraints(grid, m - 1), NgConstraintsOf(m - 1, NgDays(grid[m - 1])));
    }
  }

  lemma LoadMeaning(x: Matrix, c: Config)
    requires WellFormed(c) && Shaped(x, c.days, |c.hospitals|)
    ensures AllDefined(x, LoadConstraints(c.exactShifts, c.days))
    ensures AllSatisfied(x, LoadConstraints(c.exactShifts, c.days)) <==> ExactLoad(x, c)
  {
    var cs := LoadConstraints(c.exactShifts, c.days);
    forall h | 0 <= h < |cs|
      ensures Defined(x, cs[h].vars) && SumOf(x, cs[h].vars) == DutyCount(x, h)
    {
      SumOfBits(x, HospitalVars(h, c.days), Column(x, h));
    }
  }

  lemma SpacingRowMeaning(x: Matrix, h: nat)
    requires forall d :: 0 <= d < |x| ==> h < |x[d]|
    ensures AllDefined(x, SpacingConstraintsOf(h, |x|))
    ensures AllSatisfied(x, SpacingConstraintsOf(h, |x|)) <==> WindowRule(Column(x, h))
  {
    var cs := SpacingConstraintsOf(h, |x|);
    var col := Column(x, h);
    forall d | 0 <= d < |cs|
      ensures Defined(x, cs[d].vars)
      ensures SumOf(x, cs[d].vars) == WindowDuties(col, d)
    {
      SumOfBits(x, WindowVars(d, h), col[d..d + 4]);
    }
  }

  lemma {:induction false} SpacingMeaning(x: Matrix, m: nat, n: nat)
    requires m <= n && forall d :: 0 <= d < |x| ==> |x[d]| == n
    ensures AllDefined(x, SpacingConstraints(|x|, m))
    ensures AllSatisfied(x, SpacingConstraints(|x|, m))
        <==> forall h :: 0 <= h < m ==> WindowRule(Column(x, h))
  {
    if m > 0 {
      SpacingMeaning(x, m - 1, n);
      SpacingRowMeaning(x, m - 1);
      AllConcat(x, SpacingConstraints(|x|, m - 1), SpacingConstraintsOf(m - 1, |x|));
    }
  }

  /** A solver assignment satisfies every posted constraint exactly when it is a valid roster. */
  lemma PostedMeansValid(x: Matrix, c: Config)
    requires WellFormed(c) && Shaped(x, c.days, |c.hospitals|)
    ensures AllDefined(x, PostedConstraints(c))
    ensures AllSatisfied(x, PostedConstraints(c)) <==> ValidRoster(x, c)
  {
    var n := |c.hospitals|;
    var a := CoverageConstraints(c.days, n);
    var b := NgConstraints(c.ngGrid, n);
    var l := LoadConstraints(c.exactShifts, c.days);
    var s := SpacingConstraints(c.days, n);
    CoverageMeaning(x, c.days, n);
    NgMeaning(x, c.ngGrid, n);
    LoadMeaning(x, c);
    SpacingMeaning(x, n, n);
    AllConcat(x, a, b);
    AllConcat(x, a + b, l);
    AllConcat(x, a + b + l, s);
  }
}
