/**
 * The solution callback: it decodes each assignment the solver reports into a per-day list
 * of hospital names and keeps it, until the cap is reached, after which it asks the solver to stop.
 */
module Collector {
  import opened Roster

  /** Names of the hospitals whose variable is 1 in one day's row, in list order. */
  function RowNames(row: seq<bool>, hospitals: seq<string>): (names: seq<string>)
    requires |row| == |hospitals|
    ensures |names| == Count(row)
    ensures forall i :: 0 <= i < |names| ==> names[i] in hospitals
  {
    if row == [] then []
    else
      var n := |row| - 1;
      var init := RowNames(row[..n], hospitals[..n]);
      assert forall i :: 0 <= i < |init| ==> init[i] in hospitals by {
        forall i | 0 <= i < |init| ensures init[i] in hospitals {
          var j :| 0 <= j < n && hospitals[..n][j] == init[i];
          assert hospitals[j] == init[i];
        }
      }
      init + (if row[n] then [hospitals[n]] else [])
  }

  /** `name` is the name of a hospital whose variable is 1 in `row`. */
  predicate OnDutyName(row: seq<bool>, hospitals: seq<string>, name: string)
    requires |row| == |hospitals|
  {
    exists h :: 0 <= h < |row| && row[h] && name == hospitals[h]
  }

  /** A day's decoded names are exactly the names of the hospitals whose variable is 1: each
      name comes from such a hospital, and each such hospital's name is there. */
  lemma {:induction false} RowNamesProvenance(row: seq<bool>, hospitals: seq<string>)
    requires |row| == |hospitals|
    ensures forall i :: 0 <= i < |RowNames(row, hospitals)| ==>
              OnDutyName(row, hospitals, RowNames(row, hospitals)[i])
    ensures forall h :: 0 <= h < |row| && row[h] ==> hospitals[h] in RowNames(row, hospitals)
  {
    if row != [] {
      var n := |row| - 1;
      var init := RowNames(row[..n], hospitals[..n]);
      var names := RowNames(row, hospitals);
      RowNamesProvenance(row[..n], hospitals[..n]);
      assert names == init + (if row[n] then [hospitals[n]] else []);
      forall i | 0 <= i < |names| ensures OnDutyName(row, hospitals, names[i]) {
        if i < |init| {
          assert OnDutyName(row[..n], hospitals[..n], init[i]);
          var h :| 0 <= h < n && row[..n][h] && init[i] == hospitals[..n][h];
          assert row[h] && names[i] == hospitals[h];
        } else {
          assert row[n] && names[i] == hospitals[n];
        }
      }
      forall h | 0 <= h < |row| && row[h] ensures hospitals[h] in names {
        if h < n {
          assert row[..n][h] && hospitals[..n][h] == hospitals[h];
          assert hospitals[h] in init;
        }
      }
    }
  }

  /** The decoded roster of the first `days` days: day by day, the names whose variable is 1. */
  function Decode(x: Matrix, hospitals: seq<string>, days: nat): seq<string>
    requires days <= |x| && forall d :: 0 <= d < days ==> |x[d]| == |hospitals|
  {
    if days == 0 then [] else Decode(x, hospitals, days - 1) + RowNames(x[days - 1], hospitals)
  }

  /** A row with a single duty decodes to that hospital's name alone. */
  lemma {:induction false} RowNamesSingle(row: seq<bool>, hospitals: seq<string>, h: int)
    requires |row| == |hospitals| && Count(row) == 1
    requires 0 <= h < |row| && row[h]
    ensures RowNames(row, hospitals) == [hospitals[h]]
  {
    var n := |row| - 1;
    var init := row[..n];
    if h == n {
      assert |RowNames(init, hospitals[..n])| == Count(init) == 0;
    } else {
      assert init[h];
      CountPositive(init, h);
      RowNamesSingle(init, hospitals[..n], h);
    }
  }

  /** On an assignment with one hospital per day, the decoded list has one entry per day and
      entry `d` is the hospital on duty on day `d`. */
  lemma {:induction false} DecodeOnePerDay(x: Matrix, hospitals: seq<string>, days: nat)
    requires Shaped(x, |x|, |hospitals|) && OneHospitalPerDay(x) && days <= |x|
    ensures |Decode(x, hospitals, days)| == days
    ensures forall d, h :: 0 <= d < days && 0 <= h < |hospitals| && x[d][h]
              ==> Decode(x, hospitals, days)[d] == hospitals[h]
  {
    if days > 0 {
      DecodeOnePerDay(x, hospitals, days - 1);
      var last := x[days - 1];
      var h := FirstTrue(last);
      RowNamesSingle(last, hospitals, h);
      forall h' | 0 <= h' < |hospitals| && last[h']
        ensures Decode(x, hospitals, days)[days - 1] == hospitals[h']
      {
        CountOneUnique(last, h, h');
      }
    }
  }

  /** Two rows with one duty each, at the same position, are equal. */
  lemma SameDutyRow(r: seq<bool>, s: seq<bool>, h: int)
    requires |r| == |s| && Count(r) == 1 && Count(s) == 1
    requires 0 <= h < |r| && r[h] && s[h]
    ensures r == s
  {
    forall j | 0 <= j < |r|
      ensures r[j] == s[j]
    {
      if r[j] { CountOneUnique(r, h, j); }
      if s[j] { CountOneUnique(s, h, j); }
    }
  }

  /** Distinct hospital names make decoding injective on assignments with one hospital per day. */
  lemma DecodeInjective(x: Matrix, y: Matrix, hospitals: seq<string>)
    requires forall i, j :: 0 <= i < j < |hospitals| ==> hospitals[i] != hospitals[j]
    requires Shaped(x, |x|, |hospitals|) && OneHospitalPerDay(x)
    requires Shaped(y, |x|, |hospitals|) && OneHospitalPerDay(y)
    requires Decode(x, hospitals, |x|) == Decode(y, hospitals, |x|)
    ensures x == y
  {
    var r := Decode(x, hospitals, |x|);
    DecodeOnePerDay(x, hospitals, |x|);
    DecodeOnePerDay(y, hospitals, |x|);
    forall d | 0 <= d < |x|
      ensures x[d] == y[d]
    {
      var hx := FirstTrue(x[d]);
      var hy := FirstTrue(y[d]);
      assert r[d] == hospitals[hx] && r[d] == hospitals[hy];
      assert hx == hy;
      SameDutyRow(x[d], y[d], hx);
    }
  }

  /** Decoding one more hospital of a row appends its name when its variable is 1. */
  lemma RowNamesStep(row: seq<bool>, hospitals: seq<string>, h: int)
    requires |row| == |hospitals| && 0 <= h < |row|
    ensures RowNames(row[..h + 1], hospitals[..h + 1])
            == RowNames(row[..h], hospitals[..h]) + (if row[h] then [hospitals[h]] else [])
  {
    assert row[..h + 1][..h] == row[..h] && hospitals[..h + 1][..h] == hospitals[..h];
  }

  /** The callback's nested loops: for each day, for each hospital in list order, append the
      name whose variable has value 1. */
  method DecodeSolution(values: Matrix, hospitals: seq<string>, days: nat) returns (result: seq<string>)
    requires Shaped(values, days, |hospitals|)
    ensures result == Decode(values, hospitals, days)
  {
    result := [];
    var d := 0;
    while d < days
      invariant 0 <= d <= days
      invariant result == Decode(values, hospitals, d)
    {
      var row := values[d];
      ghost var before := result;
      var h := 0;
      while h < |hospitals|
        invariant 0 <= h <= |hospitals|
        invariant result == before + RowNames(row[..h], hospitals[..h])
      {
        RowNamesStep(row, hospitals, h);
        if row[h] {
          result := result + [hospitals[h]];
        }
        h := h + 1;
      }
      assert row[..h] == row && hospitals[..h] == hospitals;
      d := d + 1;
    }
  }

  class SolutionCollector {
    const hospitals: seq<string>
    const days: nat
    const maxSolutions: int
    /** The decoded rosters kept so far, in the order the solver reported them. */
    var solutions: seq<seq<string>>
    var solutionCount: int
    /** Set when the callback has asked the solver to stop (`StopSearch`). */
    var stopRequested: bool

    /** The counter tracks the list, the list never exceeds the cap, and a stop is only
        requested once the cap has been reached. */
    ghost predicate Valid()
      reads this
    {
      && solutionCount == |solutions|
      && (solutions == [] || |solutions| <= maxSolutions)
      && (stopRequested ==> |solutions| >= maxSolutions)
    }

    constructor (hospitals: seq<string>, days: nat, maxSolutions: int)
      ensures Valid()
      ensures this.hospitals == hospitals && this.days == days && this.maxSolutions == maxSolutions
      ensures solutions == [] && !stopRequested
    {
      this.hospitals := hospitals;
      this.days := days;
      this.maxSolutions := maxSolutions;
      solutions := [];
      solutionCount := 0;
      stopRequested := false;
    }

    /** Called by the solver with the values of the solution it has just found. */
    method OnSolutionCallback(values: Matrix)
      requires Valid() && Shaped(values, days, |hospitals|)
      modifies this
      ensures Valid()
      ensures old(solutionCount) >= maxSolutions ==> stopRequested && solutions == old(solutions)
      ensures old(solutionCount) < maxSolutions ==>
                && stopRequested == old(stopRequested)
                && solutions == old(solutions) + [Decode(values, hospitals, days)]
    {
      if solutionCount >= maxSolutions {
        stopRequested := true;
        return;
      }
      var result := DecodeSolution(values, hospitals, days);
      solutions := solutions + [result];
      solutionCount := solutionCount + 1;
    }
  }
}
