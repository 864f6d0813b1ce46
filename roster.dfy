/**
 * The duty-roster rules. A roster is the solver's boolean matrix: `x[d][h]` is true when
 * hospital `h` (its position in the hospital list) is on duty on day `d` (0-based).
 */
module Roster {

  type Matrix = seq<seq<bool>>

  /**
   * What the form hands to the engine: the month length, the hospital list, the required
   * duty count of each hospital, and the NG (off-day) grid as ticked in the data editor,
   * one row per hospital and one column per day of the month.
   */
  datatype Config = Config(days: nat, hospitals: seq<string>, exactShifts: seq<int>, ngGrid: seq<seq<bool>>)

  predicate WellFormed(c: Config)
  {
    && |c.exactShifts| == |c.hospitals|
    && |c.ngGrid| == |c.hospitals|
    && forall h :: 0 <= h < |c.ngGrid| ==> |c.ngGrid[h]| == c.days
  }

  /** One variable per (day, hospital) pair. */
  predicate Shaped(x: Matrix, days: nat, n: nat)
  {
    |x| == days && forall d :: 0 <= d < |x| ==> |x[d]| == n
  }

  function Bit(b: bool): nat
  {
    if b then 1 else 0
  }

  /** Number of true entries. */
  function Count(s: seq<bool>): (k: nat)
    ensures k <= |s|
  {
    if s == [] then 0 else Count(s[..|s| - 1]) + Bit(s[|s| - 1])
  }

  function Sum(s: seq<int>): int
  {
    if s == [] then 0 else Sum(s[..|s| - 1]) + s[|s| - 1]
  }

  /** The duty calendar of hospital `h`: its variables for every day. */
  function Column(x: Matrix, h: nat): seq<bool>
    requires forall d :: 0 <= d < |x| ==> h < |x[d]|
  {
    seq(|x|, d requires 0 <= d < |x| => x[d][h])
  }

  function DutyCount(x: Matrix, h: nat): nat
    requires forall d :: 0 <= d < |x| ==> h < |x[d]|
  {
    Count(Column(x, h))
  }

  // ---------------------------------------------------------------------------
  // The four constraint families
  // ---------------------------------------------------------------------------

  /** Coverage: every day has exactly one hospital. */
  predicate OneHospitalPerDay(x: Matrix)
  {
    forall d :: 0 <= d < |x| ==> Count(x[d]) == 1
  }

  /** Exclusion: no hospital is on duty on a day ticked NG for it. */
  predicate NgRespected(x: Matrix, c: Config)
    requires WellFormed(c) && Shaped(x, c.days, |c.hospitals|)
  {
    forall h, d :: 0 <= h < |c.hospitals| && 0 <= d < c.days && c.ngGrid[h][d] ==> !x[d][h]
  }

  /** Exact load: every hospital has exactly its required number of duty days. */
  predicate ExactLoad(x: Matrix, c: Config)
    requires WellFormed(c) && Shaped(x, c.days, |c.hospitals|)
  {
    forall h :: 0 <= h < |c.hospitals| ==> DutyCount(x, h) == c.exactShifts[h]
  }

  /** Spacing, as posted: every window of 4 consecutive days holds at most one duty. */
  predicate WindowRule(col: seq<bool>)
  {
    forall d :: 0 <= d <= |col| - 4 ==> WindowDuties(col, d) <= 1
  }

  /** Duties in the 4-day window starting at day `d`. */
  function WindowDuties(col: seq<bool>, d: int): nat
    requires 0 <= d <= |col| - 4
  {
    Count(col[d..d + 4])
  }

  predicate Spacing(x: Matrix, n: nat)
    requires forall d :: 0 <= d < |x| ==> |x[d]| == n
  {
    forall h :: 0 <= h < n ==> WindowRule(Column(x, h))
  }

  /** A roster the solver may return: all four families hold. */
  predicate ValidRoster(x: Matrix, c: Config)
    requires WellFormed(c)
  {
    && Shaped(x, c.days, |c.hospitals|)
    && OneHospitalPerDay(x)
    && NgRespected(x, c)
    && ExactLoad(x, c)
    && Spacing(x, |c.hospitals|)
  }

  /** The search is started only when the required counts add up to the month length. */
  predicate ShiftSumMatches(c: Config)
  {
    Sum(c.exactShifts) == c.days
  }

  // ---------------------------------------------------------------------------
  // NG-day conversion between the editor's column index and the 1-based day
  // ---------------------------------------------------------------------------

  /** The 1-based days of the ticked columns, in column order (column `i` is day `i + 1`). */
  function NgDays(row: seq<bool>): (ds: seq<int>)
    ensures forall k :: k in ds <==> 1 <= k <= |row| && row[k - 1]
    ensures forall i, j :: 0 <= i < j < |ds| ==> ds[i] < ds[j]
  {
    if row == [] then []
    else
      var init := NgDays(row[..|row| - 1]);
      assert forall i :: 0 <= i < |row| - 1 ==> row[..|row| - 1][i] == row[i];
      assert forall i :: 0 <= i < |init| ==> init[i] < |row| by {
        forall i | 0 <= i < |init| ensures init[i] < |row| {
          assert init[i] in init;
        }
      }
      init + (if row[|row| - 1] then [|row|] else [])
  }

  /** Shifting a listed day back by one lands on a ticked column: the conversion round-trips.
      This is the instance of `NgDays`'s contract that the NG loop relies on; that the loop's
      constraints mean "no duty on a ticked day" is `CpModel.NgRowMeaning`. */
  lemma NgDayRoundTrip(row: seq<bool>, i: int)
    requires 0 <= i < |row|
    ensures row[i] <==> i + 1 in NgDays(row)
    ensures forall k :: k in NgDays(row) ==> 0 <= k - 1 < |row| && row[k - 1]
  {
  }

  // ---------------------------------------------------------------------------
  // Counting lemmas
  // ---------------------------------------------------------------------------

  lemma {:induction false} CountAppend(a: seq<bool>, b: seq<bool>)
    ensures Count(a + b) == Count(a) + Count(b)
  {
    if b != [] {
      var b' := b[..|b| - 1];
      assert (a + b)[..|a + b| - 1] == a + b';
      assert (a + b)[|a + b| - 1] == b[|b| - 1];
      CountAppend(a, b');
      assert Count(a + b) == Count(a + b') + Bit(b[|b| - 1]);
    } else {
      assert a + b == a;
    }
  }

  lemma {:induction false} CountFour(w: seq<bool>)
    requires |w| == 4
    ensures Count(w) == Bit(w[0]) + Bit(w[1]) + Bit(w[2]) + Bit(w[3])
  {
    assert Count(w) == Count(w[..3]) + Bit(w[3]);
    assert w[..3][..2] == w[..2];
    assert Count(w[..3]) == Count(w[..2]) + Bit(w[2]);
    assert w[..2][..1] == w[..1];
    assert Count(w[..2]) == Count(w[..1]) + Bit(w[1]);
    assert w[..1][..0] == [];
    assert Count(w[..1]) == Bit(w[0]);
  }

  lemma {:induction false} CountNone(s: seq<bool>)
    requires forall i :: 0 <= i < |s| ==> !s[i]
    ensures Count(s) == 0
  {
    if s != [] {
      CountNone(s[..|s| - 1]);
    }
  }

  /** A sequence with exactly one true entry has it at exactly one index. */
  lemma {:induction false} CountOneUnique(s: seq<bool>, i: int, j: int)
    requires Count(s) == 1
    requires 0 <= i < |s| && 0 <= j < |s| && s[i] && s[j]
    ensures i == j
  {
    var n := |s| - 1;
    var init := s[..n];
    if i < n && j < n {
      assert init[i] && init[j];
      if s[n] {
        assert Count(init) == 0;
        CountPositive(init, i);
      } else {
        CountOneUnique(init, i, j);
      }
    } else if i < n {
      assert init[i];
      CountPositive(init, i);
    } else if j < n {
      assert init[j];
      CountPositive(init, j);
    }
  }

  lemma {:induction false} CountPositive(s: seq<bool>, i: int)
    requires 0 <= i < |s| && s[i]
    ensures Count(s) >= 1
  {
    if i < |s| - 1 {
      CountPositive(s[..|s| - 1], i);
    }
  }

  // ---------------------------------------------------------------------------
  // Spacing: the window rule and the minimum gap
  // ---------------------------------------------------------------------------

  /** Any two duties of the same hospital are at least 4 days apart. */
  predicate Gapped(col: seq<bool>)
  {
    forall i, j :: 0 <= i < j < |col| && col[i] && col[j] ==> j - i >= 4
  }

  /** With at least 4 days, "at most one duty per 4-day window" is the same as "duties at least 4 days apart". */
  lemma WindowIffGap(col: seq<bool>)
    requires |col| >= 4
    ensures WindowRule(col) <==> Gapped(col)
  {
    if WindowRule(col) {
      forall i, j | 0 <= i < j < |col| && col[i] && col[j]
        ensures j - i >= 4
      {
        if j - i < 4 {
          var d := if i + 4 <= |col| then i else |col| - 4;
          var w := col[d..d + 4];
          assert WindowDuties(col, d) <= 1;
          assert w[i - d] && w[j - d];
          CountFour(w);
        }
      }
    }
    if Gapped(col) {
      forall d | 0 <= d <= |col| - 4
        ensures WindowDuties(col, d) <= 1
      {
        var w := col[d..d + 4];
        assert w[0] == col[d] && w[1] == col[d + 1] && w[2] == col[d + 2] && w[3] == col[d + 3];
        CountFour(w);
      }
    }
  }

  /** Under the window rule, the 3 days after a duty are free for that hospital. */
  lemma NoDutyWithinGap(col: seq<bool>, i: int)
    requires |col| >= 4 && WindowRule(col)
    requires 0 <= i < |col| && col[i]
    ensures forall j :: i < j < i + 4 && j < |col| ==> !col[j]
  {
    WindowIffGap(col);
  }

  /** With fewer than 4 days no window is posted, so one hospital may serve twice in a row.
      The program never meets this case: its day count is a month length, at least 28. */
  lemma ShortMonthHasNoWindow()
    ensures WindowRule([true, true, true]) && !Gapped([true, true, true])
  {
    assert [true, true, true][0] && [true, true, true][1];
  }

  /** Duties at least 4 days apart cap a hospital's load at ceil(days / 4). */
  lemma {:induction false} GappedLoadBound(col: seq<bool>)
    requires Gapped(col)
    ensures Count(col) <= (|col| + 3) / 4
  {
    if col != [] {
      var n := |col|;
      var init := col[..n - 1];
      assert Gapped(init) by {
        forall i, j | 0 <= i < j < |init| && init[i] && init[j] ensures j - i >= 4 {
          assert col[i] && col[j];
        }
      }
      if !col[n - 1] {
        GappedLoadBound(init);
      } else if n < 4 {
        assert forall i :: 0 <= i < |init| ==> !init[i] by {
          forall i | 0 <= i < |init| ensures !init[i] {
            assert init[i] == col[i];
          }
        }
        CountNone(init);
      } else {
        var pre := col[..n - 4];
        var w := col[n - 4..];
        assert col == pre + w;
        assert Gapped(pre) by {
          forall i, j | 0 <= i < j < |pre| && pre[i] && pre[j] ensures j - i >= 4 {
            assert col[i] && col[j];
          }
        }
        GappedLoadBound(pre);
        assert !w[0] && !w[1] && !w[2] by {
          assert col[n - 1];
          assert !col[n - 4] && !col[n - 3] && !col[n - 2];
        }
        CountFour(w);
        CountAppend(pre, w);
      }
    }
  }

  /** Consequence of the window rule: no hospital can be given more than ceil(days / 4) duties. */
  lemma WindowLoadBound(col: seq<bool>)
    requires |col| >= 4 && WindowRule(col)
    ensures Count(col) <= (|col| + 3) / 4
  {
    WindowIffGap(col);
    GappedLoadBound(col);
  }

  /** A required count above ceil(days / 4) admits no valid roster (e.g. 5 duties in 8 days). */
  lemma ExcessLoadInfeasible(x: Matrix, c: Config, h: int)
    requires WellFormed(c) && c.days >= 4
    requires 0 <= h < |c.hospitals| && c.exactShifts[h] > (c.days + 3) / 4
    ensures !ValidRoster(x, c)
  {
    if ValidRoster(x, c) {
      WindowLoadBound(Column(x, h));
    }
  }

  // ---------------------------------------------------------------------------
  // The sum guard
  // ---------------------------------------------------------------------------

  /** Sum of the duty counts of hospitals 0..n-1. */
  function TotalLoad(x: Matrix, n: nat): nat
    requires forall d :: 0 <= d < |x| ==> n <= |x[d]|
  {
    if n == 0 then 0 else TotalLoad(x, n - 1) + DutyCount(x, n - 1)
  }

  /** Adding a day's row to the matrix adds that row's duties (restricted to the first n hospitals). */
  lemma {:induction false} TotalLoadSnoc(x: Matrix, row: seq<bool>, n: nat, m: nat)
    requires n <= m && |row| == m
    requires forall d :: 0 <= d < |x| ==> |x[d]| == m
    ensures TotalLoad(x + [row], n) == TotalLoad(x, n) + Count(row[..n])
  {
    if n > 0 {
      TotalLoadSnoc(x, row, n - 1, m);
      var y := x + [row];
      assert Column(y, n - 1)[..|y| - 1] == Column(x, n - 1);
      assert row[..n][..n - 1] == row[..n - 1];
    }
  }

  /** With one hospital per day, the duty counts of all hospitals add up to the number of days. */
  lemma {:induction false} CoverageTotal(x: Matrix, n: nat)
    requires forall d :: 0 <= d < |x| ==> |x[d]| == n
    requires OneHospitalPerDay(x)
    ensures TotalLoad(x, n) == |x|
  {
    if x == [] {
      if n > 0 { ZeroTotalLoad(x, n); }
    } else {
      var y := x[..|x| - 1];
      var row := x[|x| - 1];
      assert x == y + [row];
      CoverageTotal(y, n);
      TotalLoadSnoc(y, row, n, n);
      assert row[..n] == row;
    }
  }

  lemma {:induction false} ZeroTotalLoad(x: Matrix, n: nat)
    requires x == []
    ensures TotalLoad(x, n) == 0
  {
    if n > 0 { ZeroTotalLoad(x, n - 1); }
  }

  /** With exact loads, the duty counts of hospitals 0..n-1 add up to their required counts. */
  lemma {:induction false} ExactLoadTotal(x: Matrix, c: Config, n: nat)
    requires WellFormed(c) && Shaped(x, c.days, |c.hospitals|)
    requires ExactLoad(x, c) && n <= |c.hospitals|
    ensures TotalLoad(x, n) == Sum(c.exactShifts[..n])
  {
    if n > 0 {
      ExactLoadTotal(x, c, n - 1);
      assert c.exactShifts[..n][..n - 1] == c.exactShifts[..n - 1];
    }
  }

  /** Coverage and exact load force the required counts to add up to the month length:
      a configuration rejected by the sum guard has no valid roster. */
  lemma GuardNecessary(x: Matrix, c: Config)
    requires WellFormed(c) && Shaped(x, c.days, |c.hospitals|) && OneHospitalPerDay(x) && ExactLoad(x, c)
    ensures ShiftSumMatches(c)
  {
    CoverageTotal(x, |c.hospitals|);
    ExactLoadTotal(x, c, |c.hospitals|);
    assert c.exactShifts[..|c.hospitals|] == c.exactShifts;
  }

  // ---------------------------------------------------------------------------
  // The hospital on duty on a day
  // ---------------------------------------------------------------------------

  /** Position of the first true entry. */
  function FirstTrue(row: seq<bool>): (h: nat)
    requires Count(row) >= 1
    ensures h < |row| && row[h]
    ensures forall j :: 0 <= j < h ==> !row[j]
  {
    if row[0] then 0
    else
      assert Count(row) == Count([row[0]]) + Count(row[1..]) by {
        assert row == [row[0]] + row[1..];
        CountAppend([row[0]], row[1..]);
      }
      1 + FirstTrue(row[1..])
  }

  /** Any 4 consecutive days of a valid roster are served by 4 different hospitals,
      so a month of at least 4 days needs at least 4 hospitals. */
  lemma FourHospitalsNeeded(x: Matrix, c: Config)
    requires WellFormed(c) && ValidRoster(x, c) && c.days >= 4
    ensures |c.hospitals| >= 4
  {
    var n := |c.hospitals|;
    var a := seq(4, d requires 0 <= d < 4 => FirstTrue(x[d]));
    forall i, j | 0 <= i < j < 4
      ensures a[i] != a[j]
    {
      var col := Column(x, a[i]);
      assert col[i];
      NoDutyWithinGap(col, i);
      assert !col[j];
      assert x[j][a[j]];
    }
    assert forall d :: 0 <= d < 4 ==> a[d] < n;
    var a0, a1, a2, a3 := a[0], a[1], a[2], a[3];
    assert a0 != a1 && a0 != a2 && a0 != a3 && a1 != a2 && a1 != a3 && a2 != a3;
    assert a0 < n && a1 < n && a2 < n && a3 < n;
  }

  // ---------------------------------------------------------------------------
  // A witness
  // ---------------------------------------------------------------------------

  /** Four hospitals taking turns over 8 days, two duties each and no NG days, is a valid roster. */
  lemma RoundRobinIsValid()
    ensures var x := seq(8, d => seq(4, h => d % 4 == h));
            var c := Config(8, ["A", "B", "C", "D"], [2, 2, 2, 2], seq(4, h => seq(8, d => false)));
            WellFormed(c) && ValidRoster(x, c)
  {
    var x := seq(8, d => seq(4, h => d % 4 == h));
    var c := Config(8, ["A", "B", "C", "D"], [2, 2, 2, 2], seq(4, h => seq(8, d => false)));
    forall d | 0 <= d < 8
      ensures Count(x[d]) == 1
    {
      CountFour(x[d]);
    }
    forall h | 0 <= h < 4
      ensures Column(x, h) == [h == 0, h == 1, h == 2, h == 3] + [h == 0, h == 1, h == 2, h == 3]
    {
    }
    forall h | 0 <= h < 4
      ensures DutyCount(x, h) == 2 && Gapped(Column(x, h))
    {
      var w := [h == 0, h == 1, h == 2, h == 3];
      CountFour(w);
      CountAppend(w, w);
    }
    forall h | 0 <= h < 4
      ensures WindowRule(Column(x, h))
    {
      WindowIffGap(Column(x, h));
    }
  }
}
