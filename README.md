# Emergency-hospital duty roster: a Dafny model

The program builds a month's duty roster for a city's emergency hospitals. Each day exactly one
hospital is on duty. The user enters the hospitals, how many duty days each must get, and the
days each hospital cannot take (its NG days). The program posts these rules to a CP-SAT model and
asks the solver for up to a user-chosen number of rosters. A solution callback collects them.

The model covers that core, one module per part:

- `Calendar`: the month length. It uses the Gregorian days-in-month table with the leap-year rule.
- `Roster`: the rules of a valid roster, as a predicate over the solver's boolean matrix
  `x[d][h]` (day `d` from 0, hospital `h` by its position in the list). There are four families:
  one hospital per day, no duty on an NG day, exact duty counts, and at most one duty per
  4-day window. The module also holds the NG-day index conversion and lemmas about the rules.
- `CpModel`: the constraint-posting loops, as methods that emit the linear constraints as data.
  A lemma proves that an assignment satisfies every posted constraint exactly when it is a
  valid roster.
- `Collector`: `SolutionCollector`, a class whose callback decodes one assignment into a
  per-day list of names and appends it. Once the cap is reached, the callback asks the solver
  to stop instead.
- `App`: the button handler. It checks the sum guard, builds the model and searches. The solver
  is an oracle: the finite sequence of assignments it reports, each satisfying the posted model.

Notes on what the code does:

- The code posts no window constraint when the month has fewer than 4 days (`range(days - 3)` is
  empty). So the window rule means "duties at least 4 days apart" only for 4 or more days
  (`Roster.WindowIffGap`, `Roster.ShortMonthHasNoWindow`). The program never meets the short
  case: its day count is a month length, 28 to 31 (`App.MonthWindowIffGap`).
- Every 4-day window needs 4 different hospitals. So two hospitals with 4 duties each in 8 days
  have no valid roster at all, alternating or not (`Roster.FourHospitalsNeeded`).
- The button handler checks only the sum of the required counts. It does not check a count
  larger than the month (the input widget caps each count at the month length), duplicate or
  empty names, or a non-positive count. It also does not tell an exhausted search from a
  timed-out one.

## Model

| member | source | states |
|---|---|---|
| `Calendar.DaysInMonth` | streamlit_app.py:22 | the month length is 28 to 31; it is 29 exactly for February of a leap year, 28 exactly for February of a common year, and 31 exactly for months 1, 3, 5, 7, 8, 10 and 12 |
| `Calendar.YearLength` | streamlit_app.py:22 | the twelve month lengths add up to 366 in a leap year and 365 otherwise |
| `Roster.NgDays` | streamlit_app.py:76 | a day `k` is listed iff `1 <= k <= days` and editor column `k - 1` is ticked; the list is strictly increasing |
| `Roster.NgDayRoundTrip` | streamlit_app.py:73-76 | column `i` is ticked iff day `i + 1` is listed, and every listed day `k` maps back to a ticked column `k - 1` inside the month (an instance of `Roster.NgDays`'s contract; the use at line 103 is `CpModel.NgRowMeaning`) |
| `Roster.WindowIffGap` | streamlit_app.py:109-112 | with at least 4 days, at most one duty per 4-day window is the same as any two duties of a hospital being at least 4 days apart |
| `Roster.ShortMonthHasNoWindow` | streamlit_app.py:111 | with fewer than 4 days no window is posted: three duties in a row satisfy the window rule but not the gap rule (a case no month length produces) |
| `Roster.NoDutyWithinGap` | streamlit_app.py:109-112 | under the window rule, a hospital on duty on day `i` has no duty on the next 3 days |
| `Roster.GappedLoadBound` | streamlit_app.py:109-112 | duties at least 4 days apart number at most `(days + 3) / 4` |
| `Roster.WindowLoadBound` | streamlit_app.py:106-112 | with at least 4 days, the window rule caps a hospital's duty count at `(days + 3) / 4` |
| `Roster.ExcessLoadInfeasible` | streamlit_app.py:106-112 | a required count above `(days + 3) / 4` admits no valid roster (e.g. 5 or even 3 duties in 8 days) |
| `Roster.CoverageTotal` | streamlit_app.py:96-98 | with one hospital per day, the duty counts of all hospitals add up to the number of days |
| `Roster.GuardNecessary` | streamlit_app.py:96-107 | any assignment with one hospital per day and every hospital at its required count forces the required counts to add up to the month length (the NG and window rules are not needed) |
| `Roster.FourHospitalsNeeded` | streamlit_app.py:96-112 | a valid roster of 4 or more days needs at least 4 hospitals, because any 4 consecutive days have 4 different hospitals |
| `Roster.RoundRobinIsValid` | streamlit_app.py:96-112 | four hospitals taking turns over 8 days, two duties each, is a valid roster, so the predicate is satisfiable |
| `CpModel.PostCoverage` | streamlit_app.py:96-98 | the coverage loop posts, for each day in order, `sum of x[d, h] over all hospitals == 1` |
| `CpModel.PostNgDays` | streamlit_app.py:100-103 | the NG loop posts, for each hospital and each of its listed 1-based days `d`, `x[d - 1, h] == 0` |
| `CpModel.PostLoads` | streamlit_app.py:105-107 | the load loop posts, for each hospital, `sum of x[d, h] over all days == exact_shifts[h]` |
| `CpModel.PostSpacing` | streamlit_app.py:109-112 | the spacing loop posts, for each hospital and each `d in range(days - 3)`, `x[d] + x[d+1] + x[d+2] + x[d+3] <= 1` |
| `CpModel.BuildModel` | streamlit_app.py:96-112 | the model holds the four families in source order |
| `CpModel.CoverageMeaning` | streamlit_app.py:96-98 | the coverage constraints hold iff every day has exactly one hospital |
| `CpModel.NgRowMeaning` | streamlit_app.py:100-103 | one hospital's NG constraints hold iff it has no duty on any day ticked for it |
| `CpModel.NgMeaning` | streamlit_app.py:100-103 | all NG constraints hold iff no hospital is on duty on a day ticked for it |
| `CpModel.LoadMeaning` | streamlit_app.py:105-107 | the load constraints hold iff each hospital's duty count equals its required count |
| `CpModel.SpacingRowMeaning` | streamlit_app.py:109-112 | one hospital's window constraints hold iff its duty calendar obeys the window rule |
| `CpModel.SpacingMeaning` | streamlit_app.py:109-112 | all window constraints hold iff every hospital obeys the window rule |
| `CpModel.PostedMeansValid` | streamlit_app.py:96-112 | every posted variable exists in the assignment, and the assignment satisfies all posted constraints iff it is a valid roster |
| `Collector.RowNames` | streamlit_app.py:131-133 | one day's decoded names are as many as the variables with value 1, and each is a hospital of the list |
| `Collector.RowNamesProvenance` | streamlit_app.py:131-133 | one day's decoded names are exactly those of the hospitals whose variable is 1: each name belongs to such a hospital, and every such hospital's name is in the list |
| `Collector.RowNamesSingle` | streamlit_app.py:131-133 | a day with exactly one duty decodes to that hospital's name alone |
| `Collector.DecodeOnePerDay` | streamlit_app.py:129-133 | on a one-hospital-per-day assignment, the decoded list has one entry per day, and entry `d` is the name of the hospital on duty on day `d` (so it pairs with the date labels) |
| `Collector.DecodeInjective` | streamlit_app.py:129-134 | with distinct names, two one-hospital-per-day assignments with the same decoded list are equal |
| `Collector.DecodeSolution` | streamlit_app.py:129-133 | the nested day/hospital loops build exactly the decoded list: days in order, hospitals in list order |
| `Collector.SolutionCollector.constructor` | streamlit_app.py:115-122 | a new collector holds no solutions, a zero counter and no stop request |
| `Collector.SolutionCollector.OnSolutionCallback` | streamlit_app.py:124-135 | below the cap it appends the decoded assignment and increments the counter; at or above the cap it requests a stop and changes no list; the counter always equals the list length, and the list never exceeds the cap |
| `App.SearchForAllSolutions` | streamlit_app.py:138-142 | whatever the solver reports, the collector keeps the first `min(found, cap)` solutions, decoded in report order, and it asks to stop exactly when more than the cap are reported |
| `App.MonthWindowIffGap` | streamlit_app.py:109-112 | for a calendar month's day count, the posted window rule is exactly the rule that a hospital's duties are at least 4 days apart |
| `App.CreateRosters` | streamlit_app.py:85-145 | with the day count taken from the chosen month, the sum error happens iff the counts do not add up to the month length; "no solution" happens iff they do and nothing is kept; otherwise between 1 and the cap rosters, each decoded from a valid roster and one name per day |
| `App.GuardRejectsOnlyUnsolvable` | streamlit_app.py:85-88 | when the counts do not add up to the month length, the solver can report no assignment at all |
| `App.KeptRostersDistinct` | streamlit_app.py:129-134 | with distinct names and distinct solver assignments, the kept rosters are pairwise distinct |

## Left out

- Streamlit widgets, the sidebar inputs and their bounds (year 2020–2100, 6–10 hospitals, counts 0..days, 1–50 patterns), the data editor, tabs and messages. These are user interface.
- The CP-SAT search: variable creation, search order and the 20-second time limit. This is a foreign library and timing. `App.SearchForAllSolutions` takes the reported assignments as a finite sequence that satisfies the posted model.
- The callback reads each variable through the solver (`self.Value(self._x[d, h])`). The model passes the values of the reported solution to `OnSolutionCallback` as a matrix instead of storing the variable dictionary.
- Holiday lookup, weekday strings and date-label formatting. Only "one roster entry per day" is modelled (`Collector.DecodeOnePerDay`).
- CSV encoding, byte buffers, ZIP bundling and download buttons. These are I/O and serialisation.
- Duplicate hospital names: the program keys counts, NG days and solver variables by name, so equal names share them. The model identifies a hospital by its list position and uses names only in decoding.
- `Calendar.DaysInMonth` requires a month in 1..12. The calendar library raises an error for other months, and the form never passes one.
- `App.KeptRostersDistinct` takes it as given that the solver never reports the same assignment twice. This is the solver's promise, not something the program checks.
