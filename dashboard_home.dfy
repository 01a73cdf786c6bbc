/**
 * The overview of src/pages/DashboardHome.jsx: how many modules passed, the
 * per-module bar chart rows, the module labels, and the letter grade.
 */
module DashboardHome {
  import opened Js
  import opened ScanModel

  // ---------------------------------------------------------------------------
  // Passed and failed modules
  // ---------------------------------------------------------------------------

  /**
   * `firstKey && !m[firstKey]?.error`: the module has a first entry, its key
   * is not the (falsy) empty string, and that entry carries no error. Later
   * entries are not looked at.
   */
  predicate ModulePassed(m: Module) {
    |m| > 0 && m[0].0 != "" && !HasError(m[0].1)
  }

  /** The number of modules that pass. */
  function CountPassed(mods: seq<Module>): (n: nat)
    ensures n <= |mods|
    ensures n == |mods| <==> forall i :: 0 <= i < |mods| ==> ModulePassed(mods[i])
    ensures n == 0 <==> forall i :: 0 <= i < |mods| ==> !ModulePassed(mods[i])
  {
    if |mods| == 0 then 0
    else
      var rest := CountPassed(mods[1..]);
      assert forall i :: 1 <= i < |mods| ==> mods[i] == mods[1..][i - 1];
      rest + (if ModulePassed(mods[0]) then 1 else 0)
  }

  /** `modules = Object.values(scanResult?.groupedResults || {})` */
  function Modules(scanResult: Option<Report>): (mods: seq<Module>)
    ensures |mods| == |GroupedOf(scanResult)|
    ensures forall i :: 0 <= i < |mods| ==> mods[i] == GroupedOf(scanResult)[i].1
  {
    Values(GroupedOf(scanResult))
  }

  /** `totalModules`, `passedModules` and `failedModules`. */
  datatype ModuleStats = ModuleStats(total: nat, passed: nat, failed: int)

  function Stats(scanResult: Option<Report>): (s: ModuleStats)
    ensures s.total == |GroupedOf(scanResult)|
    ensures 0 <= s.passed <= s.total
    ensures 0 <= s.failed == s.total - s.passed
    ensures s.passed == s.total <==> forall i :: 0 <= i < s.total ==> ModulePassed(GroupedOf(scanResult)[i].1)
    ensures s.failed == s.total <==> forall i :: 0 <= i < s.total ==> !ModulePassed(GroupedOf(scanResult)[i].1)
  {
    var mods := Modules(scanResult);
    var passed := CountPassed(mods);
    ModuleStats(|mods|, passed, |mods| - passed)
  }

  /** Adding a passing module raises both counts; a failing one raises only the total. */
  lemma {:induction false} CountPassedSnoc(mods: seq<Module>, m: Module)
    ensures CountPassed(mods + [m]) == CountPassed(mods) + (if ModulePassed(m) then 1 else 0)
    decreases |mods|
  {
    if |mods| > 0 {
      assert (mods + [m])[1..] == mods[1..] + [m];
      CountPassedSnoc(mods[1..], m);
    }
  }

  // ---------------------------------------------------------------------------
  // Bar chart rows
  // ---------------------------------------------------------------------------

  /**
   * `controlData[firstControlKey]?.error ? 1 : 0`. For an empty module the key
   * is `undefined`, the lookup finds nothing and the row shows no issue.
   */
  function Issues(m: Module): (n: nat)
    ensures n <= 1
    ensures n == 1 <==> |m| > 0 && HasError(m[0].1)
  {
    if |m| > 0 && HasError(m[0].1) then 1 else 0
  }

  /** The row's `status`: the strings "Passed" and "Failed". */
  datatype RowStatus = Passed | Failed

  datatype BarRow = BarRow(name: string, issues: nat, status: RowStatus)

  function Row(key: string, m: Module): (r: BarRow)
    ensures r.name == ModuleLabel(key)
    ensures r.issues <= 1
    ensures r.status == Failed <==> r.issues == 1
    ensures r.issues == 1 <==> |m| > 0 && HasError(m[0].1)
  {
    var issues := Issues(m);
    BarRow(ModuleLabel(key), issues, if issues == 1 then Failed else Passed)
  }

  /** `barData`: one row per module, in module order. */
  function BarData(scanResult: Option<Report>): (rows: seq<BarRow>)
    ensures |rows| == |GroupedOf(scanResult)|
    ensures forall i :: 0 <= i < |rows| ==> rows[i] == Row(GroupedOf(scanResult)[i].0, GroupedOf(scanResult)[i].1)
  {
    var g := GroupedOf(scanResult);
    seq(|g|, i requires 0 <= i < |g| => Row(g[i].0, g[i].1))
  }

  /** Number of rows marked "Failed". */
  function CountFailedRows(rows: seq<BarRow>): nat {
    if |rows| == 0 then 0 else CountFailedRows(rows[..|rows| - 1]) + (if rows[|rows| - 1].status == Failed then 1 else 0)
  }

  /** A module whose row says "Failed" is also counted as failed. */
  lemma FailedRowIsFailedModule(scanResult: Option<Report>, i: nat)
    requires i < |GroupedOf(scanResult)|
    ensures BarData(scanResult)[i].status == Failed ==> !ModulePassed(GroupedOf(scanResult)[i].1)
  {
  }

  /**
   * The chart never shows more failures than the counters. It shows exactly
   * as many when no module is empty and no first key is the empty string.
   */
  lemma FailedRowsAtMostFailedModules(scanResult: Option<Report>)
    ensures CountFailedRows(BarData(scanResult)) <= Stats(scanResult).failed
    ensures (forall i :: 0 <= i < |GroupedOf(scanResult)| ==>
               |GroupedOf(scanResult)[i].1| > 0 && GroupedOf(scanResult)[i].1[0].0 != "") ==>
            CountFailedRows(BarData(scanResult)) == Stats(scanResult).failed
  {
    var g := GroupedOf(scanResult);
    var rows := BarData(scanResult);
    assert forall i :: 0 <= i < |g| ==> (rows[i].status == Failed <==> Issues(g[i].1) == 1);
    FailedRowsCount(g, BarData(scanResult));
    if forall i :: 0 <= i < |g| ==> |g[i].1| > 0 && g[i].1[0].0 != "" {
      FailedRowsCountExact(g, BarData(scanResult));
    }
  }

  lemma {:induction false} FailedRowsCount(g: Grouped, rows: seq<BarRow>)
    requires |rows| == |g| && forall i :: 0 <= i < |g| ==> (rows[i].status == Failed <==> Issues(g[i].1) == 1)
    ensures CountFailedRows(rows) <= |g| - CountPassed(Values(g))
    decreases |g|
  {
    if |g| > 0 {
      var n := |g| - 1;
      var init, rowsInit := g[..n], rows[..n];
      forall i | 0 <= i < n ensures (rowsInit[i].status == Failed <==> Issues(init[i].1) == 1) {
        assert rowsInit[i] == rows[i] && init[i] == g[i];
      }
      FailedRowsCount(init, rowsInit);
      TakeSnoc(g);
      TakeSnoc(rows);
      PassedValuesSnoc(g, init, g[n]);
      FailedRowsSnoc(rows, rowsInit, rows[n]);
      IssuesAgreeWithModule(g[n].1);
      assert rows[n].status == Failed <==> Issues(g[n].1) == 1;
    } else {
      assert Values(g) == [];
    }
  }

  lemma {:induction false} FailedRowsCountExact(g: Grouped, rows: seq<BarRow>)
    requires |rows| == |g| && forall i :: 0 <= i < |g| ==> (rows[i].status == Failed <==> Issues(g[i].1) == 1)
    requires forall i :: 0 <= i < |g| ==> |g[i].1| > 0 && g[i].1[0].0 != ""
    ensures CountFailedRows(rows) == |g| - CountPassed(Values(g))
    decreases |g|
  {
    if |g| > 0 {
      var n := |g| - 1;
      var init, rowsInit := g[..n], rows[..n];
      forall i | 0 <= i < n ensures (rowsInit[i].status == Failed <==> Issues(init[i].1) == 1) {
        assert rowsInit[i] == rows[i] && init[i] == g[i];
      }
      forall i | 0 <= i < n ensures |init[i].1| > 0 && init[i].1[0].0 != "" {
        assert init[i] == g[i];
      }
      FailedRowsCountExact(init, rowsInit);
      TakeSnoc(g);
      TakeSnoc(rows);
      PassedValuesSnoc(g, init, g[n]);
      FailedRowsSnoc(rows, rowsInit, rows[n]);
      IssuesAgreeWithModule(g[n].1);
      assert rows[n].status == Failed <==> Issues(g[n].1) == 1;
    } else {
      assert Values(g) == [];
    }
  }

  lemma PassedValuesSnoc(g: Grouped, init: Grouped, last: (string, Module))
    requires g == init + [last]
    ensures CountPassed(Values(g)) == CountPassed(Values(init)) + (if ModulePassed(last.1) then 1 else 0)
  {
    assert Values(g) == Values(init) + [last.1];
    CountPassedSnoc(Values(init), last.1);
  }

  lemma FailedRowsSnoc(rows: seq<BarRow>, init: seq<BarRow>, last: BarRow)
    requires rows == init + [last]
    ensures CountFailedRows(rows) == CountFailedRows(init) + (if last.status == Failed then 1 else 0)
  {
    assert rows[..|rows| - 1] == init;
  }


  /** A module with an issue has failed; for a module with a non-empty first key the converse holds too. */
  lemma IssuesAgreeWithModule(m: Module)
    ensures Issues(m) == 1 ==> !ModulePassed(m)
    ensures |m| > 0 && m[0].0 != "" ==> (Issues(m) == 1 <==> !ModulePassed(m))
  {
  }

  /**
   * An empty module is counted among the failed modules while its bar says
   * "Passed" with no issue; so is a module whose first key is "".
   */
  lemma EmptyModuleShownAsPassed(scanResult: Option<Report>, i: nat)
    requires i < |GroupedOf(scanResult)|
    requires GroupedOf(scanResult)[i].1 == [] ||
             (GroupedOf(scanResult)[i].1[0].0 == "" && !HasError(GroupedOf(scanResult)[i].1[0].1))
    ensures !ModulePassed(GroupedOf(scanResult)[i].1)
    ensures BarData(scanResult)[i].status == Passed && BarData(scanResult)[i].issues == 0
  {
  }

  // ---------------------------------------------------------------------------
  // Module labels
  // ---------------------------------------------------------------------------

  /** The characters the regular expression `[A-Z]` matches. */
  predicate IsUpper(c: char) {
    'A' <= c <= 'Z'
  }

  /** `s.replace(/([A-Z])/g, ' $1')` */
  function SpaceBeforeCapitals(s: string): (r: string)
    ensures |r| >= |s|
  {
    if |s| == 0 then "" else SpacedHead(s[0]) + SpaceBeforeCapitals(s[1..])
  }

  /** `module.replace(/([A-Z])/g, ' $1').trim()`: `"apiSecurity"` becomes `"api Security"`. */
  function ModuleLabel(key: string): (text: string)
    ensures text == [] || (!IsWhiteSpace(text[0]) && !IsWhiteSpace(text[|text| - 1]))
  {
    Trim(SpaceBeforeCapitals(key))
  }

  /** For a key without white space, removing the spaces from its label gives the key back. */
  lemma LabelRestoresKey(key: string)
    requires forall i :: 0 <= i < |key| ==> !IsWhiteSpace(key[i])
    ensures RemoveAll(ModuleLabel(key), ' ') == key
  {
    var spaced := SpaceBeforeCapitals(key);
    SpacedWhiteSpaceIsSpace(key);
    assert ' ' !in key;
    RemoveSpacesUndoesSpacing(key);
    assert SpacesOnly(spaced);
    TrimKeepsNonSpaces(spaced);
  }

  /** All white space in `s` is spaces. */
  predicate SpacesOnly(s: string) {
    forall i :: 0 <= i < |s| ==> IsWhiteSpace(s[i]) ==> s[i] == ' '
  }

  /** When all white space in `s` is spaces, trimming removes only spaces. */
  lemma TrimKeepsNonSpaces(s: string)
    requires SpacesOnly(s)
    ensures RemoveAll(Trim(s), ' ') == RemoveAll(s, ' ')
  {
    TrimStartKeepsNonSpaces(s);
    TrimEndKeepsNonSpaces(TrimStart(s));
  }

  lemma {:induction false} TrimStartKeepsNonSpaces(s: string)
    requires SpacesOnly(s)
    ensures SpacesOnly(TrimStart(s)) && RemoveAll(TrimStart(s), ' ') == RemoveAll(s, ' ')
    decreases |s|
  {
    if |s| > 0 && IsWhiteSpace(s[0]) {
      assert s[0] == ' ';
      assert SpacesOnly(s[1..]) by {
        forall i | 0 <= i < |s[1..]| ensures IsWhiteSpace(s[1..][i]) ==> s[1..][i] == ' ' {
          assert s[1..][i] == s[i + 1];
        }
      }
      TrimStartKeepsNonSpaces(s[1..]);
    }
  }

  lemma {:induction false} TrimEndKeepsNonSpaces(s: string)
    requires SpacesOnly(s)
    ensures RemoveAll(TrimEnd(s), ' ') == RemoveAll(s, ' ')
    decreases |s|
  {
    if |s| > 0 && IsWhiteSpace(s[|s| - 1]) {
      var n := |s| - 1;
      assert s[n] == ' ';
      assert SpacesOnly(s[..n]) by {
        forall i | 0 <= i < n ensures IsWhiteSpace(s[..n][i]) ==> s[..n][i] == ' ' {
          assert s[..n][i] == s[i];
        }
      }
      TrimEndKeepsNonSpaces(s[..n]);
      assert s == s[..n] + [s[n]];
      RemoveAllAppend(s[..n], [s[n]], ' ');
      assert RemoveAll([s[n]], ' ') == "" by { assert [s[n]][1..] == ""; }
    }
  }

  /** The only white space in a spaced key is the spaces that were inserted. */
  lemma {:induction false} SpacedWhiteSpaceIsSpace(key: string)
    requires forall i :: 0 <= i < |key| ==> !IsWhiteSpace(key[i])
    ensures forall i :: 0 <= i < |SpaceBeforeCapitals(key)| ==>
              IsWhiteSpace(SpaceBeforeCapitals(key)[i]) ==> SpaceBeforeCapitals(key)[i] == ' '
    decreases |key|
  {
    if |key| > 0 {
      SpacedWhiteSpaceIsSpace(key[1..]);
      var head := SpacedHead(key[0]);
      var r := SpaceBeforeCapitals(key);
      assert r == head + SpaceBeforeCapitals(key[1..]);
      forall i | 0 <= i < |r| && IsWhiteSpace(r[i]) ensures r[i] == ' ' {
        if i >= |head| {
          assert r[i] == SpaceBeforeCapitals(key[1..])[i - |head|];
        }
      }
    }
  }

  lemma {:induction false} RemoveSpacesUndoesSpacing(key: string)
    requires ' ' !in key
    ensures RemoveAll(SpaceBeforeCapitals(key), ' ') == key
    decreases |key|
  {
    if |key| > 0 {
      var c, rest := key[0], key[1..];
      assert ' ' !in rest;
      RemoveSpacesUndoesSpacing(rest);
      RemoveSpacesFromHead(c);
      RemoveAllAppend(SpacedHead(c), SpaceBeforeCapitals(rest), ' ');
      assert key == [c] + rest;
    }
  }

  /** What `SpaceBeforeCapitals` writes for one character. */
  function SpacedHead(c: char): string {
    if IsUpper(c) then [' ', c] else [c]
  }

  lemma RemoveSpacesFromHead(c: char)
    requires c != ' '
    ensures RemoveAll(SpacedHead(c), ' ') == [c]
  {
    assert RemoveAll([c], ' ') == [c] by { assert [c][1..] == ""; }
    if IsUpper(c) {
      assert SpacedHead(c)[1..] == [c];
    }
  }

  // ---------------------------------------------------------------------------
  // Grades
  // ---------------------------------------------------------------------------

  datatype Grade = NotAvailable | APlus | A | B | C | D {
    /** Better grades rank higher; "N/A" ranks lowest. */
    function Rank(): nat {
      match this
      case NotAvailable => 0
      case D => 1
      case C => 2
      case B => 3
      case A => 4
      case APlus => 5
    }
  }

  /**
   * The thresholds on `percent = passed / total * 100`, compared as
   * `passed * 100 >= k * total` so that no division is needed.
   */
  function Band(passed: nat, total: nat): (g: Grade)
    requires total > 0
    ensures g != NotAvailable
    ensures g == APlus <==> passed * 100 >= 90 * total
    ensures g == A <==> 75 * total <= passed * 100 < 90 * total
    ensures g == B <==> 60 * total <= passed * 100 < 75 * total
    ensures g == C <==> 45 * total <= passed * 100 < 60 * total
    ensures g == D <==> passed * 100 < 45 * total
  {
    if passed * 100 >= 90 * total then APlus
    else if passed * 100 >= 75 * total then A
    else if passed * 100 >= 60 * total then B
    else if passed * 100 >= 45 * total then C
    else D
  }

  /** `calculateGrade()`: "N/A" exactly when there are no modules. */
  function CalculateGrade(passed: nat, total: nat): (g: Grade)
    ensures g == NotAvailable <==> total == 0
    ensures total > 0 ==> g == Band(passed, total)
  {
    if total == 0 then NotAvailable else Band(passed, total)
  }

  /** The grade the dashboard shows for a scan result. */
  function DashboardGrade(scanResult: Option<Report>): (g: Grade)
    ensures g == NotAvailable <==> |GroupedOf(scanResult)| == 0
  {
    var s := Stats(scanResult);
    CalculateGrade(s.passed, s.total)
  }

  /** For a fixed total, more passed modules never give a worse grade. */
  lemma GradeMonotone(p1: nat, p2: nat, total: nat)
    requires p1 <= p2
    ensures CalculateGrade(p1, total).Rank() <= CalculateGrade(p2, total).Rank()
  {
    if total > 0 {
      assert p1 * 100 <= p2 * 100;
    }
  }

  /** Every module passing gives "A+", none passing gives "D". */
  lemma GradeExtremes(total: nat)
    requires total > 0
    ensures CalculateGrade(total, total) == APlus
    ensures CalculateGrade(0, total) == D
  {
  }
}
