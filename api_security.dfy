/**
 * The API page of src/pages/ApiSecurity.jsx: findings grouped by severity,
 * the severity styles with their fallback, the summary counts, and the
 * per-host cards.
 */
module ApiSecurity {
  import opened Js
  import opened ScanModel
  import opened ScanContext
  import opened Grouping

  const ApiModule: string := "apiSecurity"

  // ---------------------------------------------------------------------------
  // Grouping by severity
  // ---------------------------------------------------------------------------

  /** `finding.severity || "Unknown"` */
  function SeverityKey(f: Finding): (k: string)
    ensures k != ""
    ensures Truthy(f.severity) ==> k == f.severity.value
    ensures !Truthy(f.severity) ==> k == "Unknown"
  {
    Or(f.severity, "Unknown")
  }

  /** `groupFindingsBySeverity(findings)` */
  method GroupFindingsBySeverity(findings: seq<Finding>) returns (groups: Obj<seq<Finding>>)
    ensures groups == GroupBy(findings, SeverityKey)
    ensures IsGrouping(findings, SeverityKey, groups)
  {
    groups := [];
    var i := 0;
    while i < |findings|
      invariant 0 <= i <= |findings|
      invariant groups == GroupBy(findings[..i], SeverityKey)
    {
      var finding := findings[i];
      var severity := SeverityKey(finding);
      ghost var before := groups;
      var j := IndexOfKey(groups, severity);
      if j == |groups| {
        groups := groups + [(severity, [])];
        assert [] + [finding] == [finding];
      }
      groups := groups[j := (severity, groups[j].1 + [finding])];
      assert groups == Push(before, severity, finding);
      assert findings[..i + 1][..i] == findings[..i] && findings[..i + 1][i] == finding;
      i := i + 1;
    }
    assert findings[..i] == findings;
    GroupByIsGrouping(findings, SeverityKey);
  }

  // ---------------------------------------------------------------------------
  // Severity styles
  // ---------------------------------------------------------------------------

  /** The five entries of the `configs` table (the styles themselves are not modelled). */
  datatype SeverityConfig = CriticalConfig | HighConfig | MediumConfig | LowConfig | UnknownConfig {
    function Name(): string {
      match this
      case CriticalConfig => "Critical"
      case HighConfig => "High"
      case MediumConfig => "Medium"
      case LowConfig => "Low"
      case UnknownConfig => "Unknown"
    }
  }

  /** `configs[severity] || configs.Unknown` */
  function GetSeverityConfig(severity: string): (c: SeverityConfig)
    ensures severity in {"Critical", "High", "Medium", "Low", "Unknown"} ==> c.Name() == severity
    ensures severity !in {"Critical", "High", "Medium", "Low", "Unknown"} ==> c == UnknownConfig
  {
    if severity == "Critical" then CriticalConfig
    else if severity == "High" then HighConfig
    else if severity == "Medium" then MediumConfig
    else if severity == "Low" then LowConfig
    else UnknownConfig
  }

  /** Each table entry is found under its own name. */
  lemma ConfigByName(c: SeverityConfig)
    ensures GetSeverityConfig(c.Name()) == c
  {
  }

  // ---------------------------------------------------------------------------
  // Counts
  // ---------------------------------------------------------------------------

  /** `findings.filter(f => f.severity === severity).length` */
  function CountExact(fs: seq<Finding>, severity: string): (n: nat)
    ensures n <= |fs|
  {
    if |fs| == 0 then 0
    else CountExact(fs[..|fs| - 1], severity) + (if fs[|fs| - 1].severity == Some(severity) then 1 else 0)
  }

  /** The summary count: `Object.values(data).reduce((total, d) => total + <count in d>, 0)`. */
  function SummaryCount(m: Module, severity: string): (n: nat)
  {
    if |m| == 0 then 0
    else SummaryCount(m[..|m| - 1], severity) + CountExact(FindingsOf(m[|m| - 1].1), severity)
  }

  lemma {:induction false} CountExactAppend(a: seq<Finding>, b: seq<Finding>, severity: string)
    ensures CountExact(a + b, severity) == CountExact(a, severity) + CountExact(b, severity)
    decreases |b|
  {
    if |b| == 0 {
      assert a + b == a;
    } else {
      assert (a + b)[..|a + b| - 1] == a + b[..|b| - 1];
      CountExactAppend(a, b[..|b| - 1], severity);
    }
  }

  /** A summary count is the number of the module's findings with exactly that severity. */
  lemma {:induction false} SummaryCountOfAllFindings(m: Module, severity: string)
    ensures SummaryCount(m, severity) == CountExact(ModuleFindings(m), severity)
    decreases |m|
  {
    if |m| > 0 {
      SummaryCountOfAllFindings(m[..|m| - 1], severity);
      CountExactAppend(ModuleFindings(m[..|m| - 1]), FindingsOf(m[|m| - 1].1), severity);
    }
  }

  /** For a named severity, the exact-match count is the size of that severity's group. */
  lemma {:induction false} CountExactIsGroupSize(fs: seq<Finding>, severity: string)
    requires severity != "" && severity != "Unknown"
    ensures CountExact(fs, severity) == |WithKey(fs, SeverityKey, severity)|
    decreases |fs|
  {
    if |fs| > 0 {
      CountExactIsGroupSize(fs[..|fs| - 1], severity);
    }
  }

  /** The four summary counts never add up to more than the findings there are. */
  lemma {:induction false} CountsAtMostTotal(fs: seq<Finding>)
    ensures CountExact(fs, "Critical") + CountExact(fs, "High") + CountExact(fs, "Medium") + CountExact(fs, "Low") <= |fs|
    decreases |fs|
  {
    if |fs| > 0 {
      CountsAtMostTotal(fs[..|fs| - 1]);
    }
  }

  lemma SummaryCountsAtMostTotal(m: Module)
    ensures SummaryCount(m, "Critical") + SummaryCount(m, "High") + SummaryCount(m, "Medium") + SummaryCount(m, "Low")
            <= |ModuleFindings(m)|
  {
    SummaryCountOfAllFindings(m, "Critical");
    SummaryCountOfAllFindings(m, "High");
    SummaryCountOfAllFindings(m, "Medium");
    SummaryCountOfAllFindings(m, "Low");
    CountsAtMostTotal(ModuleFindings(m));
  }

  // ---------------------------------------------------------------------------
  // What the page shows
  // ---------------------------------------------------------------------------

  /**
   * The empty state: shown when the page is not in its loading view (tested
   * first) and `!scanResult || !apiSecurityData`.
   */
  function ShowsEmptyState(loading: bool, scanResult: Option<Report>): (r: bool)
    ensures r <==> !loading && (scanResult.None? || scanResult.value.groupedResults.None? ||
                                Lookup(scanResult.value.groupedResults.value, ApiModule).None?)
  {
    !loading && (scanResult.None? || GetModuleData(scanResult, ApiModule).None?)
  }

  /** `data?.findings?.length > 0` */
  predicate HasFindings(c: Control) {
    c.findings.Some? && |c.findings.value| > 0
  }

  /** The module has no findings at all exactly when no entry has any. */
  lemma {:induction false} NoFindingsAnywhere(m: Module)
    ensures ModuleFindings(m) == [] <==> forall i :: 0 <= i < |m| ==> !HasFindings(m[i].1)
    decreases |m|
  {
    if |m| > 0 {
      NoFindingsAnywhere(m[..|m| - 1]);
      assert forall i :: 0 <= i < |m| - 1 ==> m[..|m| - 1][i] == m[i];
    }
  }

  /** `Object.keys(data).length > 0 && Object.values(data).some(d => d?.findings?.length > 0)` */
  function ShowsSummaryCards(m: Module): (r: bool)
    ensures r <==> ModuleFindings(m) != []
  {
    NoFindingsAnywhere(m);
    |m| > 0 && FindIndex(Values(m), HasFindings) < |m|
  }

  /** The positions of the entries that have findings, in increasing order. */
  function CardIndices(m: Module): (idx: seq<nat>)
    ensures forall t :: 0 <= t < |idx| ==> idx[t] < |m| && HasFindings(m[idx[t]].1)
    ensures forall t, u :: 0 <= t < u < |idx| ==> idx[t] < idx[u]
    ensures forall j :: 0 <= j < |m| && HasFindings(m[j].1) ==> j in idx
  {
    if |m| == 0 then []
    else
      var n := |m| - 1;
      assert forall j :: 0 <= j < n ==> m[..n][j] == m[j];
      CardIndices(m[..n]) + (if HasFindings(m[n].1) then [n] else [])
  }

  /** The host cards: entries whose findings list is missing or empty are skipped. */
  function CardEntries(m: Module): (cards: seq<(string, seq<Finding>)>)
    ensures |cards| == |CardIndices(m)| <= |m|
    ensures forall t :: 0 <= t < |cards| ==> cards[t] == CardAt(m, CardIndices(m)[t])
    ensures forall i :: 0 <= i < |cards| ==> cards[i].1 != []
    ensures Flatten(cards) == ModuleFindings(m)
  {
    if |m| == 0 then []
    else
      var n := |m| - 1;
      var last := m[n];
      var rest := CardEntries(m[..n]);
      CardIndicesBound(m);
      CardsExtend(m, rest);
      if HasFindings(last.1) then
        FlattenSnoc(rest, (last.0, FindingsOf(last.1)));
        rest + [(last.0, FindingsOf(last.1))]
      else rest
  }

  /** The card of entry `j`. */
  function CardAt(m: Module, j: nat): (string, seq<Finding>)
    requires j < |m|
  {
    (m[j].0, FindingsOf(m[j].1))
  }

  /** The cards of all entries but the last, extended by the last entry's card if it has findings. */
  lemma CardsExtend(m: Module, rest: seq<(string, seq<Finding>)>)
    requires |m| > 0
    requires |rest| == |CardIndices(m[..|m| - 1])|
    requires forall t :: 0 <= t < |rest| ==>
               rest[t] == CardAt(m[..|m| - 1], CardIndices(m[..|m| - 1])[t])
    ensures var n := |m| - 1;
            var cards := if HasFindings(m[n].1) then rest + [(m[n].0, FindingsOf(m[n].1))] else rest;
            && |cards| == |CardIndices(m)|
            && forall t :: 0 <= t < |cards| ==> cards[t] == CardAt(m, CardIndices(m)[t])
  {
    var n := |m| - 1;
    var init := m[..n];
    var idx0 := CardIndices(init);
    var idx := CardIndices(m);
    assert idx == idx0 + (if HasFindings(m[n].1) then [n] else []);
    forall t | 0 <= t < |idx0| ensures rest[t] == CardAt(m, idx[t]) {
      assert idx[t] == idx0[t] < n;
      assert init[idx0[t]] == m[idx0[t]];
    }
  }

  /** There are never more card positions than entries. */
  lemma {:induction false} CardIndicesBound(m: Module)
    ensures |CardIndices(m)| <= |m|
    decreases |m|
  {
    if |m| > 0 {
      CardIndicesBound(m[..|m| - 1]);
    }
  }

  /** The findings of all cards, card by card. */
  function Flatten(cards: seq<(string, seq<Finding>)>): seq<Finding> {
    if |cards| == 0 then [] else Flatten(cards[..|cards| - 1]) + cards[|cards| - 1].1
  }

  lemma FlattenSnoc(cards: seq<(string, seq<Finding>)>, c: (string, seq<Finding>))
    ensures Flatten(cards + [c]) == Flatten(cards) + c.1
  {
    assert (cards + [c])[..|cards|] == cards;
  }

  /** Position of a named severity in the badge row: Critical, High, Medium, Low. */
  function Rank(name: string): nat {
    if name == "Critical" then 0
    else if name == "High" then 1
    else if name == "Medium" then 2
    else if name == "Low" then 3
    else 4
  }

  /** The badge for one severity name: none when no finding has it (`if (count === 0) return null`). */
  function Badge(fs: seq<Finding>, name: string): (b: seq<(string, nat)>)
    ensures |b| <= 1
    ensures |b| == 1 <==> CountExact(fs, name) > 0
    ensures forall x :: x in b ==> x == (name, CountExact(fs, name))
  {
    if CountExact(fs, name) == 0 then [] else [(name, CountExact(fs, name))]
  }

  /** Badges strictly ordered by rank: no name twice, Critical before High before Medium before Low. */
  predicate RankSorted(badges: seq<(string, nat)>) {
    forall i, j :: 0 <= i < j < |badges| ==> Rank(badges[i].0) < Rank(badges[j].0)
  }

  /** Every badge ranks below `k`. */
  predicate RanksBelow(badges: seq<(string, nat)>, k: nat) {
    forall x :: x in badges ==> Rank(x.0) < k
  }

  /** Appending the badge of a name that ranks above everything so far keeps the row sorted. */
  lemma AppendBadge(acc: seq<(string, nat)>, fs: seq<Finding>, name: string)
    requires RankSorted(acc) && RanksBelow(acc, Rank(name))
    ensures RankSorted(acc + Badge(fs, name)) && RanksBelow(acc + Badge(fs, name), Rank(name) + 1)
  {
    var r := acc + Badge(fs, name);
    forall i, j | 0 <= i < j < |r| ensures Rank(r[i].0) < Rank(r[j].0) {
      if j >= |acc| {
        assert r[j] in Badge(fs, name);
        assert r[i] in acc;
      }
    }
  }

  /**
   * The severity badges of one card: `["Critical", "High", "Medium", "Low"].map(...)`,
   * each with the number of findings of exactly that severity, skipped when zero.
   */
  function Badges(fs: seq<Finding>): (badges: seq<(string, nat)>)
    ensures forall x :: x in badges ==> x.1 > 0 && x.1 == CountExact(fs, x.0)
    ensures forall x :: x in badges ==> x.0 in ["Critical", "High", "Medium", "Low"]
    ensures forall s :: s in ["Critical", "High", "Medium", "Low"] && CountExact(fs, s) > 0 ==>
              (s, CountExact(fs, s)) in badges
    ensures RankSorted(badges)
  {
    var c := Badge(fs, "Critical");
    AppendBadge([], fs, "Critical");
    assert [] + c == c;
    AppendBadge(c, fs, "High");
    AppendBadge(c + Badge(fs, "High"), fs, "Medium");
    AppendBadge(c + Badge(fs, "High") + Badge(fs, "Medium"), fs, "Low");
    c + Badge(fs, "High") + Badge(fs, "Medium") + Badge(fs, "Low")
  }
}
