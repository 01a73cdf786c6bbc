/**
 * The data page of src/pages/DataSecurity.jsx: one section per host with
 * findings, each listing the findings grouped by severity under a heading
 * with the group's size. The page defines its own `groupFindingsBySeverity`,
 * the same reduction as the API page's; here it is the function
 * `Grouping.GroupBy` that the API page's loop is proved to compute.
 */
module DataSecurity {
  import opened Js
  import opened ScanModel
  import opened ScanContext
  import opened Grouping
  import opened ApiSecurity

  const DataModule: string := "dataSecurity"

  /**
   * The empty state: shown when the page is not in its loading view (tested
   * first) and `!scanResult || !dataSecurityData`.
   */
  function ShowsEmptyState(loading: bool, scanResult: Option<Report>): (r: bool)
    ensures r <==> !loading && GetModuleData(scanResult, DataModule).None?
    ensures r <==> !loading && (scanResult.None? || scanResult.value.groupedResults.None? ||
                                Lookup(scanResult.value.groupedResults.value, DataModule).None?)
  {
    !loading && (scanResult.None? || GetModuleData(scanResult, DataModule).None?)
  }

  /** A group heading: `{severity} Severity Findings ({findings.length})`. */
  datatype Heading = Heading(severity: string, count: nat)

  /** One host section: its domain and its severity headings in group order. */
  datatype Section = Section(domain: string, groups: Obj<seq<Finding>>, headings: seq<Heading>)

  function Headings(groups: Obj<seq<Finding>>): (hs: seq<Heading>)
    ensures |hs| == |groups|
    ensures forall i :: 0 <= i < |hs| ==> hs[i].severity == groups[i].0 && hs[i].count == |groups[i].1|
  {
    seq(|groups|, i requires 0 <= i < |groups| => Heading(groups[i].0, |groups[i].1|))
  }

  /** Sum of the heading counts. */
  function HeadingTotal(hs: seq<Heading>): nat {
    if |hs| == 0 then 0 else HeadingTotal(hs[..|hs| - 1]) + hs[|hs| - 1].count
  }

  lemma {:induction false} HeadingTotalIsSumSizes(groups: Obj<seq<Finding>>)
    ensures HeadingTotal(Headings(groups)) == SumSizes(groups)
    decreases |groups|
  {
    if |groups| > 0 {
      var n := |groups| - 1;
      HeadingTotalIsSumSizes(groups[..n]);
      assert Headings(groups)[..n] == Headings(groups[..n]);
    }
  }

  /** The section of one card: its findings grouped by severity, with a heading per group. */
  function SectionOf(card: (string, seq<Finding>)): (s: Section)
    ensures s.domain == card.0
    ensures IsGrouping(card.1, SeverityKey, s.groups)
    ensures InFirstOccurrenceOrder(card.1, SeverityKey, s.groups)
    ensures s.headings == Headings(s.groups)
    ensures HeadingTotal(s.headings) == |card.1|
  {
    var groups := GroupBy(card.1, SeverityKey);
    GroupByIsGrouping(card.1, SeverityKey);
    GroupByFirstOccurrence(card.1, SeverityKey);
    HeadingTotalIsSumSizes(groups);
    Section(card.0, groups, Headings(groups))
  }

  /** The sections rendered for the module's entries, skipping entries without findings. */
  function Sections(m: Module): (ss: seq<Section>)
    ensures |ss| == |CardEntries(m)|
    ensures forall i :: 0 <= i < |ss| ==>
              && ss[i].domain == CardEntries(m)[i].0
              && IsGrouping(CardEntries(m)[i].1, SeverityKey, ss[i].groups)
              && InFirstOccurrenceOrder(CardEntries(m)[i].1, SeverityKey, ss[i].groups)
              && ss[i].headings == Headings(ss[i].groups)
              && HeadingTotal(ss[i].headings) == |CardEntries(m)[i].1| > 0
  {
    var cards := CardEntries(m);
    seq(|cards|, i requires 0 <= i < |cards| => SectionOf(cards[i]))
  }

  /** Total of the section heading counts. */
  function SectionsTotal(ss: seq<Section>): nat {
    if |ss| == 0 then 0 else SectionsTotal(ss[..|ss| - 1]) + HeadingTotal(ss[|ss| - 1].headings)
  }

  /** The headings together count every finding of the module once. */
  lemma HeadingsCountAllFindings(m: Module)
    ensures SectionsTotal(Sections(m)) == |ModuleFindings(m)|
  {
    HeadingsCountCards(Sections(m), CardEntries(m));
  }

  lemma {:induction false} HeadingsCountCards(ss: seq<Section>, cards: seq<(string, seq<Finding>)>)
    requires |ss| == |cards| && forall i :: 0 <= i < |ss| ==> HeadingTotal(ss[i].headings) == |cards[i].1|
    ensures SectionsTotal(ss) == |Flatten(cards)|
    decreases |ss|
  {
    if |ss| > 0 {
      var n := |ss| - 1;
      HeadingsCountCards(ss[..n], cards[..n]);
    }
  }
}
