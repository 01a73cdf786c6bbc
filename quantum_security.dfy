/**
 * The quantum page of src/pages/QuantumSecurity.jsx: choosing the charted
 * entry, the severity and standards frequency tables, the risk radar, and the
 * colour of the severity score.
 */
module QuantumSecurity {
  import opened Js
  import opened ScanModel
  import opened ScanContext
  import opened Grouping

  // ---------------------------------------------------------------------------
  // Frequency tables
  // ---------------------------------------------------------------------------

  /** Each tallied string is counted under itself. */
  function SelfKey(s: string): string {
    s
  }

  /** Total of the counts of a table. */
  function SumCounts(t: Obj<nat>): nat {
    if |t| == 0 then 0 else SumCounts(t[..|t| - 1]) + t[|t| - 1].1
  }

  /**
   * `t` counts `keys`: one entry per distinct key, each count at least one and
   * equal to the key's number of occurrences, and the counts summing to the
   * number of keys.
   */
  ghost predicate IsTally(keys: seq<string>, t: Obj<nat>) {
    && DistinctKeys(t)
    && (forall j :: 0 <= j < |t| ==> t[j].1 == |WithKey(keys, SelfKey, t[j].0)| && t[j].1 >= 1)
    && (forall i :: 0 <= i < |keys| ==> HasKey(t, keys[i]))
    && SumCounts(t) == |keys|
  }

  /** The sizes of the groups of equal keys. */
  function Counts(g: Obj<seq<string>>): (t: Obj<nat>)
    ensures |t| == |g|
    ensures forall j :: 0 <= j < |g| ==> t[j] == (g[j].0, |g[j].1|)
  {
    seq(|g|, j requires 0 <= j < |g| => (g[j].0, |g[j].1|))
  }

  /** `keys.reduce((acc, k) => { acc[k] = (acc[k] || 0) + 1; return acc }, {})` */
  method Tally(keys: seq<string>) returns (t: Obj<nat>)
    ensures t == Counts(GroupBy(keys, SelfKey))
    ensures IsTally(keys, t)
  {
    t := [];
    var i := 0;
    while i < |keys|
      invariant 0 <= i <= |keys|
      invariant t == Counts(GroupBy(keys[..i], SelfKey))
    {
      var key := keys[i];
      ghost var g := GroupBy(keys[..i], SelfKey);
      SameKeysSameIndex(t, g, key);
      var j := IndexOfKey(t, key);
      if j == |t| {
        t := t + [(key, 1)];
      } else {
        t := t[j := (key, t[j].1 + 1)];
      }
      assert keys[..i + 1][..i] == keys[..i] && keys[..i + 1][i] == key;
      assert t == Counts(Push(g, key, key));
      i := i + 1;
    }
    assert keys[..i] == keys;
    GroupByIsGrouping(keys, SelfKey);
    CountsOfGrouping(keys, GroupBy(keys, SelfKey));
  }

  /**
   * The entries of a tally come in the order in which their keys first occur
   * (JavaScript's insertion order, which picks each slice's colour).
   */
  lemma TallyFirstOccurrence(keys: seq<string>)
    ensures var t := Counts(GroupBy(keys, SelfKey));
            && (forall j :: 0 <= j < |t| ==> FirstOf(keys, SelfKey, t[j].0) < |keys|)
            && (forall a, b :: 0 <= a < b < |t| ==> FirstOf(keys, SelfKey, t[a].0) < FirstOf(keys, SelfKey, t[b].0))
  {
    GroupByFirstOccurrence(keys, SelfKey);
  }

  lemma {:induction false} SameKeysSameIndex(t: Obj<nat>, g: Obj<seq<string>>, k: string)
    requires |t| == |g| && forall j :: 0 <= j < |g| ==> t[j].0 == g[j].0
    ensures IndexOfKey(t, k) == IndexOfKey(g, k)
    decreases |g|
  {
    if |g| > 0 && g[0].0 != k {
      SameKeysSameIndex(t[1..], g[1..], k);
    }
  }

  lemma CountsOfGrouping(keys: seq<string>, g: Obj<seq<string>>)
    requires IsGrouping(keys, SelfKey, g)
    ensures IsTally(keys, Counts(g))
  {
    var t := Counts(g);
    SumCountsOfCounts(g);
    forall i | 0 <= i < |keys| ensures HasKey(t, keys[i]) {
      assert HasKey(g, SelfKey(keys[i]));
      var w :| 0 <= w < |g| && g[w].0 == keys[i];
      assert t[w].0 == keys[i];
    }
    assert DistinctKeys(t) by {
      forall a, b | 0 <= a < b < |t| ensures t[a].0 != t[b].0 {
        assert t[a].0 == g[a].0 && t[b].0 == g[b].0;
      }
    }
  }

  lemma {:induction false} SumCountsOfCounts(g: Obj<seq<string>>)
    ensures SumCounts(Counts(g)) == SumSizes(g)
    decreases |g|
  {
    if |g| > 0 {
      var n := |g| - 1;
      SumCountsOfCounts(g[..n]);
      assert Counts(g)[..n] == Counts(g[..n]);
    }
  }

  // ---------------------------------------------------------------------------
  // Chart inputs
  // ---------------------------------------------------------------------------

  /** The severities the pie chart counts: controls that exist and have a severity. */
  function SeverityKeys(controls: seq<Option<PqcControl>>): (ks: seq<string>)
    ensures |ks| <= |controls|
    ensures forall i :: 0 <= i < |ks| ==> ks[i] != ""
  {
    if |controls| == 0 then []
    else
      var c := controls[|controls| - 1];
      SeverityKeys(controls[..|controls| - 1]) + (if c.Some? && Truthy(c.value.severity) then [c.value.severity.value] else [])
  }

  /** `control.pqcStandard && control.pqcStandard !== "N/A" && control.pqcStandard !== "None"` */
  predicate IsAdoptedStandard(standard: Option<string>) {
    Truthy(standard) && standard.value != "N/A" && standard.value != "None"
  }

  /** The standards the bar chart counts. */
  function StandardKeys(controls: seq<Option<PqcControl>>): (ks: seq<string>)
    ensures |ks| <= |controls|
    ensures forall i :: 0 <= i < |ks| ==> IsAdoptedStandard(Some(ks[i]))
  {
    if |controls| == 0 then []
    else
      var c := controls[|controls| - 1];
      StandardKeys(controls[..|controls| - 1]) + (if c.Some? && IsAdoptedStandard(c.value.pqcStandard) then [c.value.pqcStandard.value] else [])
  }

  /** The number of controls that exist and whose severity is the non-empty string `k`. */
  function SeverityCount(controls: seq<Option<PqcControl>>, k: string): nat {
    if |controls| == 0 then 0
    else
      var c := controls[|controls| - 1];
      SeverityCount(controls[..|controls| - 1], k) + (if k != "" && c.Some? && c.value.severity == Some(k) then 1 else 0)
  }

  /** Appending at most one key changes each key's number of occurrences by at most that key. */
  lemma CountStep(ks: seq<string>, keep: bool, v: string, k: string)
    ensures |WithKey(ks + (if keep then [v] else []), SelfKey, k)| ==
            |WithKey(ks, SelfKey, k)| + (if keep && v == k then 1 else 0)
  {
    if keep {
      WithKeySnoc(ks, SelfKey, v, k);
    } else {
      assert ks + [] == ks;
    }
  }

  /** Each severity occurs among the pie keys exactly as often as controls carry it. */
  lemma {:induction false} SeverityKeysCount(controls: seq<Option<PqcControl>>, k: string)
    ensures |WithKey(SeverityKeys(controls), SelfKey, k)| == SeverityCount(controls, k)
    decreases |controls|
  {
    if |controls| > 0 {
      var n := |controls| - 1;
      var c := controls[n];
      SeverityKeysCount(controls[..n], k);
      var keep := c.Some? && Truthy(c.value.severity);
      var v := if keep then c.value.severity.value else "";
      assert SeverityKeys(controls) == SeverityKeys(controls[..n]) + (if keep then [v] else []);
      CountStep(SeverityKeys(controls[..n]), keep, v, k);
      assert (keep && v == k) == (k != "" && c.Some? && c.value.severity == Some(k));
    }
  }

  /** The number of controls that exist and name the adopted standard `k`. */
  function StandardCount(controls: seq<Option<PqcControl>>, k: string): nat {
    if |controls| == 0 then 0
    else
      var c := controls[|controls| - 1];
      StandardCount(controls[..|controls| - 1], k) +
        (if IsAdoptedStandard(Some(k)) && c.Some? && c.value.pqcStandard == Some(k) then 1 else 0)
  }

  /** Each standard occurs among the bar keys exactly as often as controls adopt it. */
  lemma {:induction false} StandardKeysCount(controls: seq<Option<PqcControl>>, k: string)
    ensures |WithKey(StandardKeys(controls), SelfKey, k)| == StandardCount(controls, k)
    decreases |controls|
  {
    if |controls| > 0 {
      var n := |controls| - 1;
      var c := controls[n];
      StandardKeysCount(controls[..n], k);
      var keep := c.Some? && IsAdoptedStandard(c.value.pqcStandard);
      var v := if keep then c.value.pqcStandard.value else "";
      assert StandardKeys(controls) == StandardKeys(controls[..n]) + (if keep then [v] else []);
      CountStep(StandardKeys(controls[..n]), keep, v, k);
      assert (keep && v == k) == (IsAdoptedStandard(Some(k)) && c.Some? && c.value.pqcStandard == Some(k));
    }
  }

  /** A tally of `keys` has an entry for `k` exactly when `k` occurs, counting its occurrences. */
  lemma TallyEntries(keys: seq<string>, t: Obj<nat>, k: string)
    requires IsTally(keys, t)
    ensures forall j :: 0 <= j < |t| && t[j].0 == k ==> t[j].1 == |WithKey(keys, SelfKey, k)|
    ensures |WithKey(keys, SelfKey, k)| > 0 ==> HasKey(t, k)
  {
    var w := WithKey(keys, SelfKey, k);
    if |w| > 0 {
      WithKeyMembers(keys, SelfKey, k);
      assert w[0] in w;
      var i :| 0 <= i < |keys| && keys[i] == w[0];
      assert HasKey(t, keys[i]);
    }
  }

  /**
   * The pie table counts every severity exactly as often as the controls carry
   * it, and has an entry for every severity that occurs.
   */
  lemma PieCountsSeverities(controls: seq<Option<PqcControl>>, t: Obj<nat>)
    requires IsTally(SeverityKeys(controls), t)
    ensures forall j :: 0 <= j < |t| ==> t[j].1 == SeverityCount(controls, t[j].0) >= 1
    ensures forall k :: SeverityCount(controls, k) > 0 ==> HasKey(t, k)
  {
    forall k ensures (forall j :: 0 <= j < |t| && t[j].0 == k ==> t[j].1 == SeverityCount(controls, k))
                     && (SeverityCount(controls, k) > 0 ==> HasKey(t, k)) {
      SeverityKeysCount(controls, k);
      TallyEntries(SeverityKeys(controls), t, k);
    }
  }

  /**
   * The bar table counts every adopted standard exactly as often as the
   * controls name it, and has an entry for every one that occurs.
   */
  lemma BarCountsStandards(controls: seq<Option<PqcControl>>, t: Obj<nat>)
    requires IsTally(StandardKeys(controls), t)
    ensures forall j :: 0 <= j < |t| ==> t[j].1 == StandardCount(controls, t[j].0) >= 1
    ensures forall k :: StandardCount(controls, k) > 0 ==> HasKey(t, k)
  {
    forall k ensures (forall j :: 0 <= j < |t| && t[j].0 == k ==> t[j].1 == StandardCount(controls, k))
                     && (StandardCount(controls, k) > 0 ==> HasKey(t, k)) {
      StandardKeysCount(controls, k);
      TallyEntries(StandardKeys(controls), t, k);
    }
  }

  datatype RadarPoint = RadarPoint(subject: string, value: real, fullMark: real)

  /** The five axes of the risk radar for the charted entry. */
  function Radar(main: Control): (r: seq<RadarPoint>)
    requires main.quantumExposure.Some?
    ensures |r| == 5
    ensures forall i :: 0 <= i < 5 ==> r[i].fullMark == 10.0
    ensures r[0] == RadarPoint("PKI Risk", main.quantumExposure.value.severityScore.GetOr(0.0), 10.0)
    ensures r[4] == RadarPoint("Protocol Security", if main.quantumExposure.value.isQuantumVulnerable then 7.0 else 4.0, 10.0)
    ensures forall i :: 1 <= i < 5 ==> 4.0 <= r[i].value <= 8.5
  {
    var qe := main.quantumExposure.value;
    var cert := main.certificateInfo;
    [ RadarPoint("PKI Risk", qe.severityScore.GetOr(0.0), 10.0),
      RadarPoint("Key Exchange", if cert.Some? && cert.value.keyType == Some("ECC") then 8.5 else 6.5, 10.0),
      RadarPoint("Hash Security", if cert.Some? && cert.value.hashAlgorithm == Some("Unknown") then 7.5 else 5.5, 10.0),
      RadarPoint("Cipher Strength", if cert.Some? && cert.value.tlsProtocol == Some("TLSv1.3") then 6.5 else 8.5, 10.0),
      RadarPoint("Protocol Security", if qe.isQuantumVulnerable then 7.0 else 4.0, 10.0) ]
  }

  /** The entry the charts describe and its list of controls, when there is one. */
  function ChartSource(scanResult: Option<Report>): (r: Option<(Control, seq<Option<PqcControl>>)>)
    ensures GetModuleData(scanResult, QuantumKey).None? ==> r.None?
    ensures GetModuleData(scanResult, QuantumKey).Some? ==>
              var main := QuantumMainEntry(GetModuleData(scanResult, QuantumKey).value);
              && (r.Some? <==> main.Some? && main.value.quantumExposure.value.pqcControls.Some?)
              && (r.Some? ==> r.value == (main.value, main.value.quantumExposure.value.pqcControls.value))
  {
    var quantumData := GetModuleData(scanResult, QuantumKey);
    if quantumData.None? then None
    else
      var main := QuantumMainEntry(quantumData.value);
      if main.None? || main.value.quantumExposure.value.pqcControls.None? then None
      else Some((main.value, main.value.quantumExposure.value.pqcControls.value))
  }

  datatype ChartData = ChartData(
    pieData: Obj<nat>,
    barData: Obj<nat>,
    radarData: seq<RadarPoint>,
    mainDomain: Control)

  /**
   * `prepareChartData`. A `null` control passes the guarded severity count
   * but makes `control.pqcStandard` throw; the `catch` turns that into null.
   */
  method PrepareChartData(scanResult: Option<Report>) returns (r: Option<ChartData>)
    ensures r.None? <==> ChartSource(scanResult).None? ||
                         exists i :: 0 <= i < |ChartSource(scanResult).value.1| && ChartSource(scanResult).value.1[i].None?
    ensures r.Some? ==>
              var (main, controls) := ChartSource(scanResult).value;
              && r.value.mainDomain == main
              && IsTally(SeverityKeys(controls), r.value.pieData)
              && IsTally(StandardKeys(controls), r.value.barData)
              && r.value.pieData == Counts(GroupBy(SeverityKeys(controls), SelfKey))
              && r.value.barData == Counts(GroupBy(StandardKeys(controls), SelfKey))
              && (forall a, b :: 0 <= a < b < |r.value.pieData| ==>
                    FirstOf(SeverityKeys(controls), SelfKey, r.value.pieData[a].0) <
                    FirstOf(SeverityKeys(controls), SelfKey, r.value.pieData[b].0))
              && (forall a, b :: 0 <= a < b < |r.value.barData| ==>
                    FirstOf(StandardKeys(controls), SelfKey, r.value.barData[a].0) <
                    FirstOf(StandardKeys(controls), SelfKey, r.value.barData[b].0))
              && (forall j :: 0 <= j < |r.value.pieData| ==>
                    r.value.pieData[j].1 == SeverityCount(controls, r.value.pieData[j].0))
              && (forall j :: 0 <= j < |r.value.barData| ==>
                    r.value.barData[j].1 == StandardCount(controls, r.value.barData[j].0))
              && (forall k :: SeverityCount(controls, k) > 0 ==> HasKey(r.value.pieData, k))
              && (forall k :: StandardCount(controls, k) > 0 ==> HasKey(r.value.barData, k))
              && r.value.radarData == Radar(main)
    ensures r.Some? ==> (HasModuleErrors(scanResult, QuantumKey) <==> r.value.mainDomain.quantumExposure.value.isQuantumVulnerable)
  {
    var quantumData := GetModuleData(scanResult, QuantumKey);
    if quantumData.None? {
      return None;
    }
    var main := QuantumMainEntry(quantumData.value);
    if main.None? {
      return None;
    }
    var quantumExposure := main.value.quantumExposure.value;
    if quantumExposure.pqcControls.None? {
      return None;
    }
    var controls := quantumExposure.pqcControls.value;
    var pieData := Tally(SeverityKeys(controls));
    var nullAt := FindIndex(controls, (c: Option<PqcControl>) => c.None?);
    if nullAt < |controls| {
      return None;
    }
    var barData := Tally(StandardKeys(controls));
    PieCountsSeverities(controls, pieData);
    TallyFirstOccurrence(SeverityKeys(controls));
    TallyFirstOccurrence(StandardKeys(controls));
    BarCountsStandards(controls, barData);
    r := Some(ChartData(pieData, barData, Radar(main.value), main.value));
  }

  // ---------------------------------------------------------------------------
  // Severity score colour
  // ---------------------------------------------------------------------------

  datatype ScoreColor = Green | Yellow | Red {
    function Level(): nat {
      match this
      case Green => 0
      case Yellow => 1
      case Red => 2
    }
  }

  /** `> 7` red, `> 5` yellow, otherwise green; a missing score compares false and is green. */
  function SeverityScoreColor(score: Option<real>): (c: ScoreColor)
    ensures c == Red <==> score.Some? && score.value > 7.0
    ensures c == Yellow <==> score.Some? && 5.0 < score.value <= 7.0
    ensures c == Green <==> score.None? || score.value <= 5.0
  {
    if score.Some? && score.value > 7.0 then Red
    else if score.Some? && score.value > 5.0 then Yellow
    else Green
  }

  /** A higher score never gets a milder colour. */
  lemma ScoreColorMonotone(a: real, b: real)
    requires a <= b
    ensures SeverityScoreColor(Some(a)).Level() <= SeverityScoreColor(Some(b)).Level()
  {
  }
}
