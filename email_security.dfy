/**
 * The email page of src/pages/EmailSecurity.jsx: the SPF, DKIM and DMARC
 * entries for the main domain, the pass/partial/fail status per protocol,
 * the combined findings list and the empty state.
 */
module EmailSecurity {
  import opened Js
  import opened ScanModel

  /** A key that names the main domain: not a wildcard and not the `www.` host. */
  predicate IsMainDomainKey(k: string) {
    !StartsWith(k, "*") && !StartsWith(k, "www.")
  }

  /**
   * `getMainDomainData(securityData)`: the value of the first main-domain key;
   * null when there is none, or when that key is the (falsy) empty string.
   */
  function GetMainDomainData(securityData: Option<Module>): (r: Option<Control>)
    ensures securityData.None? ==> r.None?
    ensures securityData.Some? ==>
              var m := securityData.value;
              var i := FindIndex(Keys(m), IsMainDomainKey);
              && (r.Some? <==> i < |m| && m[i].0 != "")
              && (r.Some? ==> r.value == m[i].1)
  {
    if securityData.None? then None
    else
      var m := securityData.value;
      var i := FindIndex(Keys(m), IsMainDomainKey);
      if i < |m| && m[i].0 != "" then Lookup(m, m[i].0) else None
  }

  /** The entry returned is the first one whose key is neither a wildcard nor `www.`. */
  lemma MainDomainIsFirstMatch(m: Module)
    requires GetMainDomainData(Some(m)).Some?
    ensures exists i :: 0 <= i < |m| && IsMainDomainKey(m[i].0) &&
                        (forall j :: 0 <= j < i ==> !IsMainDomainKey(m[j].0)) &&
                        GetMainDomainData(Some(m)).value == m[i].1
  {
    var i := FindIndex(Keys(m), IsMainDomainKey);
    assert IsMainDomainKey(Keys(m)[i]);
    forall j | 0 <= j < i ensures !IsMainDomainKey(m[j].0) {
      assert !IsMainDomainKey(Keys(m)[j]);
    }
  }

  /** The three protocol entries, from `groupedResults.spfSecurity` and so on. */
  datatype EmailData = EmailData(spf: Option<Control>, dkim: Option<Control>, dmarc: Option<Control>)

  function ModuleOf(scanResult: Option<Report>, name: string): Option<Module> {
    if scanResult.None? || scanResult.value.groupedResults.None? then None
    else Lookup(scanResult.value.groupedResults.value, name)
  }

  function EmailDataOf(scanResult: Option<Report>): (d: EmailData)
    ensures d.spf == GetMainDomainData(ModuleOf(scanResult, "spfSecurity"))
    ensures d.dkim == GetMainDomainData(ModuleOf(scanResult, "dkimSecurity"))
    ensures d.dmarc == GetMainDomainData(ModuleOf(scanResult, "dmarcSecurity"))
  {
    EmailData(GetMainDomainData(ModuleOf(scanResult, "spfSecurity")),
              GetMainDomainData(ModuleOf(scanResult, "dkimSecurity")),
              GetMainDomainData(ModuleOf(scanResult, "dmarcSecurity")))
  }

  /**
   * The empty state: shown when the page is not in its loading view (tested
   * first) and `!scanResult || (!spfData && !dkimData && !dmarcData)`; an
   * entry object is always truthy.
   */
  function ShowsEmptyState(loading: bool, scanResult: Option<Report>): (r: bool)
    ensures r <==> !loading && (scanResult.None? ||
                                (EmailDataOf(scanResult).spf.None? && EmailDataOf(scanResult).dkim.None? &&
                                 EmailDataOf(scanResult).dmarc.None?))
    ensures !loading && scanResult.Some? && scanResult.value.groupedResults.None? ==> r
  {
    var d := EmailDataOf(scanResult);
    !loading && (scanResult.None? || (d.spf.None? && d.dkim.None? && d.dmarc.None?))
  }

  datatype EmailStatus = Pass | Partial | Fail

  /** A finding whose lower-cased severity is one of `names`. */
  predicate SeverityIn(f: Finding, names: set<string>) {
    f.severity.Some? && Lower(f.severity.value) in names
  }

  /**
   * `getStatusFromFindings(findings)`. `f.severity.toLowerCase()` throws on a
   * finding without a severity; that is the `None` result.
   */
  function GetStatusFromFindings(findings: Option<seq<Finding>>): (r: Option<EmailStatus>)
    ensures findings.None? || findings.value == [] ==> r == Some(Pass)
    ensures findings.Some? && findings.value != [] ==>
              (r.None? <==> exists i :: 0 <= i < |findings.value| && findings.value[i].severity.None?)
    ensures r == Some(Fail) <==>
              findings.Some? && (forall i :: 0 <= i < |findings.value| ==> findings.value[i].severity.Some?) &&
              exists i :: 0 <= i < |findings.value| && SeverityIn(findings.value[i], {"critical", "high"})
    ensures r == Some(Partial) <==>
              findings.Some? && (forall i :: 0 <= i < |findings.value| ==> findings.value[i].severity.Some?) &&
              (forall i :: 0 <= i < |findings.value| ==> !SeverityIn(findings.value[i], {"critical", "high"})) &&
              exists i :: 0 <= i < |findings.value| && SeverityIn(findings.value[i], {"medium", "low"})
  {
    if findings.None? || findings.value == [] then Some(Pass)
    else
      var fs := findings.value;
      var missing := FindIndex(fs, (f: Finding) => f.severity.None?);
      if missing < |fs| then None
      else
        var severities := seq(|fs|, i requires 0 <= i < |fs| => Lower(fs[i].severity.value));
        assert forall i :: 0 <= i < |fs| ==> (severities[i] in {"critical", "high"} <==> SeverityIn(fs[i], {"critical", "high"}));
        assert forall i :: 0 <= i < |fs| ==> (severities[i] in {"medium", "low"} <==> SeverityIn(fs[i], {"medium", "low"}));
        if "critical" in severities || "high" in severities then Some(Fail)
        else if "medium" in severities || "low" in severities then Some(Partial)
        else Some(Pass)
  }

  /** One critical or high finding makes the status "fail", whatever else is listed. */
  lemma OneSevereFindingFails(fs: seq<Finding>, f: Finding)
    requires forall i :: 0 <= i < |fs| ==> fs[i].severity.Some?
    requires SeverityIn(f, {"critical", "high"})
    ensures GetStatusFromFindings(Some(fs + [f])) == Some(Fail)
    ensures GetStatusFromFindings(Some([f] + fs)) == Some(Fail)
  {
    var back, front := fs + [f], [f] + fs;
    assert forall i :: 0 <= i < |fs| ==> back[i] == fs[i] && front[i + 1] == fs[i];
    SevereAtFails(back, |fs|);
    SevereAtFails(front, 0);
  }

  lemma SevereAtFails(fs: seq<Finding>, k: nat)
    requires k < |fs| && SeverityIn(fs[k], {"critical", "high"})
    requires forall i :: 0 <= i < |fs| && i != k ==> fs[i].severity.Some?
    ensures GetStatusFromFindings(Some(fs)) == Some(Fail)
  {
  }

  /** `data?.[recordKey] || 'Not configured'` */
  function RecordText(data: Option<Control>, recordKey: string): (text: string)
    ensures data.Some? && recordKey in data.value.fields && data.value.fields[recordKey] != "" ==>
              text == data.value.fields[recordKey]
    ensures !(data.Some? && recordKey in data.value.fields && data.value.fields[recordKey] != "") ==>
              text == "Not configured"
  {
    if data.Some? && recordKey in data.value.fields then Or(Some(data.value.fields[recordKey]), "Not configured")
    else "Not configured"
  }

  /** `[...(spfData?.findings || []), ...(dkimData?.findings || []), ...(dmarcData?.findings || [])]` */
  function AllFindings(d: EmailData): (all: seq<Finding>)
    ensures |all| == FindingsCount(d.spf) + FindingsCount(d.dkim) + FindingsCount(d.dmarc)
    ensures all[..FindingsCount(d.spf)] == FindingsOfEntry(d.spf)
    ensures all[FindingsCount(d.spf)..FindingsCount(d.spf) + FindingsCount(d.dkim)] == FindingsOfEntry(d.dkim)
    ensures all[FindingsCount(d.spf) + FindingsCount(d.dkim)..] == FindingsOfEntry(d.dmarc)
  {
    var spf := FindingsOfEntry(d.spf);
    var dkim := FindingsOfEntry(d.dkim);
    var dmarc := FindingsOfEntry(d.dmarc);
    assert (spf + dkim + dmarc)[|spf|..|spf| + |dkim|] == dkim;
    spf + dkim + dmarc
  }

  /** `data?.findings || []` */
  function FindingsOfEntry(data: Option<Control>): seq<Finding> {
    if data.Some? then FindingsOf(data.value) else []
  }

  function FindingsCount(data: Option<Control>): nat {
    |FindingsOfEntry(data)|
  }
}
