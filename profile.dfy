/**
 * The profile card of src/pages/Profile.jsx: the user's domain, the
 * last-scan timestamp and the security grade.
 */
module Profile {
  import opened Js
  import opened ScanModel
  import opened ScanContext
  import opened DashboardHome

  const NotAvailableText: string := "Not Available"

  /** `(email || "User").split("@")[1]`, `undefined` when there is no `@`. */
  function UserDomain(email: Option<string>): (d: Option<string>)
  {
    var userName := Or(email, "User");
    var pieces := Split(userName, '@');
    if |pieces| >= 2 then Some(pieces[1]) else None
  }

  /** The profile shows the same domain that a scan would be started for. */
  lemma UserDomainIsExtractDomain(email: Option<string>)
    ensures UserDomain(email) == ExtractDomain(email)
  {
    var userName := Or(email, "User");
    if '@' in userName {
      SecondPiece(userName);
    } else {
      assert IndexOf(userName, '@') == |userName|;
    }
  }

  /**
   * `calculateSecurityGrade(result)`. With no modules the percentage is
   * `0 / 0 = NaN`, every comparison with it is false, and the grade is "D".
   */
  function CalculateSecurityGrade(result: Option<Report>): (g: Grade)
    ensures g == NotAvailable <==> result.None? || result.value.groupedResults.None?
    ensures result.Some? && result.value.groupedResults == Some([]) ==> g == D
    ensures result.Some? && result.value.groupedResults.Some? && |result.value.groupedResults.value| > 0 ==>
              g == Band(CountPassed(Values(result.value.groupedResults.value)), |result.value.groupedResults.value|)
  {
    if result.None? || result.value.groupedResults.None? then NotAvailable
    else
      var modules := Values(result.value.groupedResults.value);
      var passed := CountPassed(modules);
      if |modules| == 0 then D
      else Band(passed, |modules|)
  }

  /** With at least one module, the profile and the dashboard show the same grade. */
  lemma GradesAgree(result: Option<Report>)
    requires result.Some? && result.value.groupedResults.Some? && |result.value.groupedResults.value| > 0
    ensures CalculateSecurityGrade(result) == DashboardGrade(result)
  {
  }

  /** With an empty module map the profile shows "D" and the dashboard "N/A". */
  lemma GradesDisagreeWithoutModules(result: Option<Report>)
    requires result.Some? && result.value.groupedResults == Some([])
    ensures CalculateSecurityGrade(result) == D
    ensures DashboardGrade(result) == NotAvailable
  {
  }

  /**
   * A result the provider stores always has a `quantumSecurity` module, so
   * both pages show the same grade for every result they can be given.
   */
  lemma GradesAgreeOnStoredResults(result: Report)
    requires IsNormalised(result)
    ensures CalculateSecurityGrade(Some(result)) == DashboardGrade(Some(result))
  {
    assert |result.groupedResults.value| > 0;
    GradesAgree(Some(result));
  }

  /** `scanResult?.timestamp || "Not Available"`, as the card shows it. */
  function LastScanDisplay(scanResult: Option<Report>): (text: string)
    ensures scanResult.Some? && Truthy(scanResult.value.timestamp) ==> text == scanResult.value.timestamp.value
    ensures !(scanResult.Some? && Truthy(scanResult.value.timestamp)) ==> text == NotAvailableText
  {
    if scanResult.None? then NotAvailableText else Or(scanResult.value.timestamp, NotAvailableText)
  }

  /**
   * Normalisation records the time in `scanTime` and never writes
   * `timestamp`: for a stored result whose report had no `timestamp` the card
   * shows "Not Available" although the scan time is known.
   */
  lemma LastScanHidesScanTime(raw: Report, domain: string, now: string)
    requires !Truthy(raw.timestamp) && now != ""
    ensures LastScanDisplay(Some(Normalize(raw, domain, now))) == NotAvailableText
    ensures Normalize(raw, domain, now).scanTime == Some(now)
  {
  }

  /** The last-scan value read from the field normalisation actually sets. */
  function LastScanDisplayFixed(scanResult: Option<Report>): (text: string)
    ensures scanResult.Some? && Truthy(scanResult.value.scanTime) ==> text == scanResult.value.scanTime.value
    ensures !(scanResult.Some? && Truthy(scanResult.value.scanTime)) ==> text == NotAvailableText
  {
    if scanResult.None? then NotAvailableText else Or(scanResult.value.scanTime, NotAvailableText)
  }

  /** Every stored result shows the time it was normalised with. */
  lemma LastScanShowsScanTime(raw: Report, domain: string, now: string)
    requires now != ""
    ensures LastScanDisplayFixed(Some(Normalize(raw, domain, now))) == now
  {
  }
}
