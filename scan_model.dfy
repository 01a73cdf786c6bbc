/**
 * The shape of a scan report as the pages read it: a report holds
 * `groupedResults`, a mapping from module name (`apiSecurity`,
 * `quantumSecurity`, `spfSecurity`, ...) to a module; a module maps a target
 * host name (possibly a wildcard such as `*.example.com`) to a control
 * result, which either carries an `error` or carries `findings` and
 * module-specific fields.
 */
module ScanModel {
  import opened Js

  datatype Finding = Finding(
    controlId: string,
    controlName: string,
    severity: Option<string>,
    observation: string)

  /** One post-quantum cryptography control of a quantum exposure report. */
  datatype PqcControl = PqcControl(severity: Option<string>, pqcStandard: Option<string>)

  datatype QuantumExposure = QuantumExposure(
    isQuantumVulnerable: bool,
    severityScore: Option<real>,
    pqcControls: Option<seq<Option<PqcControl>>>)  // a `null` control is possible on the wire

  datatype CertificateInfo = CertificateInfo(
    keyType: Option<string>,
    hashAlgorithm: Option<string>,
    tlsProtocol: Option<string>)

  /**
   * A control result. `fields` holds the remaining string-valued fields, such
   * as `rawSPFRecord`, `rawDKIMRecord` and `rawDMARCRecord`.
   */
  datatype Control = Control(
    error: Option<string>,
    findings: Option<seq<Finding>>,
    quantumExposure: Option<QuantumExposure>,
    certificateInfo: Option<CertificateInfo>,
    fields: map<string, string>)

  /** `control.error` used as a condition. */
  predicate HasError(c: Control) {
    Truthy(c.error)
  }

  /** `control.findings || []` */
  function FindingsOf(c: Control): seq<Finding> {
    c.findings.GetOr([])
  }

  type Module = Obj<Control>

  type Grouped = Obj<Module>

  /**
   * A report: the raw body of the report endpoint, or the scan result after
   * normalisation (which sets `domain` and `scanTime`).
   */
  datatype Report = Report(
    domain: Option<string>,
    scanTime: Option<string>,
    timestamp: Option<string>,
    groupedResults: Option<Grouped>)

  /** `scanResult?.groupedResults || {}` */
  function GroupedOf(scanResult: Option<Report>): Grouped {
    if scanResult.Some? && scanResult.value.groupedResults.Some? then scanResult.value.groupedResults.value else []
  }

  /** Every finding of every entry of a module, in entry order. */
  function ModuleFindings(m: Module): seq<Finding> {
    if |m| == 0 then [] else ModuleFindings(m[..|m| - 1]) + FindingsOf(m[|m| - 1].1)
  }
}
