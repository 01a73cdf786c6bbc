/**
 * The scan provider of src/context/ScanContext.jsx: the shared state
 * (`scanResult`, `loading`, `error`, `lastScanTime`), starting a scan and
 * polling its status, fetching the latest scan, normalising a report, and the
 * read accessors the pages use.
 *
 * The remote service is not modelled: each reply it could give is an input.
 * One firing of a session's `setInterval` callback is one call of
 * `Poll.Tick`. Clock readings are inputs too.
 */
module ScanContext {
  import opened Js
  import opened ScanModel

  const NoDomainMessage: string := "Cannot extract domain from email address."
  const TimedOutMessage: string := "Scan timed out. Please try again."
  const FailedMessage: string := "Scan failed. Please try again."
  const StartFailedMessage: string := "Failed to start scan."
  /** Status queries one session may make (3 s apart, one minute in all). */
  const MaxRetries: nat := 20
  const QuantumKey: string := "quantumSecurity"

  // ---------------------------------------------------------------------------
  // Domain derivation
  // ---------------------------------------------------------------------------

  /**
   * `extractDomain(email)`: `email.split("@")[1]`, the text between the first
   * `@` and the next `@` (or the end), or null.
   */
  function ExtractDomain(email: Option<string>): (d: Option<string>)
    ensures d.None? <==> !Truthy(email) || '@' !in email.value
    ensures d.Some? ==> '@' !in d.value && IsDomainPart(email.value, d.value)
  {
    if !Truthy(email) || '@' !in email.value then None
    else Some(DomainPart(email.value))
  }

  /** `d` is the text from just after the first `@` of `e` up to the next `@` or the end. */
  predicate IsDomainPart(e: string, d: string) {
    var i := IndexOf(e, '@');
    var end := i + 1 + |d|;
    end <= |e| && d == e[i + 1..end] && (end == |e| || e[end] == '@')
  }

  /** `e.split("@")[1]` for an `e` that contains `@`. */
  function DomainPart(e: string): (d: string)
    requires '@' in e
    ensures '@' !in d && IsDomainPart(e, d)
  {
    var i := IndexOf(e, '@');
    var t := e[i + 1..];
    SecondPiece(e);
    PieceBetween(e, i, t, IndexOf(t, '@'), Split(e, '@')[1]);
    Split(e, '@')[1]
  }

  /** The second piece of `e.split("@")` is the first piece of what follows the first `@`. */
  lemma SecondPiece(e: string)
    requires '@' in e
    ensures |Split(e, '@')| >= 2
    ensures var t := e[IndexOf(e, '@') + 1..]; Split(e, '@')[1] == t[..IndexOf(t, '@')]
  {
    var t := e[IndexOf(e, '@') + 1..];
    var rest := Split(t, '@');
    SplitAtFirst(e, '@');
    SecondOfCons(e[..IndexOf(e, '@')], rest);
  }

  lemma SecondOfCons(head: string, rest: seq<string>)
    requires |rest| >= 1
    ensures |[head] + rest| >= 2 && ([head] + rest)[1] == rest[0]
  {
  }

  lemma PieceBetween(e: string, i: nat, t: string, j: nat, d: string)
    requires i == IndexOf(e, '@') < |e| && t == e[i + 1..] && j == IndexOf(t, '@') && d == t[..j]
    ensures '@' !in d && IsDomainPart(e, d)
  {
  }

  // ---------------------------------------------------------------------------
  // Report normalisation (the block that appears at lines 33-48 and 102-116)
  // ---------------------------------------------------------------------------

  /** What normalisation guarantees to every consumer. */
  predicate IsNormalised(r: Report) {
    r.groupedResults.Some? && Lookup(r.groupedResults.value, QuantumKey).Some?
  }

  /**
   * `{...report, scanTime, domain}` with `groupedResults` defaulted to `{}` and
   * `groupedResults.quantumSecurity` defaulted to `{}` (added as the last key).
   */
  function Normalize(raw: Report, domain: string, scanTime: string): (r: Report)
    ensures r.domain == Some(domain) && r.scanTime == Some(scanTime) && r.timestamp == raw.timestamp
    ensures IsNormalised(r)
    ensures var g := raw.groupedResults.GetOr([]);
            && |g| <= |r.groupedResults.value| <= |g| + 1
            && r.groupedResults.value[..|g|] == g
            && (Lookup(g, QuantumKey).Some? ==> r.groupedResults.value == g)
            && (Lookup(g, QuantumKey).None? ==> r.groupedResults.value == g + [(QuantumKey, [])])
            && (forall k :: k != QuantumKey ==> Lookup(r.groupedResults.value, k) == Lookup(g, k))
            && Lookup(r.groupedResults.value, QuantumKey) ==
               (if Lookup(g, QuantumKey).Some? then Lookup(g, QuantumKey) else Some([]))
  {
    var g := raw.groupedResults.GetOr([]);
    var g' := if Lookup(g, QuantumKey).Some? then g else g + [(QuantumKey, [])];
    forall k ensures Lookup(g + [(QuantumKey, [])], k) ==
                     if Lookup(g, k).Some? then Lookup(g, k) else if k == QuantumKey then Some([]) else None {
      LookupSnoc(g, (QuantumKey, []), k);
    }
    assert (g + [(QuantumKey, [])])[..|g|] == g;
    Report(Some(domain), Some(scanTime), raw.timestamp, Some(g'))
  }

  /** Normalising a normalised report again with the same domain and time changes nothing. */
  lemma NormalizeIdempotent(raw: Report, domain: string, scanTime: string)
    ensures Normalize(Normalize(raw, domain, scanTime), domain, scanTime) == Normalize(raw, domain, scanTime)
  {
  }

  // ---------------------------------------------------------------------------
  // Accessors
  // ---------------------------------------------------------------------------

  /** The entry `getModuleData` moves to the front of the quantum module. */
  predicate IsQuantumMainKey(e: (string, Control)) {
    !StartsWith(e.0, "*") && !HasError(e.1)
  }

  /** `{[m[i].0]: m[i].1, ...m}`: the entry at `i` first, the others in order. */
  function MoveToFront(m: Module, i: nat): (r: Module)
    requires i < |m|
    ensures |r| >= 1 && r[0] == m[i]
    ensures DistinctKeys(m) ==> r == [m[i]] + m[..i] + m[i + 1..]
    ensures DistinctKeys(m) ==> |r| == |m| && DistinctKeys(r)
    ensures DistinctKeys(m) ==> forall k :: Lookup(r, k) == Lookup(m, k)
  {
    MoveToFrontKeepsEntries(m, i);
    [m[i]] + RemoveKey(m, m[i].0)
  }

  lemma MoveToFrontKeepsEntries(m: Module, i: nat)
    requires i < |m|
    ensures DistinctKeys(m) ==> var r := [m[i]] + RemoveKey(m, m[i].0);
              && r == [m[i]] + m[..i] + m[i + 1..]
              && |r| == |m| && DistinctKeys(r) && forall k :: Lookup(r, k) == Lookup(m, k)
  {
    if DistinctKeys(m) {
      var rest := RemoveKey(m, m[i].0);
      RemoveKeyOfDistinct(m, i);
      RemoveKeyAt(m, i);
      LookupAt(m, i);
      forall x ensures Lookup([m[i]] + rest, x) == Lookup(m, x) {
        LookupCons(m[i], rest, x);
      }
    }
  }

  /** Removing a key that occurs once from an object with distinct keys. */
  lemma {:induction false} RemoveKeyOfDistinct(m: Module, i: nat)
    requires DistinctKeys(m) && i < |m|
    ensures |RemoveKey(m, m[i].0)| == |m| - 1
    ensures DistinctKeys(RemoveKey(m, m[i].0))
    ensures forall j :: 0 <= j < |RemoveKey(m, m[i].0)| ==> RemoveKey(m, m[i].0)[j] in m
  {
    var k := m[i].0;
    if i == 0 {
      assert RemoveKey(m[1..], k) == m[1..] by { RemoveAbsentKey(m[1..], k); }
    } else {
      assert m[1..][i - 1] == m[i];
      RemoveKeyOfDistinct(m[1..], i - 1);
      var rest := RemoveKey(m[1..], k);
      assert RemoveKey(m, k) == [m[0]] + rest;
      forall a, b | 0 <= a < b < |[m[0]] + rest| ensures ([m[0]] + rest)[a].0 != ([m[0]] + rest)[b].0 {
        if a == 0 {
          assert rest[b - 1] in m[1..];
        }
      }
    }
  }

  /** In an object with distinct keys, removing the key at `i` cuts out exactly that entry. */
  lemma {:induction false} RemoveKeyAt(m: Module, i: nat)
    requires DistinctKeys(m) && i < |m|
    ensures RemoveKey(m, m[i].0) == m[..i] + m[i + 1..]
  {
    var k := m[i].0;
    if i == 0 {
      RemoveAbsentKey(m[1..], k);
      assert m[..0] + m[1..] == m[1..];
    } else {
      var t := m[1..];
      assert t[i - 1] == m[i];
      assert DistinctKeys(t);
      RemoveKeyAt(t, i - 1);
      assert RemoveKey(m, k) == [m[0]] + RemoveKey(t, k);
      assert t[..i - 1] == m[1..i] && t[i..] == m[i + 1..];
      assert m[..i] == [m[0]] + m[1..i];
    }
  }

  /** Removing a key that does not occur changes nothing. */
  lemma {:induction false} RemoveAbsentKey(m: Module, k: string)
    requires forall j :: 0 <= j < |m| ==> m[j].0 != k
    ensures RemoveKey(m, k) == m
  {
    if |m| > 0 {
      RemoveAbsentKey(m[1..], k);
      assert m == [m[0]] + m[1..];
    }
  }

  /** `getModuleData(moduleName)` */
  function GetModuleData(scanResult: Option<Report>, moduleName: string): (r: Option<Module>)
    ensures (scanResult.None? || scanResult.value.groupedResults.None?) ==> r.None?
    ensures scanResult.Some? && scanResult.value.groupedResults.Some? ==>
              (r.None? <==> Lookup(scanResult.value.groupedResults.value, moduleName).None?)
    ensures r.Some? ==>
              var m := Lookup(GroupedOf(scanResult), moduleName).value;
              && (moduleName != QuantumKey ==> r.value == m)
              && (DistinctKeys(m) ==> |r.value| == |m| && forall k :: Lookup(r.value, k) == Lookup(m, k))
              && (moduleName == QuantumKey && FindIndex(m, IsQuantumMainKey) < |m| ==>
                    |r.value| >= 1 && r.value[0] == m[FindIndex(m, IsQuantumMainKey)])
              && (moduleName == QuantumKey && FindIndex(m, IsQuantumMainKey) < |m| && DistinctKeys(m) ==>
                    var i := FindIndex(m, IsQuantumMainKey);
                    r.value == [m[i]] + m[..i] + m[i + 1..])
              && (moduleName == QuantumKey && FindIndex(m, IsQuantumMainKey) == |m| ==> r.value == m)
  {
    if scanResult.None? || scanResult.value.groupedResults.None? then None
    else
      var m := Lookup(scanResult.value.groupedResults.value, moduleName);
      if m.None? then None
      else if moduleName == QuantumKey && FindIndex(m.value, IsQuantumMainKey) < |m.value| then
        Some(MoveToFront(m.value, FindIndex(m.value, IsQuantumMainKey)))
      else m
  }

  /** An entry of a quantum module that can be charted. */
  predicate IsQuantumMain(c: Control) {
    !HasError(c) && c.quantumExposure.Some?
  }

  /** `Object.values(m).find(d => !d.error && d.quantumExposure)` */
  function QuantumMainEntry(m: Module): (r: Option<Control>)
    ensures r.None? <==> forall i :: 0 <= i < |m| ==> !IsQuantumMain(m[i].1)
    ensures r.Some? ==> exists i :: 0 <= i < |m| && m[i].1 == r.value && IsQuantumMain(m[i].1) &&
                                    forall j :: 0 <= j < i ==> !IsQuantumMain(m[j].1)
  {
    var vs := Values(m);
    var i := FindIndex(vs, IsQuantumMain);
    if i < |vs| then Some(vs[i]) else None
  }

  /** `hasModuleErrors(moduleName)` */
  function HasModuleErrors(scanResult: Option<Report>, moduleName: string): (r: bool)
    ensures GetModuleData(scanResult, moduleName).None? ==> !r
    ensures GetModuleData(scanResult, moduleName).Some? && moduleName != QuantumKey ==>
              var m := GetModuleData(scanResult, moduleName).value;
              (r <==> exists i :: 0 <= i < |m| && HasError(m[i].1))
    ensures GetModuleData(scanResult, moduleName).Some? && moduleName == QuantumKey ==>
              var main := QuantumMainEntry(GetModuleData(scanResult, moduleName).value);
              (r <==> main.Some? && main.value.quantumExposure.value.isQuantumVulnerable)
  {
    var md := GetModuleData(scanResult, moduleName);
    if md.None? then false
    else if moduleName == QuantumKey then
      var main := QuantumMainEntry(md.value);
      main.Some? && main.value.quantumExposure.value.isQuantumVulnerable
    else
      var i := FindIndex(Values(md.value), HasError);
      i < |md.value|
  }

  datatype ScanInfo = ScanInfo(time: string, domain: string)

  /** `getLastScanInfo()` */
  function GetLastScanInfo(scanResult: Option<Report>, lastScanTime: Option<string>): (r: Option<ScanInfo>)
    ensures r.Some? <==> Truthy(lastScanTime) && scanResult.Some? && Truthy(scanResult.value.domain)
    ensures r.Some? ==> r.value.time == lastScanTime.value && r.value.domain == scanResult.value.domain.value
  {
    if !Truthy(lastScanTime) || scanResult.None? || !Truthy(scanResult.value.domain) then None
    else Some(ScanInfo(lastScanTime.value, scanResult.value.domain.value))
  }

  // ---------------------------------------------------------------------------
  // The provider's state and how each operation changes it
  // ---------------------------------------------------------------------------

  datatype ProviderState = ProviderState(
    scanResult: Option<Report>,
    loading: bool,
    error: Option<string>,
    lastScanTime: Option<string>)

  /** Every scan result the provider holds went through normalisation. */
  predicate ResultNormalised(p: ProviderState) {
    p.scanResult.Some? ==> IsNormalised(p.scanResult.value)
  }

  /** Reply to `POST /scan`: a scan id, or a thrown error. */
  datatype StartReply =
    | Started(scanId: string)
    | StartRejected(responseMessage: Option<string>, message: Option<string>)

  /** `error.response?.data?.message || error.message || "Failed to start scan."` */
  function StartErrorMessage(responseMessage: Option<string>, message: Option<string>): (m: string)
    ensures m != ""
    ensures Truthy(responseMessage) ==> m == responseMessage.value
    ensures !Truthy(responseMessage) && Truthy(message) ==> m == message.value
    ensures !Truthy(responseMessage) && !Truthy(message) ==> m == StartFailedMessage
  {
    Or(responseMessage, Or(message, StartFailedMessage))
  }

  /**
   * `startNewScan()`: the new provider state, and the domain of the polling
   * session it leaves running (None when no interval was set up).
   */
  function StartEffect(p: ProviderState, email: Option<string>, reply: StartReply): (r: (ProviderState, Option<string>))
    ensures !Truthy(ExtractDomain(email)) ==> r == (p.(error := Some(NoDomainMessage)), None)
    ensures Truthy(ExtractDomain(email)) && reply.StartRejected? ==>
              r == (ProviderState(None, false, Some(StartErrorMessage(reply.responseMessage, reply.message)), p.lastScanTime), None)
    ensures Truthy(ExtractDomain(email)) && reply.Started? ==>
              r == (ProviderState(None, true, None, p.lastScanTime), ExtractDomain(email))
    ensures ResultNormalised(p) ==> ResultNormalised(r.0)
  {
    var domain := ExtractDomain(email);
    if !Truthy(domain) then (p.(error := Some(NoDomainMessage)), None)
    else
      var session := p.(loading := true, error := None, scanResult := None);
      match reply
      case StartRejected(responseMessage, message) =>
        (session.(error := Some(StartErrorMessage(responseMessage, message)), loading := false), None)
      case Started(_) => (session, domain)
  }

  /** Reply to `GET /status/{scanId}`: the `status` field, or a thrown error. */
  datatype StatusReply = Status(status: string) | StatusError(message: string)

  /** Reply to `GET /report/{scanId}`: the report body, or a thrown error. */
  datatype ReportReply = ReportBody(data: Report) | ReportError(message: string)

  /** The variables one `setInterval` closure owns; `queries` counts status requests. */
  datatype PollState = PollState(retries: nat, stopped: bool, queries: nat)

  predicate PollInv(s: PollState) {
    s.retries <= MaxRetries && s.queries <= MaxRetries && (!s.stopped ==> s.queries == s.retries)
  }

  /** How one firing of the interval callback ends. */
  datatype Outcome = StillPending | Completed | Failed | TimedOut | TransportError

  function TickOutcome(retries: nat, reply: StatusReply, report: ReportReply): Outcome {
    if retries >= MaxRetries then TimedOut
    else match reply
      case StatusError(_) => TransportError
      case Status(status) =>
        if status == "completed" then (if report.ReportBody? then Completed else TransportError)
        else if status == "failed" then Failed
        else StillPending
  }

  /** The message a transport failure in this firing reports. */
  function TransportMessage(reply: StatusReply, report: ReportReply): string {
    if reply.StatusError? then reply.message else if report.ReportError? then report.message else ""
  }

  /** One firing of the interval callback of a session polling for `domain`. */
  function TickEffect(p: ProviderState, s: PollState, domain: string, reply: StatusReply, report: ReportReply, now: string)
    : (r: (ProviderState, PollState))
    requires !s.stopped
    ensures var o := TickOutcome(s.retries, reply, report);
            && (r.1.stopped <==> o != StillPending)
            && (o == StillPending ==> r == (p, PollState(s.retries + 1, false, s.queries + 1)))
            && (o == TimedOut ==> r.0 == p.(loading := false, error := Some(TimedOutMessage)) && r.1.queries == s.queries)
            && (o == Failed ==> r.0 == p.(loading := false, error := Some(FailedMessage)))
            && (o == TransportError ==> r.0 == p.(loading := false, error := Some(TransportMessage(reply, report))))
            && (o == Completed ==> r.0 == p.(scanResult := Some(Normalize(report.data, domain, now)),
                                            lastScanTime := Some(now), loading := false))
            && (o != TimedOut ==> r.1.queries == s.queries + 1)
  {
    if s.retries >= MaxRetries then
      (p.(loading := false, error := Some(TimedOutMessage)), s.(stopped := true))
    else
      var queried := s.(queries := s.queries + 1);
      match reply
      case StatusError(message) =>
        (p.(loading := false, error := Some(message)), queried.(stopped := true))
      case Status(status) =>
        if status == "completed" then
          match report
          case ReportError(message) =>
            (p.(loading := false, error := Some(message)), queried.(stopped := true))
          case ReportBody(data) =>
            (p.(scanResult := Some(Normalize(data, domain, now)), lastScanTime := Some(now), loading := false),
             queried.(stopped := true, retries := s.retries + 1))
        else if status == "failed" then
          (p.(loading := false, error := Some(FailedMessage)), queried.(stopped := true))
        else
          (p, queried.(retries := s.retries + 1))
  }

  /** A firing never sends more than `MaxRetries` status requests in all, and keeps results normalised. */
  lemma TickKeepsInvariants(p: ProviderState, s: PollState, domain: string, reply: StatusReply, report: ReportReply, now: string)
    requires !s.stopped
    ensures PollInv(s) ==> PollInv(TickEffect(p, s, domain, reply, report, now).1)
    ensures ResultNormalised(p) ==> ResultNormalised(TickEffect(p, s, domain, reply, report, now).0)
  {
  }

  /** Reply to `GET /latest/{domain}`. */
  datatype LatestReply =
    | Latest(scanId: Option<string>, timestamp: Option<string>)
    | NoLatest
    | LatestError(message: string)

  /**
   * `fetchLastScanResult(domain)`: adopt the latest report, or fall back to
   * `startNewScan()`; the `finally` clears `loading` in every case.
   */
  function FetchEffect(p: ProviderState, domain: string, latest: LatestReply, report: ReportReply, now: string,
                       email: Option<string>, start: StartReply): (r: (ProviderState, Option<string>))
    ensures !r.0.loading
    ensures latest.Latest? && Truthy(latest.scanId) && report.ReportBody? ==>
              var t := Or(latest.timestamp, now);
              r == (ProviderState(Some(Normalize(report.data, domain, t)), false, None, Some(t)), None)
    ensures !(latest.Latest? && Truthy(latest.scanId) && report.ReportBody?) ==>
              var started := StartEffect(p.(loading := true, error := None), email, start);
              r == (started.0.(loading := false), started.1)
    ensures ResultNormalised(p) ==> ResultNormalised(r.0)
  {
    var fetching := p.(loading := true, error := None);
    if latest.Latest? && Truthy(latest.scanId) && report.ReportBody? then
      var t := Or(latest.timestamp, now);
      (fetching.(scanResult := Some(Normalize(report.data, domain, t)), lastScanTime := Some(t), loading := false), None)
    else
      var started := StartEffect(fetching, email, start);
      (started.0.(loading := false), started.1)
  }

  // ---------------------------------------------------------------------------
  // A session over time
  // ---------------------------------------------------------------------------

  /** What the remote service answers to one firing of the interval. */
  datatype TickInput = TickInput(reply: StatusReply, report: ReportReply, now: string)

  /** Provider and session state after the interval has fired once per tick; a cleared interval does not fire. */
  function Run(p: ProviderState, s: PollState, domain: string, ticks: seq<TickInput>): (ProviderState, PollState)
    decreases |ticks|
  {
    if |ticks| == 0 || s.stopped then (p, s)
    else
      var next := TickEffect(p, s, domain, ticks[0].reply, ticks[0].report, ticks[0].now);
      Run(next.0, next.1, domain, ticks[1..])
  }

  /** A status reply that neither completes nor fails the scan. */
  predicate IsPendingTick(t: TickInput) {
    t.reply.Status? && t.reply.status != "completed" && t.reply.status != "failed"
  }

  /** A session sends at most `MaxRetries` status requests, and results stay normalised. */
  lemma {:induction false} RunKeepsInvariants(p: ProviderState, s: PollState, domain: string, ticks: seq<TickInput>)
    requires PollInv(s) && ResultNormalised(p)
    ensures PollInv(Run(p, s, domain, ticks).1) && ResultNormalised(Run(p, s, domain, ticks).0)
    ensures Run(p, s, domain, ticks).1.queries <= MaxRetries
    decreases |ticks|
  {
    if |ticks| > 0 && !s.stopped {
      var next := TickEffect(p, s, domain, ticks[0].reply, ticks[0].report, ticks[0].now);
      TickKeepsInvariants(p, s, domain, ticks[0].reply, ticks[0].report, ticks[0].now);
      RunKeepsInvariants(next.0, next.1, domain, ticks[1..]);
    }
  }

  /** While the scan stays pending, every firing only counts one more retry. */
  lemma {:induction false} PendingRun(p: ProviderState, s: PollState, domain: string, ticks: seq<TickInput>)
    requires !s.stopped && s.retries + |ticks| <= MaxRetries
    requires forall k :: 0 <= k < |ticks| ==> IsPendingTick(ticks[k])
    ensures Run(p, s, domain, ticks) == (p, PollState(s.retries + |ticks|, false, s.queries + |ticks|))
    decreases |ticks|
  {
    if |ticks| > 0 {
      assert IsPendingTick(ticks[0]);
      PendingRun(p, PollState(s.retries + 1, false, s.queries + 1), domain, ticks[1..]);
    }
  }

  /**
   * Once the retries are used up by pending replies, the next firing reports
   * the timeout whatever the service answers, and clears the interval.
   */
  lemma {:induction false} PendingUntilTimeout(p: ProviderState, s: PollState, domain: string, ticks: seq<TickInput>)
    requires !s.stopped && s.retries <= MaxRetries && |ticks| > MaxRetries - s.retries
    requires forall k :: 0 <= k < MaxRetries - s.retries ==> IsPendingTick(ticks[k])
    ensures Run(p, s, domain, ticks) ==
            (p.(loading := false, error := Some(TimedOutMessage)),
             PollState(MaxRetries, true, s.queries + (MaxRetries - s.retries)))
    decreases |ticks|
  {
    if s.retries < MaxRetries {
      assert IsPendingTick(ticks[0]);
      PendingUntilTimeout(p, PollState(s.retries + 1, false, s.queries + 1), domain, ticks[1..]);
    }
  }

  /** A fresh session whose first twenty replies are pending times out on its 21st firing. */
  lemma TimeoutOnTwentyFirstFiring(p: ProviderState, domain: string, ticks: seq<TickInput>)
    requires |ticks| > MaxRetries
    requires forall k :: 0 <= k < MaxRetries ==> IsPendingTick(ticks[k])
    ensures Run(p, PollState(0, false, 0), domain, ticks) ==
            (p.(loading := false, error := Some(TimedOutMessage)), PollState(MaxRetries, true, MaxRetries))
  {
    PendingUntilTimeout(p, PollState(0, false, 0), domain, ticks);
  }

  /** Every session clears its interval within `MaxRetries + 1` firings. */
  lemma {:induction false} SessionStops(p: ProviderState, s: PollState, domain: string, ticks: seq<TickInput>)
    requires PollInv(s) && !s.stopped && |ticks| > MaxRetries - s.retries
    ensures Run(p, s, domain, ticks).1.stopped
    decreases |ticks|
  {
    var next := TickEffect(p, s, domain, ticks[0].reply, ticks[0].report, ticks[0].now);
    if !next.1.stopped {
      SessionStops(next.0, next.1, domain, ticks[1..]);
    }
  }

  /**
   * The session's state after `ticks` is what firing `k` made of it, all
   * earlier firings having received pending replies within the retry limit.
   */
  predicate EndsAt(p: ProviderState, s: PollState, domain: string, ticks: seq<TickInput>, k: nat) {
    && k < |ticks| && s.retries + k <= MaxRetries
    && (forall j :: 0 <= j < k ==> IsPendingTick(ticks[j]))
    && Run(p, s, domain, ticks) ==
       TickEffect(p, PollState(s.retries + k, false, s.queries + k), domain, ticks[k].reply, ticks[k].report, ticks[k].now)
  }

  /**
   * A session ends at its first firing that is not a pending reply (or that
   * finds the retries used up), and that firing alone decides the outcome;
   * until then the provider state is untouched.
   */
  lemma {:induction false} SessionEndsAtDecisiveFiring(p: ProviderState, s: PollState, domain: string, ticks: seq<TickInput>)
    requires !s.stopped && s.retries <= MaxRetries
    ensures !Run(p, s, domain, ticks).1.stopped ==> Run(p, s, domain, ticks).0 == p
    ensures Run(p, s, domain, ticks).1.stopped ==> exists k :: EndsAt(p, s, domain, ticks, k)
    decreases |ticks|
  {
    if |ticks| > 0 {
      var next := TickEffect(p, s, domain, ticks[0].reply, ticks[0].report, ticks[0].now);
      if next.1.stopped {
        FirstFiringDecides(p, s, domain, ticks);
      } else {
        PendingFiringPasses(p, s, domain, ticks);
        SessionEndsAtDecisiveFiring(next.0, next.1, domain, ticks[1..]);
        if Run(p, s, domain, ticks).1.stopped {
          var k :| EndsAt(next.0, next.1, domain, ticks[1..], k);
          EndsAtShift(p, s, domain, ticks, k);
        }
      }
    }
  }

  /** A first firing that clears the interval is where the session ends. */
  lemma FirstFiringDecides(p: ProviderState, s: PollState, domain: string, ticks: seq<TickInput>)
    requires !s.stopped && s.retries <= MaxRetries && |ticks| > 0
    requires TickEffect(p, s, domain, ticks[0].reply, ticks[0].report, ticks[0].now).1.stopped
    ensures EndsAt(p, s, domain, ticks, 0)
  {
    assert PollState(s.retries + 0, false, s.queries + 0) == s;
  }

  /** A first firing that keeps the interval leaves the provider as it was and the rest of the run to the next one. */
  lemma PendingFiringPasses(p: ProviderState, s: PollState, domain: string, ticks: seq<TickInput>)
    requires !s.stopped && |ticks| > 0
    requires !TickEffect(p, s, domain, ticks[0].reply, ticks[0].report, ticks[0].now).1.stopped
    ensures var next := TickEffect(p, s, domain, ticks[0].reply, ticks[0].report, ticks[0].now);
            && next.0 == p && TickOutcome(s.retries, ticks[0].reply, ticks[0].report) == StillPending
            && next.1 == PollState(s.retries + 1, false, s.queries + 1)
            && Run(p, s, domain, ticks) == Run(next.0, next.1, domain, ticks[1..])
  {
  }

  lemma EndsAtShift(p: ProviderState, s: PollState, domain: string, ticks: seq<TickInput>, k: nat)
    requires !s.stopped && |ticks| > 0
    requires TickOutcome(s.retries, ticks[0].reply, ticks[0].report) == StillPending
    requires EndsAt(p, PollState(s.retries + 1, false, s.queries + 1), domain, ticks[1..], k)
    ensures EndsAt(p, s, domain, ticks, k + 1)
  {
    assert IsPendingTick(ticks[0]);
    var s1 := PollState(s.retries + 1, false, s.queries + 1);
    assert TickEffect(p, s, domain, ticks[0].reply, ticks[0].report, ticks[0].now) == (p, s1);
    assert Run(p, s, domain, ticks) == Run(p, s1, domain, ticks[1..]);
    assert PollState(s1.retries + k, false, s1.queries + k) == PollState(s.retries + (k + 1), false, s.queries + (k + 1));
    assert ticks[1..][k] == ticks[k + 1];
    forall j | 0 <= j < k + 1 ensures IsPendingTick(ticks[j]) {
      if j > 0 { assert ticks[j] == ticks[1..][j - 1]; }
    }
  }

  /** The provider state `startNewScan` leaves behind while its session polls. */
  predicate Polling(p: ProviderState) {
    p.loading && p.error.None? && p.scanResult.None?
  }

  /**
   * A session started from the polling state either is still polling, or has
   * settled: `loading` is off and there is exactly one of an error and a
   * (normalised) result for the session's domain.
   */
  lemma SessionSettles(p: ProviderState, s: PollState, domain: string, ticks: seq<TickInput>)
    requires Polling(p) && !s.stopped && s.retries <= MaxRetries
    ensures var r := Run(p, s, domain, ticks);
            && (!r.1.stopped ==> Polling(r.0))
            && (r.1.stopped ==> !r.0.loading && (r.0.error.None? <==> r.0.scanResult.Some?))
            && (r.0.scanResult.Some? ==> r.0.scanResult.value.domain == Some(domain) && IsNormalised(r.0.scanResult.value))
  {
    SessionEndsAtDecisiveFiring(p, s, domain, ticks);
  }

  // ---------------------------------------------------------------------------
  // The provider and its polling sessions
  // ---------------------------------------------------------------------------

  class ScanProvider {
    var scanResult: Option<Report>
    var loading: bool
    var error: Option<string>
    var lastScanTime: Option<string>

    function State(): ProviderState
      reads this
    {
      ProviderState(scanResult, loading, error, lastScanTime)
    }

    constructor ()
      ensures State() == ProviderState(None, false, None, None)
    {
      scanResult, loading, error, lastScanTime := None, false, None, None;
    }

    /** `startNewScan()`; the result is the interval it leaves polling, if any. */
    method StartNewScan(email: Option<string>, reply: StartReply) returns (poll: Poll?)
      modifies this
      ensures State() == StartEffect(old(State()), email, reply).0
      ensures StartEffect(old(State()), email, reply).1.None? ==> poll == null
      ensures StartEffect(old(State()), email, reply).1.Some? ==>
                poll != null && fresh(poll) && poll.provider == this &&
                poll.domain == StartEffect(old(State()), email, reply).1.value &&
                poll.State() == PollState(0, false, 0)
    {
      var domain := ExtractDomain(email);
      if !Truthy(domain) {
        error := Some(NoDomainMessage);
        return null;
      }
      loading := true;
      error := None;
      scanResult := None;
      match reply {
        case StartRejected(responseMessage, message) =>
          error := Some(StartErrorMessage(responseMessage, message));
          loading := false;
          poll := null;
        case Started(_) =>
          poll := new Poll(this, domain.value);
      }
    }

    /** `fetchLastScanResult(domain)`; the result is the fallback scan's interval, if any. */
    method FetchLastScanResult(domain: string, latest: LatestReply, report: ReportReply, now: string,
                               email: Option<string>, start: StartReply) returns (poll: Poll?)
      modifies this
      ensures State() == FetchEffect(old(State()), domain, latest, report, now, email, start).0
      ensures FetchEffect(old(State()), domain, latest, report, now, email, start).1.None? ==> poll == null
      ensures FetchEffect(old(State()), domain, latest, report, now, email, start).1.Some? ==>
                poll != null && fresh(poll) && poll.provider == this &&
                poll.domain == FetchEffect(old(State()), domain, latest, report, now, email, start).1.value &&
                poll.State() == PollState(0, false, 0)
    {
      loading := true;
      error := None;
      var adopted := false;
      if latest.Latest? && Truthy(latest.scanId) {
        match report {
          case ReportBody(data) =>
            var t := Or(latest.timestamp, now);
            scanResult := Some(Normalize(data, domain, t));
            lastScanTime := Some(t);
            adopted := true;
          case ReportError(_) =>
        }
      }
      poll := null;
      if !adopted {
        poll := StartNewScan(email, start);
      }
      loading := false;
    }
  }

  /** The closure one `startNewScan` hands to `setInterval`. */
  class Poll {
    const provider: ScanProvider
    const domain: string
    var retries: nat
    var stopped: bool      // `clearInterval` has been called
    ghost var queries: nat // status requests sent so far

    ghost function State(): PollState
      reads this
    {
      PollState(retries, stopped, queries)
    }

    constructor (provider: ScanProvider, domain: string)
      ensures this.provider == provider && this.domain == domain
      ensures State() == PollState(0, false, 0)
    {
      this.provider := provider;
      this.domain := domain;
      retries, stopped := 0, false;
      queries := 0;
    }

    /** One firing of the interval callback; a cleared interval never fires. */
    method Tick(reply: StatusReply, report: ReportReply, now: string)
      requires !stopped
      modifies this, provider
      ensures (provider.State(), State()) ==
              TickEffect(old(provider.State()), old(State()), domain, reply, report, now)
    {
      ghost var p0, s0 := provider.State(), State();
      ghost var effect := TickEffect(p0, s0, domain, reply, report, now);
      if retries >= MaxRetries {
        stopped := true;
        provider.error := Some(TimedOutMessage);
        provider.loading := false;
        assert effect == (p0.(loading := false, error := Some(TimedOutMessage)), s0.(stopped := true));
        return;
      }
      queries := queries + 1;
      match reply {
        case StatusError(message) =>
          stopped := true;
          provider.error := Some(message);
          provider.loading := false;
          assert effect == (p0.(loading := false, error := Some(message)), s0.(queries := s0.queries + 1, stopped := true));
        case Status(status) =>
          if status == "completed" {
            stopped := true;
            match report {
              case ReportError(message) =>
                provider.error := Some(message);
                provider.loading := false;
                assert effect == (p0.(loading := false, error := Some(message)), s0.(queries := s0.queries + 1, stopped := true));
              case ReportBody(data) =>
                provider.scanResult := Some(Normalize(data, domain, now));
                provider.lastScanTime := Some(now);
                provider.loading := false;
                retries := retries + 1;
                assert effect == (p0.(scanResult := Some(Normalize(data, domain, now)), lastScanTime := Some(now), loading := false),
                                  s0.(queries := s0.queries + 1, stopped := true, retries := s0.retries + 1));
            }
          } else if status == "failed" {
            stopped := true;
            provider.error := Some(FailedMessage);
            provider.loading := false;
            assert effect == (p0.(loading := false, error := Some(FailedMessage)), s0.(queries := s0.queries + 1, stopped := true));
          } else {
            retries := retries + 1;
            assert effect == (p0, s0.(queries := s0.queries + 1, retries := s0.retries + 1));
          }
      }
    }
  }

  /**
   * Two sessions started back to back both keep polling, because the first
   * interval is never cleared: a late "failed" reply to the first session
   * overwrites the error slot after the second session has completed.
   */
  method OverlappingSessions(email: Option<string>, report: Report, now: string) returns (final: ProviderState)
    requires Truthy(ExtractDomain(email))
    ensures final.scanResult == Some(Normalize(report, ExtractDomain(email).value, now))
    ensures final.error == Some(FailedMessage)
    ensures !final.loading
  {
    var provider := new ScanProvider();
    var first := provider.StartNewScan(email, Started("first"));
    var second := provider.StartNewScan(email, Started("second"));
    second.Tick(Status("completed"), ReportBody(report), now);
    first.Tick(Status("failed"), ReportError(""), now);
    final := provider.State();
  }
}
