# Apex security dashboard: the scan provider and the derived views

This project models, in Dafny, the logic of the Apex frontend, a React
dashboard that presents the results of an external security scan of the
signed-in user's domain. The dashboard also contains a great deal of
rendering, which is not modelled. What is modelled:

- **The scan provider.** `ScanContext` shares one state among all pages:
  `scanResult`, `loading`, `error` and `lastScanTime`. It has these operations:
  - it derives the domain from the e-mail address;
  - it starts a scan and polls its status every three seconds, at most
    twenty times;
  - it fetches the latest stored scan, falling back to a new scan;
  - it normalises a report;
  - it provides read accessors for the pages (`getModuleData`,
    `hasModuleErrors`, `getLastScanInfo`).
- **Modelling the provider's state.** The provider is a class with those
  four fields. Each polling session, the closure handed to `setInterval`,
  is a class with its own `retries` counter and `stopped` flag. Every
  state change is tied to a pure effect function:
  - `StartEffect` for starting a scan;
  - `TickEffect` for one firing of the interval;
  - `FetchEffect` for fetching the latest scan.

  A fold of `TickEffect` over the replies of the remote service (`Run`)
  describes a whole session. The lemmas state what a session does:
  - it makes at most twenty status queries;
  - it times out on the twenty-first firing;
  - it ends at its first decisive reply;
  - it settles with exactly one of an error and a result.
- **The page views.**
  - The dashboard: passed and failed module counts, bar chart rows, module
    labels and the letter grade.
  - The profile card: the grade, the domain and the last-scan text.
  - The e-mail page: main-domain selection, SPF/DKIM/DMARC status and the
    combined findings list.
  - The API and data pages: findings grouped by severity, summary counts
    and cards.
  - The quantum page: the charted entry, two frequency tables, the radar
    and the severity colour.
- **Grouping.** The API page's `groupFindingsBySeverity` reduction and
  the two counting reductions of the quantum page are imperative loops
  over an accumulator object. Each loop is proved to compute the function
  `Grouping.GroupBy` (or the sizes of its groups). The data page's own
  `groupFindingsBySeverity` is the same reduction, and the model uses
  `Grouping.GroupBy` for it directly. The predicate `Grouping.IsGrouping`
  states what a grouping is:
  - one group per distinct key;
  - every group non-empty;
  - each group holds exactly the elements with its key, in input order;
  - the group sizes sum to the input length.

  The separate predicate `Grouping.InFirstOccurrenceOrder` states that the
  groups come in the order in which their keys first occur in the input.
- **PKCE.** `base64URLEncode` and `generatePKCE`. The model contains its
  own standard base64 encoder (RFC 4648 section 4) as the meaning of
  `btoa`. The main result is that replacing `+` and `/` and stripping the
  trailing `=` gives exactly base64url without padding (RFC 4648
  section 5, as RFC 7636 appendix A uses it). The lemmas derive the
  alphabet and length properties that RFC 7636 sections 4.1 and 4.2
  demand from that result.

JavaScript values are modelled as follows (module `Js`):

- An object is an association list `seq<(string, V)>` in insertion order,
  and lookup takes the first match.
- `null`/`undefined` is `None`.
- Truthiness is written out: `None` and `""` are falsy. The code tests keys
  and strings for truthiness in several places, for example
  `firstKey && ...`. So a first key that is the empty string counts as
  missing, as it does in JavaScript.
- `split`, `trim`, `startsWith`, `toLowerCase`, `find`/`findIndex` and
  `||` are all written out.

The status of a bar chart row, which the code writes as the strings
`"Passed"` and `"Failed"`, is the datatype `RowStatus`.

Four behaviours of the code that shape the model:

- **No local cache.** The code keeps no local cache of the last result,
  and the model has none.
- **Quantum entry moved, not duplicated.** For the quantum module,
  `getModuleData` adds no extra key. It moves the
  first non-wildcard entry without an error to the front of the object,
  keeping its own key. See `ScanContext.MoveToFront`.
- **Separate `loading` and `error` slots.** There is no single
  Idle/Loading/Error status. Two slots change independently, and
  `fetchLastScanResult`'s `finally` clears `loading` while a fallback
  polling session is still running.
- **Earlier intervals keep running.** Starting a new scan does not cancel a
  previous session's interval. `ScanContext.OverlappingSessions` shows an
  older session overwriting the error slot after a newer one has completed.

## Model

| member | source | states |
|---|---|---|
| ScanContext.ExtractDomain | src/context/ScanContext.jsx:17-20 | null exactly when the e-mail is missing, empty or has no `@`; otherwise the result has no `@` and is the text from just after the first `@` to the next `@` or the end |
| ScanContext.DomainPart | src/context/ScanContext.jsx:19 | `split("@")[1]` of a string with an `@` is the text between the first `@` and the next one (or the end) and contains no `@` |
| ScanContext.Normalize | src/context/ScanContext.jsx:33-48 | the result carries the scanned domain and the scan time, keeps the report's `timestamp`, and always has `groupedResults` with a `quantumSecurity` module; a missing `groupedResults` becomes `{}`; modules already holding a quantum module are kept unchanged, and otherwise an empty quantum module is appended as the last key; every other module's lookup is unchanged |
| ScanContext.NormalizeIdempotent | src/context/ScanContext.jsx:102-116 | normalising twice with the same domain and time equals normalising once |
| ScanContext.MoveToFront | src/context/ScanContext.jsx:162-166 | `{[k]: v, ...m}` puts the chosen entry first; for distinct keys the result is that entry followed by all the others in their original order, so it has the same length, distinct keys and every key's value |
| ScanContext.RemoveKeyAt | src/context/ScanContext.jsx:164-165 | spreading an object with distinct keys after a key it already has drops exactly that key's entry and keeps the others in order |
| ScanContext.GetModuleData | src/context/ScanContext.jsx:145-175 | null with no result, no `groupedResults` or no such module; the module itself for other modules, and for the quantum module when no entry is non-`*` and error-free; otherwise (distinct keys) the first such entry followed by the other entries in their original order |
| ScanContext.QuantumMainEntry | src/context/ScanContext.jsx:185-187 | the first entry without an error that has a quantum exposure, or null exactly when there is none |
| ScanContext.HasModuleErrors | src/context/ScanContext.jsx:178-197 | false without module data; for the quantum module the charted entry's `isQuantumVulnerable` (false when there is none); otherwise true exactly when some entry has a truthy `error` |
| ScanContext.GetLastScanInfo | src/context/ScanContext.jsx:200-206 | null unless both the last scan time and the result's domain are set; then exactly those two values |
| ScanContext.StartErrorMessage | src/context/ScanContext.jsx:137 | the response's message, else the error's message, else "Failed to start scan."; never empty |
| ScanContext.StartEffect | src/context/ScanContext.jsx:65-142 | without a domain (including `""` from `user@`) only the error slot changes, to "Cannot extract domain from email address.", and no session starts; a rejected start clears the result and reports the message with loading off; an accepted start clears the result and error, sets loading, and starts a session for the domain; results stay normalised |
| ScanContext.TickEffect | src/context/ScanContext.jsx:88-134 | a firing stops the interval exactly when the outcome is decisive; pending replies only count a retry and a query; the timeout, "failed", transport-error and "completed" outcomes set exactly the slots the code sets; every firing but the timeout sends one status query |
| ScanContext.TickKeepsInvariants | src/context/ScanContext.jsx:84-93 | a firing keeps retries and queries within twenty (equal while polling) and keeps stored results normalised |
| ScanContext.FetchEffect | src/context/ScanContext.jsx:23-63 | a latest scan with an id and a report is adopted with its timestamp (or now) as scan time; otherwise the result is exactly that of a new scan started from the fetching state; `loading` is always off afterwards, even while a fallback session polls |
| ScanContext.RunKeepsInvariants | src/context/ScanContext.jsx:84-134 | over any sequence of firings a session sends at most twenty status queries and stored results stay normalised |
| ScanContext.PendingRun | src/context/ScanContext.jsx:122-127 | firings with pending replies within the limit leave the provider untouched and count one retry and one query each |
| ScanContext.PendingUntilTimeout | src/context/ScanContext.jsx:90-93 | once the pending replies exhaust the retries, the next firing reports "Scan timed out. Please try again.", turns loading off and clears the interval, whatever the service answers |
| ScanContext.TimeoutOnTwentyFirstFiring | src/context/ScanContext.jsx:84-93 | a fresh session with twenty pending replies times out on the 21st firing after exactly twenty queries |
| ScanContext.SessionStops | src/context/ScanContext.jsx:84-93 | every session clears its interval within twenty-one firings |
| ScanContext.SessionEndsAtDecisiveFiring | src/context/ScanContext.jsx:88-134 | while polling the provider state is untouched; a stopped session's state is what its first decisive firing made of it |
| ScanContext.FirstFiringDecides | src/context/ScanContext.jsx:88-134 | a first firing that clears the interval is where the session ends |
| ScanContext.PendingFiringPasses | src/context/ScanContext.jsx:122-127 | a firing that keeps the interval is a pending reply that leaves the provider as it was |
| ScanContext.SessionSettles | src/context/ScanContext.jsx:76-133 | from the state a start leaves, a session is either still polling with that state, or has settled with loading off and exactly one of an error and a normalised result for its domain |
| ScanContext.ScanProvider.constructor | src/context/ScanContext.jsx:12-15 | all four slots start empty and loading off |
| ScanContext.ScanProvider.StartNewScan | src/context/ScanContext.jsx:65-142 | the new state is `StartEffect` of the old; a fresh session at zero retries is returned exactly when one was started |
| ScanContext.ScanProvider.FetchLastScanResult | src/context/ScanContext.jsx:23-63 | the new state is `FetchEffect` of the old; the fallback's session is returned when there is one |
| ScanContext.Poll.constructor | src/context/ScanContext.jsx:84-88 | a session starts at zero retries, not stopped |
| ScanContext.Poll.Tick | src/context/ScanContext.jsx:88-134 | the new provider and session state is `TickEffect` of the old |
| ScanContext.OverlappingSessions | src/context/ScanContext.jsx:65-142 | with two sessions started back to back, the second completing and then the first failing leaves the result and the "Scan failed" error side by side |
| DashboardHome.CountPassed | src/pages/DashboardHome.jsx:16-19 | at most the number of modules; all pass exactly when the count is the total, none exactly when it is zero |
| DashboardHome.Stats | src/pages/DashboardHome.jsx:14-20 | total is the module count, 0 ≤ passed ≤ total, failed = total − passed, with the all-passed and all-failed extremes characterised |
| DashboardHome.CountPassedSnoc | src/pages/DashboardHome.jsx:16-19 | a further module adds one to the count exactly when its first entry exists, has a non-empty key and no error |
| DashboardHome.Issues | src/pages/DashboardHome.jsx:38-39 | 0 or 1, and 1 exactly when the module has a first entry with an error |
| DashboardHome.Row | src/pages/DashboardHome.jsx:40-44 | the label of the key, `Issues` ∈ {0, 1}, and `Status` "Failed" exactly when `Issues` is 1 |
| DashboardHome.BarData | src/pages/DashboardHome.jsx:37-45 | one row per module in module order |
| DashboardHome.FailedRowIsFailedModule | src/pages/DashboardHome.jsx:14-45 | a module whose bar says "Failed" is counted as failed |
| DashboardHome.FailedRowsAtMostFailedModules | src/pages/DashboardHome.jsx:14-45 | the chart never shows more failures than `failedModules`, and exactly as many when no module is empty and no first key is empty |
| DashboardHome.FailedRowsCount | src/pages/DashboardHome.jsx:14-45 | rows marked "Failed" number at most the failed modules |
| DashboardHome.FailedRowsCountExact | src/pages/DashboardHome.jsx:14-45 | with every module non-empty and every first key non-empty, they number exactly the failed modules |
| DashboardHome.IssuesAgreeWithModule | src/pages/DashboardHome.jsx:16-39 | an issue implies a failed module; with a non-empty first key the two coincide |
| DashboardHome.EmptyModuleShownAsPassed | src/pages/DashboardHome.jsx:16-43 | an empty module (or one whose first key is `""`) is counted as failed while its bar says "Passed" with no issue |
| DashboardHome.ModuleLabel | src/pages/DashboardHome.jsx:41 | the label neither starts nor ends with white space |
| DashboardHome.LabelRestoresKey | src/pages/DashboardHome.jsx:41 | for a key without white space, removing the spaces from its label gives the key back |
| DashboardHome.SpacedWhiteSpaceIsSpace | src/pages/DashboardHome.jsx:41 | the only white space after inserting spaces before capitals is the inserted spaces |
| DashboardHome.RemoveSpacesUndoesSpacing | src/pages/DashboardHome.jsx:41 | removing spaces undoes inserting them before capitals, for a key without spaces |
| DashboardHome.TrimKeepsNonSpaces | src/pages/DashboardHome.jsx:41 | when all white space is spaces, trimming removes only spaces |
| DashboardHome.Band | src/pages/DashboardHome.jsx:49-54 | A+, A, B, C, D exactly for percentages ≥ 90, [75, 90), [60, 75), [45, 60), < 45, compared as `passed·100` against `k·total` |
| DashboardHome.CalculateGrade | src/pages/DashboardHome.jsx:47-55 | "N/A" exactly when there are no modules, otherwise the band |
| DashboardHome.DashboardGrade | src/pages/DashboardHome.jsx:47-55 | the dashboard shows "N/A" exactly when the result has no modules |
| DashboardHome.GradeMonotone | src/pages/DashboardHome.jsx:47-55 | for a fixed total, more passed modules never give a worse grade |
| DashboardHome.GradeExtremes | src/pages/DashboardHome.jsx:47-55 | every module passing gives A+, none passing gives D |
| Profile.UserDomainIsExtractDomain | src/pages/Profile.jsx:12-13 | the profile's domain, the second `@`-piece of the e-mail or of "User", is exactly the domain a scan would be started for |
| Profile.CalculateSecurityGrade | src/pages/Profile.jsx:17-31 | "N/A" exactly when the result or its `groupedResults` is missing; "D" for an empty module map (NaN compares false); otherwise the band of the dashboard's passed rule |
| Profile.GradesAgree | src/pages/Profile.jsx:25-30 | with at least one module, profile and dashboard grades agree |
| Profile.GradesDisagreeWithoutModules | src/pages/Profile.jsx:25-30 | with an empty module map the profile shows D and the dashboard N/A |
| Profile.GradesAgreeOnStoredResults | src/pages/Profile.jsx:17-31 | on every result the provider stores (normalised, so with a quantum module) the two grades agree |
| Profile.LastScanDisplay | src/pages/Profile.jsx:15 | the result's `timestamp` when truthy, else "Not Available" |
| Profile.LastScanHidesScanTime | src/pages/Profile.jsx:15 | a normalised result from a report without `timestamp` shows "Not Available" though its `scanTime` is set |
| Profile.LastScanDisplayFixed | src/pages/Profile.jsx:15 | the result's `scanTime` when truthy, else "Not Available" |
| Profile.LastScanShowsScanTime | src/pages/Profile.jsx:15 | with `scanTime`, every normalised result shows the time it was normalised with |
| EmailSecurity.GetMainDomainData | src/pages/EmailSecurity.jsx:14-20 | null for missing data; otherwise the value of the first key that starts with neither `*` nor `www.`, null when there is none (or it is `""`) |
| EmailSecurity.MainDomainIsFirstMatch | src/pages/EmailSecurity.jsx:16-19 | a returned entry sits at a main-domain key with no main-domain key before it |
| EmailSecurity.EmailDataOf | src/pages/EmailSecurity.jsx:23-25 | the three entries are the main-domain entries of `spfSecurity`, `dkimSecurity` and `dmarcSecurity` |
| EmailSecurity.ShowsEmptyState | src/pages/EmailSecurity.jsx:44-64 | the empty state shows exactly when the page is not loading (the loading view is returned first) and there is no result or all three entries are null |
| EmailSecurity.GetStatusFromFindings | src/pages/EmailSecurity.jsx:90-98 | "pass" for missing or empty findings; a throw (None) exactly when some finding lacks a severity; otherwise "fail" exactly when some severity is critical or high (any case), "partial" exactly when none is but some is medium or low, else "pass" |
| EmailSecurity.OneSevereFindingFails | src/pages/EmailSecurity.jsx:92-94 | one critical or high finding makes the status "fail" at either end of any list |
| EmailSecurity.SevereAtFails | src/pages/EmailSecurity.jsx:92-94 | a critical or high finding anywhere makes the status "fail" |
| EmailSecurity.RecordText | src/pages/EmailSecurity.jsx:101-128 | the record field when present and non-empty, else "Not configured" |
| EmailSecurity.AllFindings | src/pages/EmailSecurity.jsx:165-169 | the SPF, DKIM and DMARC findings in that order, missing lists empty; the length is their sum |
| Grouping.WithKeyMembers | src/pages/ApiSecurity.jsx:20-29 | every element of a group has the group's key and comes from the input |
| Grouping.GroupByIsGrouping | src/pages/ApiSecurity.jsx:20-29 | the reduction's object is a grouping of its input |
| Grouping.PushKeepsGrouping | src/pages/ApiSecurity.jsx:23-26 | one accumulation step turns a grouping of `xs` into a grouping of `xs + [x]` |
| Grouping.FirstOf | src/pages/ApiSecurity.jsx:20-29 | the position of the first element with a given key, or the length when there is none |
| Grouping.FirstOfSnoc | src/pages/ApiSecurity.jsx:23-26 | appending an element moves no first occurrence, and gives the element's key its first occurrence if it had none |
| Grouping.PushKeepsOrder | src/pages/ApiSecurity.jsx:23-26 | one accumulation step keeps the groups in the order of their keys' first occurrence (a new key's group is opened last) |
| Grouping.GroupByFirstOccurrence | src/pages/ApiSecurity.jsx:20-29 | the reduction's groups come in the order in which their keys first occur in the input |
| ApiSecurity.SeverityKey | src/pages/ApiSecurity.jsx:22 | the severity when truthy, else "Unknown"; never empty |
| ApiSecurity.GroupFindingsBySeverity | src/pages/ApiSecurity.jsx:20-29 | the loop builds `GroupBy(findings, SeverityKey)`, a grouping: every finding in exactly its severity's group, groups non-empty and in input order, sizes summing to the input length |
| ApiSecurity.GetSeverityConfig | src/pages/ApiSecurity.jsx:32-77 | the five named configurations by name; the Unknown one for any other name |
| ApiSecurity.ConfigByName | src/pages/ApiSecurity.jsx:32-77 | each configuration is found under its own name |
| ApiSecurity.CountExact | src/pages/ApiSecurity.jsx:242 | an exact-severity count never exceeds the number of findings |
| ApiSecurity.CountExactAppend | src/pages/ApiSecurity.jsx:241-243 | counts add up over concatenated finding lists |
| ApiSecurity.SummaryCountOfAllFindings | src/pages/ApiSecurity.jsx:239-243 | a summary count is the number of the module's findings with exactly that severity |
| ApiSecurity.CountExactIsGroupSize | src/pages/ApiSecurity.jsx:300-302 | for a named severity the card's count equals the size of that severity's group |
| ApiSecurity.CountsAtMostTotal | src/pages/ApiSecurity.jsx:300-302 | the four counts of a list sum to at most its length |
| ApiSecurity.SummaryCountsAtMostTotal | src/pages/ApiSecurity.jsx:239-243 | the four summary counts sum to at most the module's findings |
| ApiSecurity.ShowsEmptyState | src/pages/ApiSecurity.jsx:109-136 | the empty state shows exactly when the page is not loading (the loading view is returned first) and there is no result, no `groupedResults` or no API module |
| ApiSecurity.NoFindingsAnywhere | src/pages/ApiSecurity.jsx:237 | the module has no findings exactly when no entry has a non-empty findings list |
| ApiSecurity.ShowsSummaryCards | src/pages/ApiSecurity.jsx:237 | the summary cards show exactly when the module has some finding |
| ApiSecurity.CardEntries | src/pages/ApiSecurity.jsx:284-287 | card `t` is the domain and findings of the entry at `CardIndices(m)[t]`, so the cards are exactly the entries with findings, in object order; every card is non-empty; the cards' findings together are all the module's findings in order |
| ApiSecurity.CardIndices | src/pages/ApiSecurity.jsx:284-285 | exactly the positions of the entries with a non-empty findings list, in increasing order |
| ApiSecurity.Badges | src/pages/ApiSecurity.jsx:300-302 | a badge per named severity that occurs, each with its exact non-zero count, no other badge, and the badges in rank order Critical, High, Medium, Low (so no severity twice) |
| ApiSecurity.Badge | src/pages/ApiSecurity.jsx:300-302 | one severity's badge is present exactly when some finding has that severity, and then carries its count |
| ApiSecurity.AppendBadge | src/pages/ApiSecurity.jsx:300 | appending the badge of a higher-ranked severity keeps the row in rank order |
| DataSecurity.ShowsEmptyState | src/pages/DataSecurity.jsx:19-38 | the empty state shows exactly when the page is not loading (the loading view is returned first) and the module data is null |
| DataSecurity.Headings | src/pages/DataSecurity.jsx:127-137 | one heading per group, with the group's severity and size |
| DataSecurity.HeadingTotalIsSumSizes | src/pages/DataSecurity.jsx:137 | the heading counts sum to the group sizes |
| DataSecurity.SectionOf | src/pages/DataSecurity.jsx:113-137 | a host section groups its findings by severity, its groups come in first-occurrence order, it has one heading per group, and its headings count all its findings |
| DataSecurity.Sections | src/pages/DataSecurity.jsx:112-137 | one section per card (per entry with findings, in object order), each with that entry's domain, a grouping of its findings in first-occurrence order, one heading per group and a positive heading total |
| DataSecurity.HeadingsCountAllFindings | src/pages/DataSecurity.jsx:112-137 | all headings together count every finding of the module once |
| QuantumSecurity.Tally | src/pages/QuantumSecurity.jsx:66-71 | the counting loop yields the sizes of `GroupBy(keys)`: one entry per distinct key, each count ≥ 1 and equal to the key's occurrences, counts summing to the number of keys |
| QuantumSecurity.CountsOfGrouping | src/pages/QuantumSecurity.jsx:66-89 | the group sizes of a grouping form a tally |
| QuantumSecurity.TallyFirstOccurrence | src/pages/QuantumSecurity.jsx:66-89 | the entries of a tally come in the order in which their keys first occur in the list (JavaScript insertion order) |
| QuantumSecurity.SeverityKeysCount | src/pages/QuantumSecurity.jsx:66-71 | every string occurs among the pie keys exactly as often as controls exist with that string as a truthy severity |
| QuantumSecurity.StandardKeysCount | src/pages/QuantumSecurity.jsx:79-84 | every string occurs among the bar keys exactly as often as controls name it as a standard that is truthy and neither "N/A" nor "None" |
| QuantumSecurity.TallyEntries | src/pages/QuantumSecurity.jsx:66-89 | in a tally, an entry's count is its key's number of occurrences, and every key that occurs has an entry |
| QuantumSecurity.PieCountsSeverities | src/pages/QuantumSecurity.jsx:66-71 | each pie entry counts exactly the controls with its severity (at least one), and every severity some control carries has an entry |
| QuantumSecurity.BarCountsStandards | src/pages/QuantumSecurity.jsx:79-89 | each bar entry counts exactly the controls adopting its standard (at least one), and every adopted standard has an entry |
| QuantumSecurity.Radar | src/pages/QuantumSecurity.jsx:92-118 | five points, all with full mark 10; PKI Risk is the score or 0; Protocol Security is 7 if vulnerable else 4; the other three values lie in [4, 8.5] |
| QuantumSecurity.ChartSource | src/pages/QuantumSecurity.jsx:46-63 | no quantum data, no charted entry, or no `pqcControls` give nothing; otherwise the charted entry and its controls |
| QuantumSecurity.PrepareChartData | src/pages/QuantumSecurity.jsx:45-130 | null exactly when there is no chart source or a control is null (the throw the `catch` absorbs); otherwise the charted entry, its radar, and the pie and bar tables. Each table is exactly `Counts(GroupBy(keys))` of its key list, one entry per distinct key, in the order the keys first occur (the order that picks each slice's colour). Each entry counts exactly the controls carrying its key, and every carried key has an entry. The "Vulnerabilities Detected" badge refers to the charted entry |
| QuantumSecurity.SeverityScoreColor | src/pages/QuantumSecurity.jsx:212-215 | red exactly above 7, yellow in (5, 7], green otherwise or with no score |
| QuantumSecurity.ScoreColorMonotone | src/pages/QuantumSecurity.jsx:212-215 | a higher score never gets a milder colour |
| PkceUtils.Base64 | src/utils/pkceUtils.js:4 | `4·⌈n/3⌉` characters with `=` only in the last two positions |
| PkceUtils.Base64UrlNoPad | src/utils/pkceUtils.js:3-8 | `⌈4n/3⌉` characters, all from the URL-safe alphabet |
| PkceUtils.ReplaceChar | src/utils/pkceUtils.js:5-6 | same length, every occurrence of the character replaced and nothing else changed |
| PkceUtils.StripTrailing | src/utils/pkceUtils.js:7 | a prefix not ending in the character, with only that character removed |
| PkceUtils.EncodeIsBase64UrlNoPad | src/utils/pkceUtils.js:3-8 | `base64URLEncode` equals base64url without padding |
| PkceUtils.EncodeAlphabet | src/utils/pkceUtils.js:4-7 | the output has no `+`, `/` or `=`, and every character is a letter, digit, `-` or `_` |
| PkceUtils.EncodeLength | src/utils/pkceUtils.js:4-7 | the output has `⌈4n/3⌉` characters, at most two fewer than the base64 string |
| PkceUtils.StripRemovesEveryPad | src/utils/pkceUtils.js:7 | stripping the trailing run of `=` removes every `=` |
| PkceUtils.GeneratePkce | src/utils/pkceUtils.js:10-19 | with 32 random bytes and a 32-byte digest, verifier and challenge have 43 URL-safe characters; the verifier is the base64url of the bytes and the challenge the base64url of SHA-256 of the verifier's ASCII bytes (the S256 method) |
| PkceUtils.VerifierLengthAllowed | src/utils/pkceUtils.js:11-14 | the verifier's length is within the 43 to 128 characters of RFC 7636 section 4.1 |

## Left out

- HTTP requests (axios) are not modelled: each reply of the scan service is an input of the operation that awaits it.
- The three-second timer is not modelled: one firing of the interval is one `Poll.Tick`. The clock (`new Date().toISOString()`) is an input `now`, one reading per firing.
- Firings of one session that overlap while a request is still outstanding are not modelled: each `Poll.Tick` runs to completion before the next one starts.
- Interleavings of two overlapping sessions are not modelled beyond the one scenario in `OverlappingSessions`.
- Toasts, console output, React hooks, re-rendering and the `useEffect` that calls `fetchLastScanResult` on sign-in (src/context/ScanContext.jsx:209-216) are not modelled. Each provider operation is modelled on its own.
- Exceptions the model's types rule out are not modelled: a `null` entry in a module, a non-object report body, a non-string severity or e-mail. The one exception that is modelled is a `null` quantum control: `PrepareChartData` returns null for it, as the `catch` does.
- Special JavaScript object keys are not modelled. Integer-like keys really come first in ascending order, while the model keeps insertion order. Inherited keys such as `constructor` make `acc[severity]` find a prototype member.
- `toLowerCase` is modelled on ASCII letters only.
- DashboardHome.Band: the percentage is compared in exact integer form (`passed·100 ≥ k·total`). Floating-point rounding at the exact boundaries is not modelled.
- Floating-point display arithmetic is not modelled: `Math.round` percentages, the financial-impact estimate, `toFixed` and `toLocaleString`.
- SHA-256 and `crypto.getRandomValues` are parameters of `GeneratePkce`: the random bytes and a digest function of 32-byte results.
- Control results are modelled only through the fields the pages read. Other string fields are the map `fields`.
- The ApiSecurity typing animation is not modelled: it is timers and the DOM.
- Routing, sign-in components and the purely presentational pages are not modelled: they hold no logic beyond rendering.
- ApplicationSecurity, CloudSecurity, DNSSecurity and ThirdPartyRisk are not modelled. Their only transform, the module label, is `DashboardHome.ModuleLabel`.

## Findings

| source | as written | input that shows it | evidently intended | confidence | as-written member | corrected member |
|---|---|---|---|---|---|---|
| src/pages/Profile.jsx:15 | the card reads `scanResult.timestamp`, a field normalisation never writes (src/context/ScanContext.jsx:36, :104 write `scanTime`) | any completed scan whose report body has no `timestamp`: the card shows "Not Available" | show the stored `scanTime` | medium, not executed | Profile.LastScanHidesScanTime | Profile.LastScanShowsScanTime |
