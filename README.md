# Biometric access control: a verified model

The system is a biometric access-control demonstrator. Its browser-side
engine registers identities and enrolls face templates. Each template is
protected by a salted hash. The engine verifies probes through a gated
pipeline: rate limit, identity, sample, liveness, integrity, similarity,
threshold and session. It keeps FAR/FRR counters and a capped, newest-first
audit log, and it runs six scripted attacks against these defenses. Other parts modelled here:

- a Python backend: challenge nonces, registration, enrollment, and 1:N face
  verification against a 0.5 similarity threshold;
- an audit service: a 1000-entry log and windowed dashboard counters;
- a threat simulator that writes a forensic trail into that log;
- the log viewer: severity, event-type and text filters, and CSV export.

Modules:

- `Types`, `Wrappers`, `Text`: the shared records, `Option`/`Result`, and the
  string helpers (`includes`, `toLowerCase` restricted to the letters A-Z, number rendering,
  `padStart`, `join`).
- `SecureHash`: the simulated 31-multiplier rolling hash. It works in signed
  32-bit arithmetic and gives a 64-character hex digest.
- `RateLimit`: the sliding-window limiter, at most five attempts per IP in
  60 000 ms.
- `Metrics`: the four outcome counters and the FRR/FAR percentages.
- `BoundedLog`: the two newest-first capped logs (`[x, ...logs].slice(0, cap)`
  and `insert(0, x)` followed by one `pop()`).
- `MockBackend`: the engine, as class `Engine`. Each method updates the engine's
  fields in place.
- `FaceApi`: the Python endpoints, as class `Server` over the user table and
  the nonce table.
- `AuditService` and `ThreatService`: the audit logger singleton and the
  simulator that writes to it.
- `SecurityLogs`: the viewer's filter and export. It also has a reader for the
  RFC 4180 (section 2) format, to state that the export reads back.

Inputs the code takes from its environment are parameters:

- clock readings (`now`, and `clock` for the brute-force attempts);
- random draws (embeddings, salts, token suffixes);
- uuids and log-entry ids;
- the outcome of the image pipeline (`live`, the embedding, the similarity
  function);
- the floating-point numerics of the TypeScript engine (a `Host` record with
  variance, cosine, JSON, `toFixed` and ISO rendering).

## Model

| member | source | states |
|---|---|---|
| MockBackend.FindById | services/mockBackend.ts:226 | a found index holds a user with the id |
| MockBackend.FindByIdIsFirst | services/mockBackend.ts:226 | `find` returns the first match; no match means no user has the id |
| MockBackend.FindByIdStable | services/mockBackend.ts:197-198 | updating a user in place without changing its id leaves every lookup as it was |
| MockBackend.FindByIdAppend | services/mockBackend.ts:162 | appending a user does not change a lookup that already succeeds |
| MockBackend.SumSquares | services/mockBackend.ts:61-62 | the squared magnitude is never negative |
| MockBackend.Similarity | services/mockBackend.ts:58-65 | 0 for lengths that differ or a zero vector, otherwise the cosine ratio |
| MockBackend.Evaluate | services/mockBackend.ts:212-270 | defines the gate chain on the state before the call: rate limit, then identity with a template, then sample, then the remaining gates |
| MockBackend.Judge | services/mockBackend.ts:241-270 | defines the liveness (variance < 0.02 is spoofed), integrity and similarity gates; matched iff score ≥ threshold |
| MockBackend.ScoredPassedEveryGate | services/mockBackend.ts:212-270 | a scored attempt passed, in order: rate limit, identity, template, sample, liveness (variance ≥ 0.02), integrity; it matched iff score ≥ threshold |
| MockBackend.CorruptedNeverPassesIntegrity | services/mockBackend.ts:254-256 | a template whose hash is the 16-character tampering marker never passes the integrity check (every digest has 64 characters) |
| MockBackend.CorruptedTemplateIsIntegrityViolation | services/mockBackend.ts:366-372 | a corrupted enrolled template probed with its own embedding stops at the integrity gate |
| MockBackend.RateLimitMessageIsRecognised | services/mockBackend.ts:218 | the throttling message contains the "Too many attempts" marker that brute force looks for |
| MockBackend.Respond | services/mockBackend.ts:215-318 | success iff the attempt was scored and matched; a success carries the token and a 900 s expiry; scored attempts report their score and the others 0 |
| MockBackend.SuccessOpensBoundSession | services/mockBackend.ts:279-307 | a successful response's token opens a session for the matched user, bound to the context IP and role, expiring 900 000 ms later; any other response leaves the sessions alone |
| MockBackend.OutcomeEntries | services/mockBackend.ts:228-317 | an attempt past the limiter logs at most one entry; an integrity violation logs a CRITICAL one |
| MockBackend.Logged | services/mockBackend.ts:442 | the log stays within 100 entries and its newest entry is the last one logged |
| MockBackend.LoggedConcat | services/mockBackend.ts:442 | logging two batches in turn is logging their concatenation |
| MockBackend.LogEventShape | services/mockBackend.ts:436-443 | one `logEvent` puts the entry first, followed by the old entries minus the oldest when the log is full |
| MockBackend.NewTemplateIsIntact | services/mockBackend.ts:182-195 | a fresh template belongs to its user, passes its own integrity check and has a 64-character hash |
| MockBackend.TemplateEmbedding | services/mockBackend.ts:406 | the victim's embedding exists iff the user exists and has a template |
| MockBackend.UsernameOfIsLookup | services/mockBackend.ts:359 | `user?.username` is the username of the looked-up user, absent when there is none |
| MockBackend.BruteForceStop | services/mockBackend.ts:384-388 | the loop stops exactly on a success or a throttling message, and reports success iff the attempt succeeded |
| MockBackend.BestScore | services/mockBackend.ts:379-389 | the best score is at least 0, at least every attempt's score, and is 0 or one of them |
| MockBackend.ReplayPlan | services/mockBackend.ts:345-352 | no packets; or a stale packet (HIGH profile, age > 5000 ms, with that age); otherwise the last packet's embedding is resent |
| MockBackend.Engine.constructor | services/mockBackend.ts:9-28 | empty users, logs, limiter, sessions and packets; zero counters; threshold 0.94 |
| MockBackend.Engine.LogEvent | services/mockBackend.ts:436-443 | the stamped entry is prepended, capped at 100 |
| MockBackend.Engine.CheckRateLimit | services/mockBackend.ts:73-97 | verdict, stored list and the throttling alert are those of `RateLimit.Check` on the IP's stored attempts |
| MockBackend.Engine.SetThreshold | services/mockBackend.ts:103-126 | the threshold is always replaced; the log gains a CONFIG_CHANGE entry, preceded by a CRITICAL alert below 0.5 |
| MockBackend.Engine.ThresholdEntries | services/mockBackend.ts:107-125 | two entries below 0.5 (SYSTEM_ALERT/CRITICAL, then CONFIG_CHANGE/WARNING), otherwise one |
| MockBackend.Engine.GetMetrics | services/mockBackend.ts:128-148 | counters and threshold copied; each rate rendered with 2 decimals, or "0.00" when its denominator is 0 |
| MockBackend.Engine.RegisterUser | services/mockBackend.ts:152-172 | a taken username is an error and changes nothing; otherwise an unenrolled user `u_<now>` is appended and logged |
| MockBackend.Engine.EnrollUser | services/mockBackend.ts:174-208 | unknown id or variance < 0.05 is an error and changes nothing; otherwise the user gets an intact template, is marked enrolled and is logged |
| MockBackend.Engine.VerifyUser | services/mockBackend.ts:212-319 | the response, limiter, counters, sessions and log are those of the pipeline's outcome on the state before the call |
| MockBackend.Engine.Authenticate | services/mockBackend.ts:225-240 | the identity and sample gates, then the same effect as the outcome of the remaining gates |
| MockBackend.Engine.Inspect | services/mockBackend.ts:239-266 | the liveness and integrity gates, then scoring |
| MockBackend.Engine.Score | services/mockBackend.ts:268-318 | exactly one counter is bumped; a match opens the bound session and logs AUTH_SUCCESS, a mismatch logs AUTH_FAILURE |
| MockBackend.Engine.CaptureTraffic | services/mockBackend.ts:328-336 | the packet is appended and the new count returned |
| MockBackend.Engine.RestoreHash | services/mockBackend.ts:375 | the saved hash is written back into the user's current template, if there is one |
| MockBackend.Engine.ReplayAttack | services/mockBackend.ts:344-364 | per replay plan: "No packets captured."; a stale packet refused, logged and never verified; otherwise one attacker attempt with the captured embedding |
| MockBackend.Engine.RefuseStaleReplay | services/mockBackend.ts:352-361 | the CRITICAL replay entry is logged and the expiry verdict returned |
| MockBackend.Engine.TamperingAttack | services/mockBackend.ts:366-376 | never succeeds; without a template nothing changes; otherwise the hash is corrupted, a restore is scheduled, and the attempt is throttled or refused for integrity with counters and sessions unchanged |
| MockBackend.Engine.CorruptHash | services/mockBackend.ts:368-370 | only that template's hash changes, to the marker, and lookups stay valid |
| MockBackend.Engine.BruteForceAttack | services/mockBackend.ts:378-391 | runs at most 20 attempts and stops at the first success or throttled attempt; otherwise it reports the best score; when all attempts fall in one window it stops by the sixth |
| MockBackend.Engine.BruteForceTry | services/mockBackend.ts:381-386 | within the window, an attempt after five stored ones is throttled, and an attempt that was not throttled adds one stored attempt |
| MockBackend.Engine.UnauthorizedEnrollmentAttack | services/mockBackend.ts:393-404 | refused and logged under HIGH, reported as exploited otherwise; users untouched |
| MockBackend.Engine.SessionHijackingAttack | services/mockBackend.ts:406-427 | the victim's own verification, then: no token gives a failure; under HIGH the IP-bound token is refused and logged; otherwise the hijack is reported; never succeeds under HIGH |
| MockBackend.Engine.VictimLogin | services/mockBackend.ts:406 | the victim's own verification from the default IP has the full `verifyUser` effect, and a token it issues names a session bound to that IP |
| MockBackend.Engine.StolenTokenOutcome | services/mockBackend.ts:407-427 | defines the three outcomes of presenting the victim's token: no token, the HIGH profile's refusal with its log entry, or the hijack |
| MockBackend.Engine.UseStolenToken | services/mockBackend.ts:407-427 | the three outcomes of presenting the stolen token from 203.0.113.55 |
| MockBackend.Engine.RefuseHijack | services/mockBackend.ts:413-424 | the CRITICAL hijack entry naming the bound IP is logged and the mismatch verdict returned |
| MockBackend.Engine.ThresholdManipulationAttack | services/mockBackend.ts:429-431 | refused without effect under HIGH; otherwise one attacker attempt at threshold 0.1; the global threshold is never written |
| MockBackend.Engine.ReplayEffect | services/mockBackend.ts:344-364 | defines the REPLAY scenario's response, log and untouched limiter, counters and sessions, per replay plan |
| MockBackend.Engine.TamperingEffect | services/mockBackend.ts:366-376 | defines the TAMPERING scenario's effect: nothing without a template; otherwise the marker hash, the returned restore, and the throttled or integrity-refused attempt |
| MockBackend.Engine.BruteForceEffect | services/mockBackend.ts:378-391 | defines what the BRUTE_FORCE run reports from the pipeline's answers: the stop rule, the best-score message, and the stop by the sixth attempt within one window |
| MockBackend.Engine.EnrollmentAttackEffect | services/mockBackend.ts:393-404 | defines the UNAUTHORIZED_ENROLLMENT response and log under and outside HIGH |
| MockBackend.Engine.HijackEffect | services/mockBackend.ts:406-427 | defines the SESSION_HIJACKING effect: the victim's verification, then the three token outcomes |
| MockBackend.Engine.ManipulationEffect | services/mockBackend.ts:429-431 | defines the THRESHOLD_MANIPULATION effect: nothing under HIGH, otherwise one attempt at threshold 0.1 |
| MockBackend.Engine.SimulateProbeAttack | services/mockBackend.ts:344-391 | the REPLAY, TAMPERING and BRUTE_FORCE branches each have their scenario's effect; users change only under tampering |
| MockBackend.Engine.SimulatePolicyAttack | services/mockBackend.ts:393-431 | the UNAUTHORIZED_ENROLLMENT, SESSION_HIJACKING and THRESHOLD_MANIPULATION branches each have their scenario's effect, and none succeeds under HIGH |
| MockBackend.Engine.SimulateAttack | services/mockBackend.ts:338-434 | each attack kind except BRUTE_FORCE has exactly its scenario's effect on the response and on every field; for BRUTE_FORCE only the report is stated (limiter, counters, sessions and log only keep `Valid`); also: only tampering touches users, and it never succeeds; enrollment, manipulation and hijacking fail under HIGH; a brute-force burst ends in success or throttling |
| RateLimit.Recent | services/mockBackend.ts:78 | keeps exactly the attempts younger than 60 000 ms |
| RateLimit.Check | services/mockBackend.ts:73-97 | allowed iff fewer than 5 recent attempts; allowed stores recent + now; blocked stores recent; alerts iff exactly 5 are recent |
| RateLimit.CheckKeepsBound | services/mockBackend.ts:80-95 | the stored list never exceeds 5 |
| RateLimit.BlockedCallAlerts | services/mockBackend.ts:80-89 | under that bound every blocked call logs the alert |
| RateLimit.RecentKeepsAll | services/mockBackend.ts:78 | pruning keeps every recent attempt |
| RateLimit.RecentDropsStale | services/mockBackend.ts:78 | a stale attempt is pruned |
| RateLimit.AllowedBelowCap | services/mockBackend.ts:94-96 | below the cap a call is allowed and recorded |
| RateLimit.BlockedAtCap | services/mockBackend.ts:80-91 | with five recent attempts the sixth is blocked and alerts |
| RateLimit.AllowedAfterAgeOut | services/mockBackend.ts:78-96 | once a stored attempt ages out, one more call is allowed |
| RateLimit.FiveThenBlocked | services/mockBackend.ts:5-6 | five calls at one instant are allowed and the sixth is blocked |
| RateLimit.Since | services/mockBackend.ts:78 | counts no more attempts than are stored |
| RateLimit.SinceIsRecent | services/mockBackend.ts:78 | within a window of `lo`, pruning does not drop attempts since `lo` |
| RateLimit.SinceAppend | services/mockBackend.ts:94 | recording an attempt adds it to those since `lo` |
| RateLimit.BurstIsThrottled | services/mockBackend.ts:73-97 | within one window, five stored attempts block the next call, and each allowed call adds one |
| Metrics.Record | services/mockBackend.ts:272-277 | exactly one counter grows: the one named by match × attack |
| Metrics.Percentage | services/mockBackend.ts:132-138 | defined iff the denominator is positive, and then between 0 and 100 |
| Metrics.FrrRate | services/mockBackend.ts:129-134 | defines FRR as false rejects over genuine attempts, undefined with no genuine attempt |
| Metrics.FarRate | services/mockBackend.ts:130-138 | defines FAR as false accepts over impostor attempts, undefined with no impostor attempt |
| Metrics.RatesArePercentages | services/mockBackend.ts:128-138 | FRR and FAR lie in [0, 100] |
| Metrics.OneFalseAcceptIsFullFar | services/mockBackend.ts:136-138 | one false accept and no true reject is FAR 100 |
| Metrics.RecordMovesOneDenominator | services/mockBackend.ts:129-130 | an attack moves only FAR's denominator, a genuine attempt only FRR's |
| SecureHash.Rolling | services/mockBackend.ts:39-45 | defines the rolling hash: one `Step` per character from 0 |
| SecureHash.Digest | services/mockBackend.ts:46 | defines the digest: the absolute value in hexadecimal, left-padded with '0' to 64 characters |
| SecureHash.ToInt32 | services/mockBackend.ts:43-44 | result is signed 32-bit and congruent modulo 2^32 |
| SecureHash.Step | services/mockBackend.ts:41-45 | each round stays in signed 32-bit range |
| SecureHash.DigestLength | services/mockBackend.ts:46 | every digest has exactly 64 characters |
| SecureHash.DigestIsHex | services/mockBackend.ts:46 | every digest is lower-case hexadecimal |
| SecureHash.HexDigits | services/mockBackend.ts:46 | `toString(16)` uses only hex digits |
| SecureHash.Hash | services/mockBackend.ts:36-47 | the loop computes the digest of `data + salt` |
| Text.PadStart | services/mockBackend.ts:46 | `padStart` keeps long strings and left-fills short ones to the width |
| Text.NatToString | services/mockBackend.ts:157 | decimal rendering is a non-empty string of digits |
| BoundedLog.PrependCapped | services/mockBackend.ts:442 | length min(n+1, cap); new entry first, then the old ones minus the oldest |
| BoundedLog.InsertPop | backend/audit_service.py:37-40 | stays within the cap and puts the new entry first |
| BoundedLog.InsertPopIsPrependCapped | backend/audit_service.py:37-40 | the Python and TypeScript eviction policies agree on a bounded log |
| BoundedLog.InsertPopKeepsOrder | backend/audit_service.py:37-40 | the older entries keep their order and lose only the oldest |
| BoundedLog.InsertAll | backend/audit_service.py:37-40 | a bounded log stays bounded |
| BoundedLog.InsertAllNewestFirst | backend/audit_service.py:37-40 | after inserting several entries the log begins with them, newest first |
| BoundedLog.InsertAllPrefix | backend/audit_service.py:37-40 | the length after the insertions is min(n + k, cap) |
| BoundedLog.InsertAllShifts | backend/audit_service.py:37-40 | an old entry moves back by the number inserted |
| BoundedLog.InsertAllSnoc | backend/audit_service.py:37-40 | inserting a batch and then one more is inserting the longer batch |
| FaceApi.FindByUsername | backend/main.py:102 | the first user with that name, absent iff nobody has it |
| FaceApi.Expired | backend/main.py:59 | defines a nonce as expired when more than 60 s old |
| FaceApi.Eligible | backend/main.py:158 | defines a user as a candidate when the embedding is present and non-empty (`if user.embedding:`) |
| FaceApi.Best | backend/main.py:153-163 | score ≥ -1; no user means -1; a chosen user is enrolled and scored |
| FaceApi.BestIsMaximal | backend/main.py:157-163 | the best score is at least every enrolled user's score |
| FaceApi.BestIsFirstMaximum | backend/main.py:161-163 | with strict `>`, the chosen user is the first to reach the maximum |
| FaceApi.BestNoneIff | backend/main.py:154-163 | no match iff no eligible user scores above -1 (the scan starts at -1.0 with a strict `>`) |
| FaceApi.Decide | backend/main.py:166-178 | authorized iff score > 0.5 and a user was found; the reply carries the score, and the user view or the denial |
| FaceApi.AuthorizedIffSomeoneAboveThreshold | backend/main.py:153-178 | authorized iff some enrolled user scores above 0.5 |
| FaceApi.Server.constructor | backend/main.py:31-32 | empty user and nonce tables |
| FaceApi.Server.CleanupNonces | backend/main.py:57-61 | exactly the nonces older than 60 s are removed; the rest keep their stamps |
| FaceApi.Server.GetChallenge | backend/main.py:70-75 | the new nonce is stored and kept; the cleanup runs over the others |
| FaceApi.Server.RegisterUser | backend/main.py:78-88 | error 400 iff the username is taken; otherwise the record, with no embedding, is appended |
| FaceApi.Server.EnrollFace | backend/main.py:91-121 | 404 unknown user, 400 for liveness, 400 with no embedding; otherwise only that user's embedding is set |
| FaceApi.Server.VerifyFace | backend/main.py:124-178 | an unknown nonce gives 403; a known one is consumed before anything else; liveness, then no face, then the 1:N decision |
| FaceApi.Server.BestMatch | backend/main.py:153-163 | the loop computes `Best` over the users in insertion order |
| AuditService.SlicePrefix | backend/audit_service.py:47 | Python's `[:limit]`: a prefix of length min(limit, n), or n + limit for a negative limit |
| AuditService.IsRecentAuth | backend/audit_service.py:66-73 | defines the hour's authentications: a parsed timestamp within the day and the hour, and an authentication event type |
| AuditService.IsRecentDenial | backend/audit_service.py:66-76 | defines the day's denials: a parsed timestamp within the day and a denial event type |
| AuditService.IsRecentThreat | backend/audit_service.py:66-79 | defines the day's threats: a parsed timestamp within the day and an entry that looks like a threat |
| AuditService.LooksLikeThreat | backend/audit_service.py:78 | defines a threat-like entry: CRITICAL severity, "ATTACK" in the event type or "Threat" in the details |
| AuditService.Count | backend/audit_service.py:64-79 | never more than the entries |
| AuditService.CountZeroIff | backend/audit_service.py:64-79 | zero iff no entry satisfies the filter |
| AuditService.CountStep | backend/audit_service.py:64-79 | one more entry adds one iff it satisfies the filter |
| AuditService.CountMonotone | backend/audit_service.py:64-79 | a weaker filter counts at least as many |
| AuditService.AuthsWithinDay | backend/audit_service.py:70-73 | the hour's authentications are among the day's parsed entries |
| AuditService.UnparseableNeverCounted | backend/audit_service.py:66-69 | an entry whose timestamp fails to parse is never counted |
| AuditService.Service.constructor | backend/audit_service.py:22-24 | empty log |
| AuditService.Service.Log | backend/audit_service.py:26-43 | the returned entry has the given fields; it is inserted first and at most the oldest is dropped past 1000 |
| AuditService.Service.GetLogs | backend/audit_service.py:45-47 | the newest `limit` entries, as a prefix |
| AuditService.Service.GetMetricSummary | backend/audit_service.py:49-92 | each counter is the number of entries that pass its windowed filter; active threats 0 and an empty timeline |
| ThreatService.KindOf | backend/threat_service.py:29-96 | defines the dispatch on the attack-type string: four implemented types, everything else unknown |
| ThreatService.Decide | backend/threat_service.py:26-96 | defines each type's success flag and message by profile, with "Attack Blocked" as the default |
| ThreatService.HighNeverSucceeds | backend/threat_service.py:29-96 | under HIGH no simulation succeeds |
| ThreatService.ImplementedSucceedsIffNotHigh | backend/threat_service.py:29-93 | the four implemented attacks succeed iff the profile is not HIGH |
| ThreatService.UnknownTypeNotImplemented | backend/threat_service.py:95-96 | any other type fails with the "not implemented" message |
| ThreatService.Trail | backend/threat_service.py:14-105 | two or three entries are written |
| ThreatService.TrailShape | backend/threat_service.py:14-105 | START first, RESULT last (INFO iff failed, "Result: " + message); a CRITICAL entry for the blocked attacks and a WARNING anomaly for brute force |
| ThreatService.TrailAtHead | backend/threat_service.py:14-105 | after the run the log begins with the trail, newest first |
| ThreatService.Simulator.constructor | backend/threat_service.py:113 | the simulator writes into the given audit logger |
| ThreatService.Simulator.ExecuteSimulation | backend/threat_service.py:7-111 | the result is the decision for the type and profile, and the log is the old log with the trail inserted |
| SecurityLogs.FilteredLogs | pages/SecurityLogs.tsx:22-30 | never more entries than the log |
| SecurityLogs.FilteredMembership | pages/SecurityLogs.tsx:22-30 | an entry is shown iff it is in the log and passes the severity, type and search filters |
| SecurityLogs.FilteredIsSubsequence | pages/SecurityLogs.tsx:22 | filtering keeps the log's order |
| SecurityLogs.FilteredIdempotent | pages/SecurityLogs.tsx:22-30 | filtering twice is filtering once |
| SecurityLogs.MatchesSearch | pages/SecurityLogs.tsx:25-28 | defines the search: case-insensitive in details or username, case-sensitive in the IP |
| SecurityLogs.Keep | pages/SecurityLogs.tsx:22-30 | defines a shown entry: severity, type and search filters all pass |
| SecurityLogs.NoFilterKeepsAll | pages/SecurityLogs.tsx:8-10 | with ALL, ALL and an empty search every entry is shown |
| SecurityLogs.UserCell | pages/SecurityLogs.tsx:41 | a missing or empty username shows as N/A |
| SecurityLogs.QuotedCells | pages/SecurityLogs.tsx:38-43 | every value escaped and double-quoted |
| SecurityLogs.EscapeQuotesIdentity | pages/SecurityLogs.tsx:43 | a value without double quotes is unchanged by the escaping |
| SecurityLogs.NamesHaveNoQuote | pages/SecurityLogs.tsx:39-40 | severity and event-type names need no escaping |
| SecurityLogs.RowAsWritten | pages/SecurityLogs.tsx:37-44 | defines the record as the source writes it: six quoted fields, only the details escaped |
| SecurityLogs.Row | pages/SecurityLogs.tsx:37-44 | defines the corrected record: all six fields escaped and quoted |
| SecurityLogs.Csv | pages/SecurityLogs.tsx:34-36 | defines the export text: the header line, then one record per entry, joined by newlines |
| SecurityLogs.Export | pages/SecurityLogs.tsx:33-45 | defines the export of the current view: the CSV of the filtered entries |
| SecurityLogs.RowAgreesWithoutQuotes | pages/SecurityLogs.tsx:37-44 | the record as written equals the fully escaped record when timestamp, user and IP have no double quote |
| SecurityLogs.RowRoundTrip | pages/SecurityLogs.tsx:37-44 | one escaped record reads back as its six values |
| SecurityLogs.CsvRoundTrip | pages/SecurityLogs.tsx:33-45 | the export reads back as the header and then each entry's values, in order |
| SecurityLogs.UnescapedUsernameBreaksRecord | pages/SecurityLogs.tsx:41 | with username `a"b` the record as written does not read back, and the escaped one does |

## Left out

- Floating-point arithmetic is abstracted. `calculateVariance`, the cosine
  ratio, `toFixed`, JSON, number rendering and `toISOString` are `Host` functions.
  So is the Python image pipeline: decoding, liveness, the embedding network
  and `compute_similarity`. The model proves nothing about their values.
- Randomness, the clock and uuids are parameters. This covers:
  - random embeddings, salts and token suffixes;
  - `Date.now()` and `time.time()`;
  - uuids and log ids.
- The random log id of the mock's entries is not modelled, and `metadata` is dropped.
- Timers, sleeps and `await` delays are left out. The tampering restore timer
  becomes a returned `Restore` that `Engine.RestoreHash` applies later.
- Each `verifyUser` call reads one instant. The 600 ms latency between the
  rate limit and the session stamp is not modelled.
- `get_challenge` also reads one instant, `now`. It stands for the three
  `time.time()` readings: the stored stamp, the cleanup and the returned
  timestamp.
- Interleaving of concurrent requests is not modelled.
- `rotateToken`, `getLogs`, `getUsers`, `health_check`, FastAPI routing, CORS,
  `print`, and the UI rendering and DOM work are left out. That includes the
  Blob download, auto-refresh, row expansion and icons.
- `face_service.py` is not part of this model, except its 0.5 threshold.
- `AuditService.Service.GetMetricSummary`'s timeline buckets are left out: the
  source always returns an empty timeline.
- `ThreatService`'s unused `blocked_at` and its `time.sleep` are left out.
- The "Unknown Attack" fallthrough at the end of `simulateAttack` is not
  modelled because it is unreachable: `AttackType` has six constructors and
  every one is handled.
- `MockBackend.Engine.BruteForceAttack`: `responses` is a ghost record of the
  pipeline's answers. The method's contract relates each answer to the stop
  rule, but not to the state after that attempt. So the limiter, counters,
  sessions and log after the run are stated only to keep `Valid`.
- `MockBackend.Engine.SimulateAttack`: for BRUTE_FORCE it states only the run's
  report (`BruteForceEffect`). The state after the run is left unstated, as for
  `BruteForceAttack`.
- `FaceApi.Server.RegisterUser` requires a fresh id: `uuid4` is assumed unique.
- The `users_db` dictionary is a sequence in insertion order, which is the
  dictionary's iteration order.
- SecurityLogs.MatchesSearch: `Text.ToLower` folds only A-Z. JavaScript's
  `toLowerCase` folds every Unicode letter, so a search for "é" matches "É"
  in the viewer but not in the model.
- SecureHash.CharCode: takes the Unicode scalar value of a character, while
  `charCodeAt` reads UTF-16 code units. So a character outside the Basic
  Multilingual Plane is two rounds of the hash in the source and one here.
- `SecurityLogs.Csv` escapes every field (see Findings). The export as written
  is `RowAsWritten`, and it gives the same text whenever timestamp, username
  and IP hold no double quote (`RowAgreesWithoutQuotes`).

## Findings

| source | as written | input that shows it | evidently intended | confidence | as-written member | corrected member |
|---|---|---|---|---|---|---|
| pages/SecurityLogs.tsx:41 | the username is wrapped in double quotes, but its own double quotes are not doubled (only details are escaped, line 43) | a log entry whose username is `a"b`: its field `"a"b"` closes after `a`, so the record does not read back as RFC 4180 CSV | every quoted field escaped the way the details are | medium, not executed | SecurityLogs.UnescapedUsernameBreaksRecord | SecurityLogs.CsvRoundTrip |
