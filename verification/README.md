# theFactory: verified models of its hard parts

This Dafny project models the parts of theFactory whose behaviour is hardest to see by reading one
function, and proves what they keep over every input, every run or every reachable state.
`dafny verify dfyconfig.toml` checks all of it.

| part | files | what is proved about it |
|---|---|---|
| Atomic file writer | `AtomicWrite`, `AtomicSafety`, `AtomicOrder`, `AtomicBackup`, `AtomicWitness`, `AtomicCall` | any number of calls and processes, kernel write-back and crashes at any step: a destination is old or one call's content and follows the replacements; what a failed call leaves; lock order and backups, with exactly the processes they need; the code itself is a run of that protocol |
| DER and X.509 encoder | `Der`, `DerValues`, `X509` | the encoder against an independent strict reader: round trips exactly on their domain, sizes included, canonical and prefix-free encodings |
| Audit worker | `AuditWorker`, `AuditGroup` | one entry's try/except/finally; several consumers in one group that publish into the stream they read: classification, delivery once, the N + k bound, draining |
| Circuit breaker and request | `CircuitBreaker`, `AgentRequest` | the breaker's fields as a function of any history; the retrying request and its one nested audit request |
| PII redaction | `PiiSpans`, `ContextRedaction`, `Sorting` | the kept spans, what is covered, undoing a redaction; the cycle-aware walk position by position |
| Replay guard | `ReplayGuard` | rejection exactly within the time to live of an accepted call, over any interleaving |
| Object-store migration | `Migration` | every key classified, nothing overwritten, protection of copied keys, resuming and re-running |
| Release gate | `IsoTime`, `TextOrder`, `PythonJson`, `Qualification`, `QualificationSummary`, `EvidenceRuns`, `Promotion`, `ReleaseGate` | evidence files to promotion decision, end to end; which payloads on file count, and which count twice |
| .env upsert and parser | `EnvText`, `EnvUpsert`, `EnvLaws`, `EnvTwice`, `EnvBytes` | parsing after an upsert, upserting twice, leaving a text byte for byte, each with its exact condition |
| Repository tree | `BuildTree` | rendering and a strict reader are inverse; line counts |

Code that changes state step by step is modelled by methods (on classes where the source has
objects), each proved against a specification function; the theorems are then about that function.

## Where a promise and the code part

Each of these is kept as the code has it, with the exact condition under which the promise holds.

- `derLength` and `derOid` shift 32-bit values: lengths and arcs from 2^31 on are lost
  (`Der.LengthRoundTrip`, `Der.LengthLost`, `DerValues.ArcRoundTrip`); integers keep one octet, the first
  object identifier octet must be below 128, years need four digits.
- Without verification a short write that nobody notices replaces the destination
  (`AtomicWitness.ShortWriteReplaces`, `AtomicWitness.CompleteIffVerified`).
- The lock of a path is per process. Replacements follow the order of the locks exactly when all calls for the
  destination run in one process (`AtomicWitness.LockOrderIffOneProcess`), and only then can a call count on
  being the last to have replaced when it releases its lock (`AtomicWitness.OwnIffOneProcess`). Its backup is
  what its own replacement overwrote exactly then, or when there was no file at first and it has one rival at
  most (`AtomicWitness.BackupIffGuarded`).
- `redact_pii` documents that all PII is replaced; the tail of a match that overlaps a kept one can stay
  (`PiiSpans.TailRemains`). `PiiSpans.CoverageByRaw` gives the exact condition on the raw matches. It has to
  follow the chain the greedy choice follows, because whether a match is kept depends on the whole chain
  before it; `PiiSpans.TouchingMatchesAreCovered` is a sufficient condition on single matches.
- "Remaining PII" in allowed fields is redacted in texts only: a dictionary's keys come out letter for letter
  (`ContextRedaction.KeysAreNotRedacted`), and numbers stay as they are (`ContextRedaction.ResultByPosition`).
- A migration that misses the source's lock copies without it (`Migration.LockMissedExactlyWhen`). Later runs
  that read both objects skip the key as identical; a lost hold comes back exactly when a later run reads source
  and hold, cannot read the copy, stores over it, and is the last to store
  (`Migration.HoldLostExactlyUntil`). An object that cannot be read
  at the destination counts as absent and can be overwritten (`Migration.OverwrittenExactlyWhen`). A resumed
  migration is as good as a fault-free one exactly when neither happened (`Migration.ResumeAll`).
- A destination bucket whose HEAD fails counts as absent, so its Object Lock is not looked at
  (`Migration.Destination.Migrate`).
- A transient failure in the audit worker is left unacknowledged "to be redelivered", but only new
  entries are read, so it never is (`AuditGroup.DeliveredOnce`).
- `upsertEnvValues` says every other line stays byte for byte. Lines do (`EnvTwice.OtherLinesUntouched`);
  the whole text does exactly when it ends in its newline once, has one kind of line end and holds the
  values already (`EnvBytes.UpsertKeepsText`, `EnvBytes.MixedEndsRewritten`). A last line that ends in a
  bare carriage return changes the second time (`EnvTwice.TwiceIsOnce`). A key assigned twice keeps its
  second value (`EnvLaws.UpsertThenParse`, `EnvLaws.SecondAssignmentDecides`).
- Evidence runs are told apart by time, outcome and output file, and a payload without an output file by
  the file it was read from. So one payload counts twice exactly when it is the latest one, stands in another
  file's history, is readable and names no output file (`EvidenceRuns.CountsTwiceExactlyWhen`); a single run
  can then meet a minimum of two passes (`EvidenceRuns.OneRunPassesForTwo`). Without such a payload the
  promised number of passes comes from that many different payloads (`ReleaseGate.PromotedMeansPayloads`).
- A payload is ignored exactly when it has no outcome or no readable time (`EvidenceRuns.IgnoredExactlyWhen`).
- The summary fails when any of its suites fails, also one the policy does not require
  (`ReleaseGate.GateOpensExactlyWhenAllPass`).

## Model

| member | source | states |
|---|---|---|
| AtomicSafety.AtomicThroughCrashes | shared_runtime/atomic_io.py:53-103 | after any interleaving of any calls, write-back and crashes, a destination holds its initial content (or absence) or what one call for it wrote, now and after a crash at this point |
| AtomicSafety.CrashInvStep | shared_runtime/atomic_io.py:66-103 | every step of the protocol keeps the invariant: which file may stand at which path, what a temporary file may hold, sealed files never change |
| AtomicOrder.HoldersDiffer | shared_runtime/atomic_io.py:36-39 | in every reachable state, two calls of one process inside the locked window have different destinations |
| AtomicOrder.ValuesFollowReplacements | shared_runtime/atomic_io.py:90-101 | whichever processes write it, a destination's value is the last replacement's bytes since boot, and each replacement overwrote what the one before installed |
| AtomicOrder.NewestIsInstalled | shared_runtime/atomic_io.py:82-101 | for any processes: while the newest replacement is a verifying call's, its destination holds all of its data |
| AtomicOrder.FailureChangesNothing | shared_runtime/atomic_io.py:42-51 | for any processes: a call that failed in writing, verification or replacement made no replacement, its file stands nowhere as a destination, and it tried at most ten times |
| AtomicOrder.TempLeftExactlyWhen | shared_runtime/atomic_io.py:60-103 | without a crash, a call that was not killed has its temporary file on disk exactly from making it until it replaces with it or unlinks it; a finished one leaves it exactly when it failed and its last unlink failed too |
| AtomicBackup.BackupAtRelease | shared_runtime/atomic_io.py:92-101 | at release, `.bak` holds exactly the bytes the call's own replacement, the destination's last, overwrote, when its backup was written and all calls for the destination run in its process (or there was no file and it has one rival at most) |
| AtomicBackup.InstalledAtRelease | shared_runtime/atomic_io.py:82-101 | at release after a replacement, when all calls for the destination run in its process, the last replacement is the call's own and, with `verify`, the destination holds all of its data |
| AtomicWitness.LockOrderIffOneProcess | shared_runtime/atomic_io.py:28-39 | in every run the replacements of a destination follow the order of lock acquisition, exactly when all its calls run in one process |
| AtomicWitness.OwnIffOneProcess | shared_runtime/atomic_io.py:90-101 | in every run a call that has replaced is the last to have done so when it releases its lock, exactly when all calls for its destination run in one process |
| AtomicWitness.BackupIffGuarded | shared_runtime/atomic_io.py:92-101 | in every run the backup at release is right, exactly when all calls for the destination run in one process, or it did not exist at first and at most one other call writes it |
| AtomicWitness.ShortWriteReplaces | shared_runtime/atomic_io.py:74-86 | with `verify` off there is a run in which a short write replaces the destination |
| AtomicWitness.CompleteIffVerified | shared_runtime/atomic_io.py:82-86 | only complete data is ever installed exactly when every call verifies or has nothing to write |
| AtomicCall.ReplaceWithRetry | shared_runtime/atomic_io.py:42-51 | at most ten attempts, and it succeeds exactly when one replaces after nothing but sharing violations; success is one replacement of the temporary file's bytes, failure changes neither disk nor history |
| AtomicCall.MakeBackup | shared_runtime/atomic_io.py:92-98 | an existing file is copied to `.bak` unless reading, opening or writing raises, and then as far as that went; without a file `.bak` stays; whatever happens the call goes on to replace |
| AtomicCall.SyncAndVerify | shared_runtime/atomic_io.py:80-86 | passes exactly when nothing raised and, with `verify`, the file holds all its data |
| AtomicCall.AtomicWriteBytes | shared_runtime/atomic_io.py:53-103 | for every way the operating system answers: whether the call succeeds, its replacement, and that it is a run of the protocol in which only this call moves; on a machine that started quietly, the destination then holds what was written (with `verify`, all of the data), `.bak` what was backed up, and every other destination, after a failure its own too, what it held |
| Der.DerLength | apps/mission-control/electron/tls-certs.ts:22-33 | the byte-building loop, 32-bit shifts included, writes the specified length octets |
| Der.LengthRoundTrip | apps/mission-control/electron/tls-certs.ts:22-33 | a length is read back, with any suffix, exactly when it is below 2^31 |
| Der.LengthLost | apps/mission-control/electron/tls-certs.ts:26-32 | the length 2^31 is written as one zero octet and not read back |
| Der.LengthCanonical | apps/mission-control/electron/tls-certs.ts:22-33 | what is accepted is the minimal encoding the encoder writes exactly when the length read is below 2^31 (section 10.1 of X.690) |
| Der.RoundTrip | apps/mission-control/electron/tls-certs.ts:35-45 | decoding a tree's encoding followed by any octets gives the tree and those octets exactly when its content is below 2^31 octets |
| Der.Canonical | apps/mission-control/electron/tls-certs.ts:35-45 | whatever decodes is a well-shaped tree, and is its encoding, the only one, exactly when the outer length read is below 2^31 |
| Der.PrefixFree | apps/mission-control/electron/tls-certs.ts:35-45 | among trees with contents below 2^31 octets no encoding is a prefix of another's, so encodings are injective |
| Der.LongBeginsLikeShort | apps/mission-control/electron/tls-certs.ts:26-32 | the bound is needed: content 2^32 octets longer gives an encoding that begins with the shorter tree's |
| DerValues.IntegerRoundTrip | apps/mission-control/electron/tls-certs.ts:47-49 | an INTEGER is recovered exactly when it fits one signed octet |
| DerValues.ArcLoop | apps/mission-control/electron/tls-certs.ts:71-78 | the inner loop writes an arc's base-128 digits |
| DerValues.DerOid | apps/mission-control/electron/tls-certs.ts:67-81 | the nested loops write the identifier's encoding |
| DerValues.ArcRoundTrip | apps/mission-control/electron/tls-certs.ts:71-78 | an arc is recovered exactly when it is below 2^31 (section 8.19 of X.690) |
| DerValues.OidRoundTrip | apps/mission-control/electron/tls-certs.ts:67-81 | an identifier is recovered exactly when its first octet is below 128 and decodes to its first two arcs, and every other arc is below 2^31 |
| DerValues.TimeRoundTrip | apps/mission-control/electron/tls-certs.ts:83-97 | an instant comes back to the second exactly when its year has four digits, and UTCTime is used exactly from 1950 to 2049 (section 4.1.2.5 of RFC 5280) |
| DerValues.NamesRoundTrip | apps/mission-control/electron/tls-certs.ts:170-178 | subject alternative names come back in order and kind exactly when every unit and address part fits an octet |
| X509.TlsCertsKnown | apps/mission-control/electron/tls-certs.ts:99-124 | the two identifiers every certificate carries are recoverable |
| X509.CertificateIsTree | apps/mission-control/electron/tls-certs.ts:126-165 | the concatenated certificate is the encoding of one well-shaped tree |
| X509.ExtensionRoundTrip | apps/mission-control/electron/tls-certs.ts:105-112 | an extension is recovered, critical flag included, exactly when its identifier is supported |
| X509.CertificateRoundTrip | apps/mission-control/electron/tls-certs.ts:126-165 | a relying party recovers version, serial, names, validity, key and extensions exactly when every field is supported and the parts together are below 2^31 octets; inner and outer algorithm agree and the signature covers the octets of the inner part (section 4.1.1.2 of RFC 5280) |
| X509.SubjectAltNameRoundTrip | apps/mission-control/electron/tls-certs.ts:167-181 | the names of the built extension come back exactly when each fits octets and together they are below 2^31 octets |
| AuditWorker.OwnEntriesAreQuiet | services/audit-worker/audit_worker/main.py:296-331 | only verified or failed missions publish, and what is published never publishes again |
| AuditWorker.Worker.PublishEvent | services/audit-worker/audit_worker/main.py:148-162 | the entry reaches the stream unless the publication failed before it |
| AuditWorker.HandledExactlyAs | services/audit-worker/audit_worker/main.py:283-349 | a verified mission is announced as AUDIT_PASS and a failed one as AUDIT_FAIL, exactly once its audit was accepted and the stream took the event; which entries go through, which are discarded, and that all others are left |
| AuditWorker.Worker.HandleEntry | services/audit-worker/audit_worker/main.py:279-356 | announcement, counters, dead letters, pending list and whether the loop goes on after one entry, for every way the outside answers |
| AuditWorker.Worker.HandleBatch | services/audit-worker/audit_worker/main.py:277-356 | a batch is its entries in order, up to a failing acknowledgement |
| AuditGroup.HandlingIsTheWorkers | services/audit-worker/audit_worker/main.py:279-356 | the group's handling step does to the broker what the worker's method does |
| AuditGroup.EveryStateClassified | services/audit-worker/audit_worker/main.py:251-356 | in every reachable state each delivered and handled entry is in exactly one class, `processed` and `errors` count the classes, and dead letters are malformed entries, all of them when no dead-letter write failed |
| AuditGroup.AuditsAreTruthful | services/audit-worker/audit_worker/main.py:296-331 | in every reachable state each audit a worker announced follows a handled result of the same mission, AUDIT_PASS a verified and AUDIT_FAIL a failed one, and no result is announced twice |
| AuditGroup.DeliveredOnce | services/audit-worker/audit_worker/main.py:255-261 | a delivered entry stays with its consumer, is never delivered again, and its grade is final |
| AuditGroup.StreamBound | services/audit-worker/audit_worker/main.py:296-331 | N external entries, k of them mission results, lead to at most N + k stream entries |
| AuditGroup.Drains | services/audit-worker/audit_worker/main.py:251-356 | without new external entries every read, handling and acknowledgement lowers a natural-number measure |
| AuditGroup.MeasureBound | services/audit-worker/audit_worker/main.py:251-356 | that measure is at most three per entry and three more per mission result |
| AuditGroup.StuckMeansDone | services/audit-worker/audit_worker/main.py:251-356 | when no consumer can step, everything was delivered and handled unless its consumer stopped |
| CircuitBreaker.Breaker.RecordSuccess | services/agent-runtime/agent_runtime/main.py:131-133 | the fields follow the history |
| CircuitBreaker.Breaker.RecordFailure | services/agent-runtime/agent_runtime/main.py:135-146 | the fields and the trip counter follow the history |
| CircuitBreaker.Breaker.IsOpen | services/agent-runtime/agent_runtime/main.py:148-155 | answers whether the breaker rejects now, and goes to HALF when the recovery time is over |
| CircuitBreaker.HistoryDescribed | services/agent-runtime/agent_runtime/main.py:126-155 | after any history: CLOSED exactly when the trailing failures are fewer than the threshold, else opened at the last failure, HALF exactly after a late enough call, trips counting the openings |
| CircuitBreaker.DescribedIffThreshold | services/agent-runtime/agent_runtime/main.py:123-146 | that description holds of all histories exactly when the threshold is at least one |
| CircuitBreaker.RejectedExactlyWhen | services/agent-runtime/agent_runtime/main.py:148-155 | calls are rejected exactly after a full run of failures, inside the recovery time, before any call was let through |
| CircuitBreaker.HalfReopens | services/agent-runtime/agent_runtime/main.py:135-146 | one failure in HALF reopens and counts as one trip |
| AgentRequest.Runtime.RecordOutcome | services/agent-runtime/agent_runtime/main.py:277-283 | a success for a response below 500 other than 429, a failure for any other response and each HTTP error, nothing for an uncaught error |
| AgentRequest.Runtime.Attempts | services/agent-runtime/agent_runtime/main.py:264-285 | the retry loop, with other tasks using the breaker during every await: attempts up to the limit, each recorded once, ended early only by an accepted response or an uncaught error |
| AgentRequest.Runtime.EmitAuditEvent | services/agent-runtime/agent_runtime/main.py:188-234 | with a mission one request of its own, at the breaker's mercy like any other, without one nothing; nothing it meets reaches its caller |
| AgentRequest.Runtime.Request | services/agent-runtime/agent_runtime/main.py:237-306 | a request rejected at entry makes no attempt and leaves the breaker; any other is complete, its own breaker events being one probe and its records, whatever other tasks tell the breaker in between; exactly after a response, when the event is asked for, the path is not the audit endpoint and there is a mission, one nested audit request follows; at most twice the retry limit attempts in all |
| AgentRequest.CompleteRequests | services/agent-runtime/agent_runtime/main.py:264-306 | an admitted request makes one to MAX_RETRIES attempts, trying again exactly after HTTP errors, server errors and 429, and once a response was received the latest one is returned |
| AgentRequest.RecordedOnce | services/agent-runtime/agent_runtime/main.py:267-285 | every attempt is one breaker event, except one that raises an uncaught error |
| PiiSpans.DetectPii | shared_runtime/pii_guard.py:51-66 | collecting, sorting and deduplicating gives the specified spans |
| PiiSpans.DeduplicateMatches | shared_runtime/pii_guard.py:69-77 | the `last_end` loop keeps the specified matches |
| PiiSpans.KeptSpans | shared_runtime/pii_guard.py:51-77 | the kept spans are disjoint and in order, a subsequence of the sorted matches, and every dropped match starts inside one |
| PiiSpans.LongestFirstPatternWins | shared_runtime/pii_guard.py:64-77 | among matches that start together the longest is kept, ties in pattern order |
| PiiSpans.CoverageIff | shared_runtime/pii_guard.py:69-96 | everything matched is redacted exactly when no match runs across the end of a kept span into a gap |
| PiiSpans.CoverageByRaw | shared_runtime/pii_guard.py:64-96 | the same on the raw matches alone: exactly when, wherever a match runs across the end of a chain of longest matches, another starts there |
| PiiSpans.TouchingMatchesAreCovered | shared_runtime/pii_guard.py:64-96 | enough on sight: wherever one match runs across the end of another, a third starts there |
| PiiSpans.TailRemains | shared_runtime/pii_guard.py:80-96 | two matches that overlap without containment leave the second's tail in the text |
| PiiSpans.RedactPii | shared_runtime/pii_guard.py:86-96 | the cursor loop replaces exactly the kept spans |
| PiiSpans.RedactionUndone | shared_runtime/pii_guard.py:80-96 | putting the removed pieces back in place of the placeholders gives the text |
| ContextRedaction.Walker.RedactValue | shared_runtime/pii_guard.py:149-185 | ends on every graph, restores `seen`, computes the walk |
| ContextRedaction.ResultByPosition | shared_runtime/pii_guard.py:139-185 | for every path: it exists in the result exactly when it leads somewhere, is at most twelve long and repeats no container; a cycle marker stands exactly where a container above the limit is its own ancestor; texts are redacted, scalars kept |
| ContextRedaction.ShallowAndPermitted | shared_runtime/pii_guard.py:155-168 | nothing nests deeper than twelve containers and no dictionary has a forbidden key |
| ContextRedaction.KeysAreNotRedacted | shared_runtime/pii_guard.py:164-168 | every dictionary of the result has exactly the permitted keys of the original one, unredacted |
| ContextRedaction.WalkAlongPath | shared_runtime/pii_guard.py:149-185 | what stands at a path is the walk of what the path leads to, with exactly the containers on the way as ancestors |
| ContextRedaction.AcyclicUnfolds | shared_runtime/pii_guard.py:149-185 | without cycles the result is the depth-bounded unfolding: shared containers are expanded wherever they occur |
| ReplayGuard.CheckReplay | shared_runtime/protocol.py:215-234 | the call's answer and the store it leaves |
| ReplayGuard.ResetReplayGuard | shared_runtime/protocol.py:237-249 | the cursor loop is a run of DEL events on guarded keys that, undisturbed, removes every guarded key and no other |
| ReplayGuard.RejectedExactlyWithinTtl | shared_runtime/protocol.py:215-249 | over any interleaving of calls and of the DELs of resets, a call is rejected exactly when an accepted call with its id, whose key was not deleted since, is within that call's time to live |
| ReplayGuard.AcceptedFarApart | shared_runtime/protocol.py:215-234 | two accepted calls with one id, with no DEL of its key between, are at least the first one's time to live apart |
| ReplayGuard.RejectionExtendsNothing | shared_runtime/protocol.py:231-234 | a rejected call leaves every expiry as it was |
| Migration.ListKeys | scripts/migrate_object_store.py:107-118 | the paging loop returns all pages' keys in order, and a key exactly when some page has it |
| Migration.Destination.EnsureBucket | scripts/migrate_object_store.py:73-104 | refuses an unlocked destination for a locked source, creates a bucket only when executing; failing HEAD, lock query and creation included |
| Migration.Destination.Migrate | scripts/migrate_object_store.py:144-209 | refuses exactly on the listed faults; otherwise destination and report are the fold of the per-key outcome over every listed key, and an executing run for a source read as locked ends in a locked bucket unless that bucket's HEAD failed; a dry run leaves bucket and objects, a refused one the objects, and the bucket but for one it created before the listing failed |
| Migration.OutcomeExactlyWhen | scripts/migrate_object_store.py:157-209 | a key is skipped exactly when both objects can be read and have one body, would be copied exactly in a dry run without a readable copy, is copied exactly when the put stores and reads back with body, hold and mode; otherwise it failed; and what the destination then holds |
| Migration.KeyByKey | scripts/migrate_object_store.py:157-209 | each listed key becomes what its own data and faults decide, and no other key is touched |
| Migration.ReportPartitions | scripts/migrate_object_store.py:157-209 | every listed key is in exactly one of copied, skipped, would-copy and failed |
| Migration.DryRunWritesNothing | scripts/migrate_object_store.py:179-181 | a dry run changes and copies nothing |
| Migration.OverwrittenExactlyWhen | scripts/migrate_object_store.py:157-209 | over a whole run, an object already held changes exactly when its key is listed, reading it failed and the put stored something else |
| Migration.CopiedIsProtected | scripts/migrate_object_store.py:183-206 | a copied key has the source's bytes, its hold if the hold was readable, its mode if the mode was; with a faithful store it also has content type and metadata, no hold of its own, and the source's whole protection exactly when the lock was not missed |
| Migration.LockMissedExactlyWhen | scripts/migrate_object_store.py:121-137 | the put always has the source's body, content type and metadata; it asks for less protection exactly when neither way of reading an active hold, or a dated locking retention, worked |
| Migration.ResumeAll | scripts/migrate_object_store.py:157-209 | a fault-free run after a faulty one leaves what one fault-free run would, exactly when the faulty run put no new object with its lock missed and overwrote none |
| Migration.HoldLostExactlyUntil | scripts/migrate_object_store.py:121-206 | after a run that could not read a legal hold, any number of later runs leave it on exactly when the last of them that stored over the copy (its read having failed) could read the hold; a run that reads both objects skips the key |
| Migration.RerunWritesNothing | scripts/migrate_object_store.py:173-175 | after a fault-free run another writes and copies nothing |
| IsoTime.IsoOrderIsTimeOrder | scripts/qualification_gate_summary.py:106-148 | string order of UTC isoformat stamps is time order, with and without microseconds, and equal texts are equal stamps |
| Qualification.CollectHistory | scripts/qualification_gate_summary.py:117-134 | the history loop with its `seen` set keeps the first run of each key |
| Qualification.CollectSuiteRuns | scripts/qualification_gate_summary.py:115-149 | the history, the latest file and the sort give the specified runs |
| Qualification.SuiteRunsAreChronicle | scripts/qualification_gate_summary.py:115-149 | a suite's runs are all that is on file and readable, once per time, outcome and output file, in real time order |
| EvidenceRuns.IgnoredExactlyWhen | scripts/qualification_gate_summary.py:72-105 | a payload is ignored exactly when it has no boolean outcome or no readable time |
| EvidenceRuns.RunSays | scripts/qualification_gate_summary.py:72-112 | a run has its payload's outcome (`pass`, then `passed`, then the summary's), the isoformat of its time, its own output file or else its source, and exactly the failure reasons that are not blank |
| EvidenceRuns.ZuluIsUtc | scripts/qualification_gate_summary.py:57-69 | a time ending in Z is read as the same text with offset zero |
| EvidenceRuns.TimeFields | scripts/qualification_gate_summary.py:95-101 | the time is read from the first of three fields that says anything |
| EvidenceRuns.RunsComeFrom | scripts/qualification_gate_summary.py:115-149 | a suite has a run for a key exactly when a readable payload on file has that key |
| EvidenceRuns.KeyAcrossFiles | scripts/qualification_gate_summary.py:106-112 | two files give one payload the same key exactly when it names its output file |
| EvidenceRuns.CountsTwiceExactlyWhen | scripts/qualification_gate_summary.py:119-146 | one payload counts twice exactly when the latest one is readable, names no output file and stands in another file's history; only that one does |
| EvidenceRuns.OneRunPassesForTwo | scripts/qualification_gate_summary.py:122-169 | one passing payload in both files makes the newest two runs pass |
| EvidenceRuns.NewestPayloads | scripts/qualification_gate_summary.py:115-169 | when the newest k runs passed, k payloads on file passed, all different unless the latest counts twice |
| QualificationSummary.ConsecutivePasses | scripts/qualification_gate_summary.py:165-169 | the reverse loop counts the passes after the last failure |
| QualificationSummary.SummarizeSuite | scripts/qualification_gate_summary.py:152-207 | the report of a suite, or none when a threshold does not convert |
| QualificationSummary.Round3IsClose | scripts/qualification_gate_summary.py:182 | rounding gives the nearest thousandth of a day, the even one in a tie, so it moves an age by at most 0.0005 |
| QualificationSummary.ThresholdsRead | scripts/qualification_gate_summary.py:153-156 | a suite's minimum is what its policy says but at least one, its age limit and requirement what it says; none when a number does not convert |
| QualificationSummary.ReportSays | scripts/qualification_gate_summary.py:157-207 | what the report says of the runs: exactly the passes after the last failure, the newest run's time, output and outcome, the number of runs, and the newest failure's own reasons |
| QualificationSummary.SuitePassesExactlyWhen | scripts/qualification_gate_summary.py:171-196 | a suite with runs passes exactly when its newest max(1, minimum) runs all passed and the reported age is within the limit; one without, exactly when it is not required |
| QualificationSummary.BuildSummary | scripts/qualification_gate_summary.py:210-239 | one report per suite of the policy or the defaults, and all reasons in order |
| QualificationSummary.PassesExactlyWhenAllDo | scripts/qualification_gate_summary.py:226-239 | there is no reason exactly when every suite passed |
| Promotion.EvaluateModelGovernance | scripts/promotion_gate.py:71-121 | the agent loop collects the specified reasons |
| Promotion.AgentsPass | scripts/promotion_gate.py:101-121 | no agent is objected to exactly when both its routes are empty, allow-listed, or approved and in no blocked stage |
| Promotion.EvaluateQualificationSummary | scripts/promotion_gate.py:124-160 | the summary check collects the specified reasons |
| Promotion.RequiredPass | scripts/promotion_gate.py:150-158 | no suite is objected to exactly when each required one has a passing report |
| Promotion.EvaluatePromotion | scripts/promotion_gate.py:163-209 | the decision, its reasons and its echoed inputs; under `fail_closed` exactly the requests that meet every requirement of the policy are allowed, otherwise all |
| Promotion.NoReasonExactlyWhenClear | scripts/promotion_gate.py:173-196 | there is no reason against a request exactly when, field by field of the policy, some pattern matches the reference (with only texts before it), and status, attestation, signature, governance and qualification are met |
| ReleaseGate.FilesRead | scripts/qualification_gate_summary.py:11-28 | a suite's evidence is read where its policy says, or else, for the four known suites, under their own names |
| ReleaseGate.SameSuites | scripts/promotion_gate.py:128-150 | both scripts read the same suites out of one policy |
| ReleaseGate.GateOpensExactlyWhenAllPass | scripts/promotion_gate.py:124-160 | with a summary built from the same policy the qualification gate opens exactly when every suite of it passed |
| ReleaseGate.PromotedMeansQualified | scripts/promotion_gate.py:163-209 | allowed under `fail_closed` with gates required: each required suite's newest max(1, minimum) runs passed, nothing on file newer than the oldest of them failed, and the newest is at most max_age_days + 0.0005 days old at generation |
| ReleaseGate.PromotedMeansPayloads | scripts/promotion_gate.py:163-209 | under the same conditions as many payloads on file passed as the policy wants passes, all different unless the suite's latest counts twice |
| EnvText.ParseEnvText | apps/mission-control/electron/factory-stack.ts:280-290 | the loop computes the map of each key's last assignment |
| EnvText.UnquotesExactlyWhen | apps/mission-control/electron/factory-stack.ts:280-290 | a value loses its quotes exactly when it has one at either end and no line terminator inside |
| EnvText.ParsedIsFound | apps/mission-control/electron/factory-stack.ts:280-290 | a key is parsed exactly when some line assigns it, to the last such value |
| EnvUpsert.EnvFile.UpsertEnvValues | apps/mission-control/electron/env-generator.ts:150-172 | refuses and leaves the file alone when a key or value is unacceptable, otherwise writes the specified text |
| EnvUpsert.SameKeys | apps/mission-control/electron/env-generator.ts:160-164 | upsert and parser find a valid key on the same lines, although they trim in a different order |
| EnvUpsert.AssignmentParses | apps/mission-control/electron/env-generator.ts:167 | a written line parses to its key and the trimmed and unquoted value |
| EnvLaws.UpsertedKey | apps/mission-control/electron/env-generator.ts:158-171 | key by key: the new value, or the text's last one for keys not updated or assigned twice |
| EnvLaws.UpsertThenParse | apps/mission-control/electron/env-generator.ts:140-172 | parsing the upserted text gives the old map overridden by the values exactly when no updated key is assigned twice with another last value |
| EnvLaws.SecondAssignmentDecides | apps/mission-control/electron/env-generator.ts:160-168 | a text that assigns a key twice breaks the law |
| EnvTwice.OtherLinesUntouched | apps/mission-control/electron/env-generator.ts:160-168 | in the list of lines every line stays byte for byte except the first line of each updated key |
| EnvTwice.TwiceIsOnce | apps/mission-control/electron/env-generator.ts:150-172 | a second upsert changes nothing, exactly unless a text without CRLF ends in a carriage return on a line that is kept, and has a second line or is given one |
| EnvTwice.SecondUpsertRewrites | apps/mission-control/electron/env-generator.ts:157-171 | such a text is rewritten by the second upsert |
| EnvBytes.Rejoined | apps/mission-control/electron/env-generator.ts:157-171 | joining the lines of a text with its newline gives the text back exactly when its line ends are of one kind |
| EnvBytes.UpsertKeepsText | apps/mission-control/electron/env-generator.ts:140-172 | an upsert leaves the whole text byte for byte exactly when it ends in its newline once, has one kind of line end, and for each key to be set some line is its assignment as it would be written, with no line before it assigning that key |
| EnvBytes.EmptyUpsertKeepsText | apps/mission-control/electron/env-generator.ts:140-172 | with no value to set, exactly the line ends decide |
| EnvBytes.MixedEndsRewritten | apps/mission-control/electron/env-generator.ts:157-171 | a text with both kinds of line end is rewritten even when nothing is set |
| BuildTree.IterEntries | scripts/generate_build_map.py:31-37 | the filter loop over the sorted entries |
| BuildTree.ListedProperties | scripts/generate_build_map.py:31-37 | exactly the entries that are not excluded directories, each as often as it occurs, files last and otherwise by lower-case name |
| BuildTree.Build | scripts/generate_build_map.py:40-60 | the recursion appends the specified lines and counts directories and files |
| BuildTree.LineCount | scripts/generate_build_map.py:40-60 | there are exactly as many lines as directories plus files |
| BuildTree.ReadInvertsRender | scripts/generate_build_map.py:46-56 | lines read as a forest exactly when they are its rendering, for any names, and a tree's lines give back nesting, order and names up to an empty directory looking like a file |

## Left out

Assumptions the theorems rest on:

- mkstemp names are never reused, a call's destination is already resolved, no destination is another one's `.bak`, and SHA-256 equality is equality of bytes.
- There is no directory fsync, so nothing is claimed about a returned write surviving a crash, only that the content is old or new.
- The audit stream is not trimmed and its consumer group is not destroyed: the NOGROUP branch recreates the group at entry 0, after which Redis would deliver everything again.
- Redis applies each command atomically, and its clock does not run backwards. Which keys a reset finds while calls come between its SCANs is left open: its DELs are arbitrary sets of guarded keys.
- An S3 listing has distinct keys and at least one page; a resumed migration's store keeps what it is given or nothing.
- UTC isoformat texts are read back by `datetime.fromisoformat` as the instant they were written for; JSON objects have distinct keys.

Not modelled:

- HTTP, Redis, S3 and operating system calls beyond their outcomes; asyncio cancellation, shutdown, logging, and metrics other than the trip counter.
- RSA, HMAC, SHA-256, base64 and PEM text; the signature and the public key are opaque octets, the key one well-formed value.
- Regular expression matching, JSON parsing, `str`, `strip`, `lower`, `int` and `float` of strings: arbitrary functions or inputs. NaN and infinities as JSON numbers are not modelled; ages and limits are real numbers, without floating-point rounding other than `round(x, 3)`.
- The text of dotted identifiers and addresses: `derOid` and the subject alternative names start from the parsed numbers; common names from their UTF-8 octets.
- The rejection branch of `astimezone` near years 1 and 9999, and the decision's `evaluated_at` clock.
- `_post_audit` inside (its retries and signing): only its result is an input of an entry's handling.
- `generateEnvFile` and its secret families, `scan_dict_for_pii`, the command lines of the scripts, and the markdown around the repository tree.
- File names with line breaks inside the joined markdown, and directory trees with link cycles.
- ContextRedaction.AcyclicUnfolds: says nothing of graphs with cycles; those are described position by position by ContextRedaction.ResultByPosition.
