# coredrop, verified

A Dafny model of coredrop, the Kubernetes crash handler: short-lived handler processes on one node
that share a rate-limit file, an object store and a daemon, plus the parsers and the rewriting pass
they use. `dafny verify dfyconfig.toml` checks the whole project.

The environment (kernel, clock, file IO, reader, encoder output, sink, object store, death of a
process) is a parameter everywhere: a schedule, a script or an outcome that the theorems quantify
over. SHA-256 and the Shannon-entropy test are function parameters. Code that changes state in place
is a class or a method with loops, proved equal to a function of the old state; the theorems are about
those functions.

## Layout

| file | what it models | main results |
|---|---|---|
| `RateLimit.dfy` | the limiter's locked sections, in place | methods equal their specification |
| `LimiterRuns.dfy` | any interleaving of checks and refunds | `WindowBound`, `RefinesReference`, `PodsAreIsolated` |
| `Drain.dfy` | the streaming drain, the hashing writer, both backends | `StreamCoreThroughZstd`, `BackendsAgree` |
| `Capture.dfy` | the handler as a step machine over shared state | (definitions) |
| `BlobFirst.dfy` | the object store over all schedules | `ManifestsAlwaysLinked` |
| `StoreWrites.dfy` | what each handler writes over all schedules | `WhatIsPossibleIsWritten` |
| `CaptureRuns.dfy` | reports and budget over all schedules | `ReportsAreTrue`, `BudgetIsConserved`, `FailuresLeaveNoTrace` |
| `LimiterFailures.dfy` | the limiter when its file IO fails | `WindowBoundDespiteFailures`, `LostWritesReachTheBound` |
| `FailOpen.dfy` | handlers whose limiter check failed open | `FailOpenRefund`, `RecordedSlotLost` |
| `StoredCores.dfy` | a pod's cores in the store over all schedules | `StoredCoresWithinBudget`, `RefundedCoresAreUnbounded` |
| `Handler.dfy` | the handler as a sequential program | `Node.Run` refines the step machine |
| `Aggregation.dfy` | the daemon's Event aggregator | `CallsFormBlocks`, `SweepsAreUnobservable` |
| `EventRuns.dfy` | the daemon's stream of reports and ticks | `RecreatedEventNames`, `EventMatchesManifest`, `PatchesCount` |
| `Redact.dfy`, `RedactLaws.dfy` | the redactor | idempotence, framing, independence |
| `RedactKeys.dfy`, `Utf8Laws.dfy` | which keys, flags, values and bytes count | `SecretKeyIff`, `SecretShapeIff`, `ValidIsEncoded` |
| `RedactPasswords.dfy` | which userinfo passwords are replaced | `PasswordRedactedIff` |
| `BuildId.dfy`, `ElfImage.dfy` | the build-id reader and a renderer | `RoundTrip`, `AnswerIff`, `AnswerIsInsideTheBuffer` |
| `Cgroup.dfy` | the cgroup parser and both drivers' layouts | `BothLayoutsParse`, `SubCgroupsDecide` |
| `Keys.dfy` | object keys and Event names | `KeyInjective`, `EventNameInjective` |
| `CorePattern.dfy` | the sysctl guard | `StopPutsBack`, `StopRestores` |
| `Text.dfy` | string operations | helpers |

## Findings

Where the code does not meet a property one might expect of it, the model keeps the code and states
the exact condition.

- A handler whose check failed open still sets its recorded flag, and its refund after a failed drain
  can remove the slot of another handler of the same pod and second. `FailOpenRefund` says exactly
  when (the stored list holds that timestamp), and `RecordedSlotLost` is a run in which it happens.
- "Nothing was stored" after a failed drain is not always so: an upload that fails while it is being
  finalized may have landed. Its slot is refunded all the same, so the cores of one pod in the store
  are not bounded by the budget (`RefundedCoresAreUnbounded`). The bound holds for the cores of
  handlers that still count, and for all cores when no refunded drain left one, as when no drain fails
  after its core has landed (`StoredCoresWithinBudget`).
- A handler killed after its check keeps its slot until it leaves the window, even if it stored
  nothing: `KilledKeepsItsSlot`.
- The full-hour bound needs timestamps in order at the lock; with disorder `d` the window shrinks by
  `d`, and `WindowBoundIsTight` shows for every budget that no longer window works.
  `IsolationNeedsTheClock` gives, for every budget and any disorder, a run in which isolation fails.
- A line of `/proc/<pid>/cgroup` is read from its last colon on. At the level of one path sub-cgroup
  names have no say, as the source's comment promises; at the level of the file a container that may
  name its own sub-cgroups can pass for any other pod and container (`ColonForgesIdentity`) or for
  none (`ColonHidesIdentity`). `SubCgroupsDecide` says exactly when the file yields the true identity.
- With overlapping daemons a clean stop can leave `core` instead of the original although no daemon
  was killed (`OverlapLosesTheOriginal`): `StopPutsBack` gives the if-and-only-if.
- A killed daemon makes the next clean stop leave `core` as the pattern, but its own limit as
  `core_pipe_limit`: `PipeLimitRestoredIff` gives the if-and-only-if.
- An entry that is not valid UTF-8 is not redacted at all (`KeywordRedactedIff`, `StrayByteLeaks`).
- A userinfo password that holds an unencoded `@`, `/`, `?` or `#` is kept in clear in part or in whole
  (`AtSignLeaks`, `DelimiterLeaks`, `AtSignThenDelimiter`). `PasswordRedactedIff` is the exact condition;
  the only such passwords that leave no trace are those that repeat the host and end in the value of a
  keyword parameter (`SwallowedExists`).
- A note segment that ends beyond the part of the file that is read hides the build-id of every later
  segment: `SegmentOutsideHidesAll`, with `AnswerIff` as the exact condition.
- The timestamp keeps re-created Events apart unless two crashes carry the same one although the daemon
  sees them an hour apart: `RecreatedEventNames`, `SameTimestampSameName`.
- Failing limiter IO exceeds the budget by one upload for each check that fails open and by a whole
  budget for each lost write, and by no more: `WindowBoundDespiteFailures`, `LostWritesReachTheBound`.
- The documentation of `handler::run` says that it fails when no store is configured or when writing
  the manifest fails; the code fails only when the drain does. The model follows the code.

## Model

| member | source | states |
|---|---|---|
| `RateLimit.RetainAfter` | src/ratelimit.rs:104-104 | the loop keeps exactly the timestamps after the cutoff, in order |
| `RateLimit.RemoveLast` | src/ratelimit.rs:90-92 | the backward search removes the last equal timestamp and nothing else |
| `RateLimit.WithoutLastAt` | src/ratelimit.rs:90-92 | what is taken out is the last equal timestamp; everything else keeps its place |
| `RateLimit.RateLimiter.constructor` | src/ratelimit.rs:48-53 | a fresh limiter has no recorded uploads |
| `RateLimit.RateLimiter.Retain` | src/ratelimit.rs:103-106 | every pod's list is pruned in place and emptied pods are dropped |
| `RateLimit.RateLimiter.CheckAndRecord` | src/ratelimit.rs:24-117 | decision and whole new state for every budget, state and IO outcome; with a budget and good IO: admitted iff fewer than max entries are younger than 3600 seconds, and the saturated count; fail-open answers Allowed |
| `RateLimit.RateLimiter.Refund` | src/ratelimit.rs:77-98 | whole new state after a refund, for every IO outcome and also for slots that are not there |
| `LimiterRuns.StateAgreesWithHistory` | src/ratelimit.rs:100-117 | for any order of timestamps, past every cutoff used, the pruned list equals the unpruned history of admissions less refunds |
| `LimiterRuns.RefinesReference` | src/ratelimit.rs:87-117 | every decision and reported count equals a scan of the pod's full history by a reference that sees only that pod's calls |
| `LimiterRuns.PodsAreIsolated` | src/ratelimit.rs:266-276 | two-run property: a pod's decisions are those of the run with all other pods' calls deleted |
| `LimiterRuns.IsolationNeedsTheClock` | src/ratelimit.rs:102-106 | for every budget and any disorder at all, another pod's later timestamp gets a crash admitted that is suppressed when the other pod's calls are deleted |
| `LimiterRuns.WindowBound` | src/ratelimit.rs:100-117 | with disorder at most d, every window of 3600-d seconds holds at most max un-refunded admissions of a pod |
| `LimiterRuns.WindowBoundIsTight` | src/ratelimit.rs:102-106 | for every budget max, window start and disorder d, a run within that disorder with max+1 admissions in a window one second longer |
| `LimiterRuns.StoredListsStayWithinBudget` | src/ratelimit.rs:100-117 | for any timestamps and any IO failures no stored list exceeds the budget |
| `LimiterRuns.RefundIsHarmlessIff` | src/ratelimit.rs:77-98 | after any calls, failed IO included, a refund leaves the state file as it was iff the pod's stored list does not hold its timestamp; otherwise it removes one such entry, whoever recorded it, and touches no other pod |
| `LimiterFailures.HistoryIsCovered` | src/ratelimit.rs:63-117 | over any run with any IO failures, the history past every cutoff used is covered by the stored list and at most one extra for each failed check of the pod and max for each lost write |
| `LimiterFailures.WindowBoundDespiteFailures` | src/ratelimit.rs:63-117 | the window bound under any IO failures: max plus one for each check of the pod that failed open plus max for each lost write |
| `LimiterFailures.FailOpenExceedsTheBudget` | src/ratelimit.rs:63-70 | for every budget, kind of failure and k, a full budget and k failed checks give max+k admissions in one second; with an unavailable file that is the bound |
| `LimiterFailures.LostWritesReachTheBound` | src/ratelimit.rs:63-70 | for every budget and n, a run with n lost writes in which the bound is reached |
| `LimiterRuns.UnlimitedRecordsNothing` | src/ratelimit.rs:60-62 | with budget 0 the state file stays untouched over every run |
| `LimiterRuns.BudgetLastsAnHour` | src/ratelimit.rs:24-117 | for every budget: after max admissions at t, a check at now >= t is suppressed, with count max, iff now < t + 3600 |
| `Drain.HashingWriter.constructor` | src/upload.rs:182-186 | nothing hashed or counted yet |
| `Drain.HashingWriter.PollWrite` | src/upload.rs:277-291 | hash and count cover exactly the prefix the sink took, for ready, pending and failed polls |
| `Drain.HashingWriter.PollAll` | src/upload.rs:276-300 | the same over any run of short writes |
| `Drain.Encoder.WriteAll` | src/upload.rs:210-224 | a completed write fed all of its data; the sink took what the polls say |
| `Drain.WriteChunk` | src/upload.rs:208-228 | one turn's write: how far it fills the cap, whether and with which error it stops the loop, and that a stop aborts |
| `Drain.ReadLoop` | src/upload.rs:189-240 | which error stops the loop, if any, and what the sink has taken by then; a stopped loop aborted exactly once; a completed one fed the first min(cap, total) bytes, counted all and has the right reason; the hash always covers what the sink took |
| `Drain.FirstStop` | src/upload.rs:210-224 | the error is that of the first write that happens below the cap and does not succeed |
| `Drain.StopIsFinal` | src/upload.rs:210-224 | nothing after the write that stopped the loop changes the error or the bytes taken |
| `Drain.CompletesIff` | src/upload.rs:189-240 | the loop stops iff some write stops it or a read times out |
| `Drain.StreamCoreThroughZstd` | src/upload.rs:167-268 | for every script: the result with its error kind, the bytes the sink took, size and hash of exactly those, and the whole sink lifecycle (abort once xor shutdown polled once, done iff Ok); with cap 0 a stream below 2^64 bytes is stored whole, otherwise exactly its first max bytes; the reason is `SizeCap` iff the stream is longer and there was no read error |
| `Drain.DrainStandalone` | src/upload.rs:115-130 | the stream's result; Ok iff the stream completed, and then with a hash and a truncation flag that matches its reason; shutdown is polled iff the loop completed |
| `Drain.DrainDiscard` | src/backend.rs:58-99 | counts every byte, stores and hashes nothing; fails iff the deadline fires; a read error, and only that, marks it truncated |
| `Drain.BackendsAgree` | src/backend.rs:58-99 | the two drains of one stream, cut up in any two ways: if storing succeeds so does discarding, with the same count; storing alone fails iff a write stops or the shutdown does not finish; the truncation flags differ iff the cap is exceeded without a read error |
| `Keys.DashNumberInjective` | src/upload.rs:53-53 | text, dash, signed number can be read back |
| `Keys.PrefixInjective` | src/upload.rs:44-55 | the prefix determines cluster, pod, container, timestamp and pid |
| `Keys.KeyInjective` | src/upload.rs:57-73 | no two objects of one or of two captures share a key |
| `Keys.OwnKeysDiffer` | src/upload.rs:57-73 | the three keys of a capture differ whatever its identity looks like |
| `Keys.DecimalReads` | src/upload.rs:53-53 | a formatted number reads back, sign and digits in order |
| `Keys.KeyReads` | src/upload.rs:44-73 | cut at its slashes a key is cluster, pod, container and a file name, spelled out for each kind |
| `Keys.SlashesCollide` | src/upload.rs:53-53 | without slash-free identities two captures can collide |
| `Keys.EventNameInjective` | src/k8s_events.rs:520-522 | an Event name determines pod, reason and timestamp |
| `BlobFirst.StepKeepsInv` | src/handler.rs:199-334 | every step of every handler keeps the blob-first invariant |
| `BlobFirst.OldManifestsStay` | src/upload.rs:83-89 | no later write by anyone can break a stored manifest |
| `BlobFirst.ManifestsAlwaysLinked` | src/handler.rs:199-334 | for any handlers, schedule, put failures and deaths, each stored manifest names a stored core with its hash and size and a stored snapshot; each reported manifest key names the manifest built |
| `StoreWrites.ObjectKeyReads` | src/handler.rs:138-146 | an object goes to its handler's own cluster, pod, container, crash time and pid, in this order |
| `StoreWrites.WhatIsPossibleIsWritten` | src/handler.rs:230-334 | over every schedule, for every handler that finished without a failed drain, suppressed or not: its manifest is in the store iff it had a target, rendered it and the put took effect; its report names it iff the put also succeeded; the same for the snapshot and the manifest's reference to it |
| `CaptureRuns.NextFlags` | src/handler.rs:138-220 | by stage: a failed handler has given back what it recorded, one with another outcome than Uploaded recorded nothing, and a handler counts against the budget iff it recorded and did not refund |
| `CaptureRuns.NextIsHonest` | src/handler.rs:138-192 | flags, backend, drain result, manifest and report stay consistent through every step |
| `CaptureRuns.SentWhenDone` | src/handler.rs:348-367 | a report is sent in the finishing step and only there |
| `CaptureRuns.ReportsAreTrue` | src/handler.rs:138-365 | over every schedule: exactly one report per finished handler, none otherwise; outcome, skip reason `rate_limit`, sizes, truncation and identity agree with the manifest; Failed only after a failed drain; the limiter is called only with identity and store |
| `CaptureRuns.SlotMoves` | src/handler.rs:157-207 | a process gains a slot only by an allowed check and loses it only by its refund |
| `CaptureRuns.HistoryIsBalanced` | src/handler.rs:157-220 | at every moment each pod's recorded-minus-refunded history is, as a multiset, the slots its handlers hold by their stage |
| `CaptureRuns.BudgetIsConserved` | src/handler.rs:157-220 | over every schedule, the state file's entries inside any window to come are, as a multiset, the timestamps of the pod's handlers still draining, drained into the store, or killed while they counted |
| `CaptureRuns.HeldSlotsDecide` | src/handler.rs:157-176 | the next decision, with its count, depends only on the slots held in its window |
| `CaptureRuns.FailuresLeaveNoTrace` | src/handler.rs:202-207 | if every started handler of a pod reported an outcome other than Uploaded, no entry of the pod is left in the window and its next crash is admitted |
| `CaptureRuns.KilledKeepsItsSlot` | src/handler.rs:199-207 | whatever happens later, the entry of a handler killed while it counted stays until it leaves the window |
| `StoredCores.CoresBelongToAdmitted` | src/handler.rs:178-207 | over every schedule, each core object in the store lies under the core key of an admitted handler, and the core of every handler that drained one or reported Uploaded is there |
| `StoredCores.CoresCounted` | src/handler.rs:178-207 | the pod's core objects in the store number exactly those of handlers that still count plus those of refunded handlers |
| `StoredCores.StoredCoresWithinBudget` | src/handler.rs:155-220 | end to end: over every schedule with disorder at most d, of a pod's core objects in the store from crashes within 3600-d seconds at most max belong to handlers that count; the rest were left behind by refunded drains; with none of those the total is at most max, and there are none when no drain of the pod fails after its core landed |
| `StoredCores.NoneLeftBehind` | src/handler.rs:199-207 | over every schedule in which no drain of the pod fails after its core landed, no refunded handler has a core in the store |
| `StoredCores.RefundedCoresAreUnbounded` | src/handler.rs:202-207 | for every budget and every n, a run without limiter errors leaves n cores of one pod from one second in the store |
| `FailOpen.EntriesAreRecorded` | src/ratelimit.rs:100-117 | over every schedule and any IO failures, each entry of the state file was recorded by a handler of that pod and second whose own check reached the file |
| `FailOpen.FailOpenRefund` | src/handler.rs:170-207 | over every schedule, the refund of a handler whose check failed open changes nothing iff the pod's stored list does not hold its timestamp; otherwise it removes one entry that another handler recorded |
| `FailOpen.RecordedSlotLost` | src/handler.rs:170-207 | two crashes of one pod in one second, for every budget: the first is draining with a recorded slot and the state file is empty |
| `Handler.Node.constructor` | src/handler.rs:157-157 | a node starts with an empty limiter, store and inbox |
| `Handler.Node.PutObject` | src/upload.rs:83-89 | a put stores its object, and reports success only if it did |
| `Handler.Node.DrainWith` | src/handler.rs:178-199 | the chosen backend's result, and the core object it leaves in the store, after an error only if the upload was being finalized |
| `Handler.Node.Consult` | src/handler.rs:155-176 | asks the limiter only with identity and store, and sets both flags from its answer, in terms of the entries of the last 3600 seconds |
| `Handler.Node.GiveBack` | src/handler.rs:202-207 | refunds exactly the recorded slot, if there is one: the machine's step after a failed drain |
| `Handler.Node.Fail` | src/handler.rs:202-219 | refund and the failure report, field by field |
| `Handler.Node.UploadSnapshot` | src/handler.rs:230-255 | stores the tar under its own key iff it is rendered and the put takes effect, and refers to it iff the put succeeded |
| `Handler.Node.WriteManifest` | src/handler.rs:288-334 | stores the manifest, for a suppressed core too, iff it is rendered and the put takes effect; every field of its core entry, its snapshot reference and the key to report |
| `Handler.Node.DrainStage` | src/handler.rs:178-201 | drains through the backend the flags call for: result, count and the stored core |
| `Handler.Node.AfterDrain` | src/handler.rs:199-368 | refund and report, or finish |
| `Handler.Node.Finish` | src/handler.rs:230-367 | which small objects are put, and the one report, field by field |
| `Handler.Node.Run` | src/handler.rs:99-368 | the sequential program has the effect of the step machine run alone; in terms of its surroundings: it fails exactly when the drain does, sends one report with the outcome, sizes and manifest key, stores core, snapshot and manifest exactly when it can, and touches no other key |
| `Aggregation.Aggregator.constructor` | src/k8s_events.rs:118-121 | an aggregator starts empty |
| `Aggregation.Aggregator.Prune` | src/k8s_events.rs:159-162 | drops exactly the entries as old as the TTL |
| `Aggregation.Aggregator.Record` | src/k8s_events.rs:174-210 | answer and whole new map for every map, key and clock |
| `Aggregation.Aggregator.HandlePayload` | src/k8s_events.rs:452-515 | which payloads lead to which API call: a CREATE under the name spelled out for its outcome, a PATCH of the open Event with the next count; the others change nothing |
| `Aggregation.Bounded` | src/k8s_events.rs:159-210 | for any clock the map never exceeds its cap and after each operation no entry is as old as the TTL |
| `Aggregation.NothingDroppedBelowCap` | src/k8s_events.rs:189-195 | a capture is dropped only after ten thousand distinct keys |
| `Aggregation.RefinesUnswept` | src/k8s_events.rs:174-210 | every answer equals that of a map that never forgets anything |
| `Aggregation.SweepsAreUnobservable` | src/k8s_events.rs:164-168 | two-run property: deleting (or inserting) sweeps anywhere changes no answer |
| `Aggregation.CallsFormBlocks` | src/k8s_events.rs:180-209 | per key: a CREATE under the name made for that capture exactly when no block is younger than the TTL, else a PATCH of the open block with the next count |
| `Aggregation.CreatesAreApart` | src/k8s_events.rs:28-31 | CREATEs of one key are at least an hour apart |
| `EventRuns.StateIsRun` | src/k8s_events.rs:452-515 | over every stream of reports and ticks the map is that of the run of the operations they lead to |
| `EventRuns.NamesCollideIff` | src/k8s_events.rs:517-522 | over every such stream, two CREATEs carry one name iff their reports agree in pod, reason and crash timestamp |
| `EventRuns.RecreatedEventNames` | src/k8s_events.rs:517-522 | two CREATEs of one key are a TTL apart by the daemon's clock, and carry one name iff their crash timestamps are equal nevertheless |
| `EventRuns.SameTimestampSameName` | src/k8s_events.rs:517-522 | for every payload that targets a pod, a run in which that happens |
| `EventRuns.KeyIff` | src/k8s_events.rs:458-494 | a payload is posted iff its outcome is one of the three and it names a pod by a DNS label of up to 63 characters and a UID of up to 253 |
| `EventRuns.EventForOutcome` | src/k8s_events.rs:64-100 | no call for failed and non-Kubernetes crashes; a CREATE is named coredumped iff the outcome is Uploaded, coredumpsuppressed iff it is SuppressedRateLimit, corediscardednostore iff it is NoStoreDiscard |
| `EventRuns.EventMatchesManifest` | src/handler.rs:336-367 | over every capture schedule, a report leads to a CoreDumped key iff the manifest built has the core, to a CoreDumpSuppressed key iff it was skipped for the rate limit, to a CoreDiscardedNoStore key iff there was a pod but no store |
| `EventRuns.PatchesCount` | src/k8s_events.rs:174-210 | over every stream, a PATCH goes to the Event of the key's last CREATE and counts the captures since then |
| `EventRuns.SecondEventAfterAnHour` | src/k8s_events.rs:28-31 | a second crash gets a second Event iff an hour has passed |
| `EventRuns.FullMapDrops` | src/k8s_events.rs:189-195 | with ten thousand live keys exactly the captures of other keys are dropped |
| `Aggregation.EveryCaptureCountedOnce` | src/k8s_events.rs:180-209 | the blocks' final counts sum to the number of accepted captures |
| `Redact.RedactEnviron` | src/redact.rs:84-97 | the loop frames the rewrite of each non-empty entry; disabled passes through unchanged |
| `Redact.RedactCmdline` | src/redact.rs:105-125 | the same with the lookahead flag |
| `RedactKeys.SecretKeyIff` | src/redact.rs:152-155 | a key is secret iff a keyword stands somewhere in it, up to ASCII case |
| `RedactKeys.NamedValueHidden` | src/redact.rs:127-136 | the value of such a key is `<redacted>` |
| `RedactKeys.EnvironHidesNamed` | src/redact.rs:84-97 | and so it is in the blob |
| `RedactKeys.FlagValueHidden` | src/redact.rs:105-150 | the argument after a flag with a keyword in it, in any case, is `<redacted>` |
| `RedactKeys.FlagAfterFlag` | src/redact.rs:105-125 | the value of a flag is not taken for a flag |
| `RedactKeys.NamedParameterHidden` | src/redact.rs:200-220 | the non-empty value of such a query parameter is `<redacted>` |
| `RedactKeys.UnnamedValueKept` | src/redact.rs:127-141 | without a keyword in the key, a short or not token-like value without a scheme is kept |
| `RedactKeys.SecretShapeIff` | src/redact.rs:223-252 | a value looks secret iff it is a PEM block, or has twenty characters and is three dotted tokens of at least four each or one token of high entropy |
| `Utf8Laws.EncodedIsValid` | src/redact.rs:128-130 | every concatenation of encoded Unicode scalar values passes the UTF-8 test |
| `Utf8Laws.ValidIsEncoded` | src/redact.rs:128-130 | and nothing else does: no overlong forms, surrogates or code points past the last |
| `RedactLaws.EntryIdempotent` | src/redact.rs:127-141 | redacting an entry twice is redacting it once |
| `RedactLaws.EntryKeepsKey` | src/redact.rs:127-141 | the text before the first `=` is never changed; entries without one are untouched |
| `RedactLaws.EntryNoNul` | src/redact.rs:89-95 | a rewrite makes up no separator and is never empty |
| `RedactLaws.UrlIdempotent` | src/redact.rs:161-196 | URL rewriting is idempotent and does not change whether a value looks secret |
| `RedactLaws.TailIdempotent` | src/redact.rs:200-220 | so is query rewriting |
| `RedactLaws.EnvironEntries` | src/redact.rs:84-97 | splitting the output gives the entry-by-entry rewrite of splitting the input |
| `RedactLaws.EnvironIdempotent` | src/redact.rs:84-97 | idempotence on every blob |
| `RedactLaws.CmdlineEntries` | src/redact.rs:105-125 | the same through the lookahead: only a secret flag's argument is replaced whole |
| `RedactLaws.CmdlineIdempotent` | src/redact.rs:105-125 | idempotence on every blob |
| `RedactLaws.PasswordOut` | src/redact.rs:170-176 | a userinfo password is replaced; scheme, user, host and tail are kept |
| `RedactLaws.TokenOut` | src/redact.rs:177-182 | a lone secret-shaped userinfo is replaced |
| `RedactLaws.QueryOut` | src/redact.rs:200-220 | keyword parameters are replaced; path, order, other parameters and fragment are kept |
| `RedactLaws.InnocuousKept` | src/redact.rs:127-141 | a value without a scheme, or a URL without password, token-like userinfo or keyword parameter, is unchanged |
| `RedactLaws.PlainUrlsKept` | src/redact.rs:161-196 | so are URLs without a query, with and without a plain user name |
| `RedactLaws.UrlSecretsHidden` | src/redact.rs:161-196 | two-run property: URL entries that differ in password or token and in any number of keyword parameters at once have equal output |
| `RedactLaws.SecretsHidden` | src/redact.rs:127-141 | two-run property: entries that differ only in a whole secret value or in a URL's secrets have equal output |
| `RedactLaws.KeywordRedactedIff` | src/redact.rs:127-136 | the value of a keyword variable is replaced iff the entry is valid UTF-8 (or was replaced before) |
| `RedactLaws.StrayByteLeaks` | src/redact.rs:128-130 | any entry that ends in the byte 0xFF comes through as it is |
| `RedactPasswords.PasswordRedactedIff` | src/redact.rs:161-220 | for every URL entry: the output is the one with the password replaced iff the password is not empty and holds none of `@`, `/`, `?`, `#`, or is one that the tail's first parameter swallows |
| `RedactPasswords.PasswordAloneDecides` | src/redact.rs:161-220 | so the password alone decides when the tail's first parameter is not a keyword's, for instance without a query |
| `RedactPasswords.TailSwallowsIff` | src/redact.rs:200-220 | exactly which text before a tail leaves no trace in the rewritten tail |
| `RedactPasswords.SwallowedExists` | src/redact.rs:200-220 | such passwords exist for every keyword parameter |
| `RedactPasswords.AtSignLeaks` | src/redact.rs:170-176 | what follows a password's first at-sign is kept in clear |
| `RedactPasswords.DelimiterLeaks` | src/redact.rs:165-176 | a password's text before a slash, question mark or hash is kept in clear when no at-sign precedes it |
| `RedactPasswords.AtSignThenDelimiter` | src/redact.rs:165-176 | the output when an at-sign does precede it |
| `RedactLaws.EnvironHidesSecrets` | src/redact.rs:84-97 | two-run property lifted to blobs |
| `RedactLaws.CmdlineHidesSecrets` | src/redact.rs:105-125 | the same for argv, where a secret flag's argument may be anything |
| `BuildId.HexOf` | src/buildid.rs:148-156 | the loop computes the two-digits-per-byte rendering |
| `BuildId.ScanNotes` | src/buildid.rs:98-119 | the scan terminates and finds the first build-id note |
| `BuildId.BuildIdFromBytes` | src/buildid.rs:39-96 | the header loop, with every early exit |
| `BuildId.AnswerIsInsideTheBuffer` | src/buildid.rs:39-119 | on arbitrary bytes, any answer is the hex of a slice of the buffer |
| `BuildId.LayoutIff` | src/buildid.rs:39-57 | which bytes are taken for an ELF image, of which class and byte order |
| `BuildId.PaddedToFour` | src/buildid.rs:106-116 | names and descriptions are padded to multiples of four |
| `ElfImage.UnhexHex` | src/buildid.rs:148-156 | hex has a left inverse |
| `ElfImage.HexInjective` | src/buildid.rs:148-156 | hex is injective |
| `ElfImage.ReadWritten` | src/buildid.rs:121-146 | reading an integer back, in either byte order |
| `ElfImage.NotesScan` | src/buildid.rs:98-119 | any other notes before and any bytes after the build-id do not matter |
| `ElfImage.GnuNotesOnly` | src/buildid.rs:98-119 | a note is a build-id iff its type is 3 and its name begins with GNU |
| `ElfImage.RoundTrip` | src/buildid.rs:39-119 | for either class and byte order, any other program headers (note segments without a build-id and their notes included), any other notes and any unused bytes, parsing the rendered image gives the descriptor's hex |
| `ElfImage.AnswerIff` | src/buildid.rs:73-96 | on arbitrary bytes: the answer is that of the first note segment with a build-id all of whose predecessors are passed over, and there is one iff there is such a segment |
| `ElfImage.SegmentOutsideHidesAll` | src/buildid.rs:91-91 | an earlier note segment that is not wholly in the buffer makes the answer `None` whatever follows |
| `ElfImage.MinimalRoundTrip` | src/buildid.rs:247-254 | the smallest images, for every descriptor up to 2 GiB, are among those the round trip covers |
| `ElfImage.MinimalIsElf` | src/buildid.rs:247-254 | the bytes of the smallest images: magic, a program header of type 4, a note of type 3 named GNU, the descriptor |
| `Cgroup.ParsedIdentityIsSlashFree` | src/cgroup.rs:33-90 | on arbitrary text, a parsed identity has a valid UID and a slash-free hex id |
| `Cgroup.ParsedKeysAreInjective` | src/cgroup.rs:33-90 | so object keys of parsed identities never collide |
| `Cgroup.BothLayoutsParse` | src/cgroup.rs:7-20 | for every QoS class, runtime and sub-cgroup path, both drivers' paths parse to the same identity |
| `Cgroup.PodNameIff` | src/cgroup.rs:52-80 | which directories below are pods: up to 253 of the UID's characters, underscores read as dashes |
| `Cgroup.TwelveDigits` | src/cgroup.rs:82-95 | hex digits below a pod are its container iff there are at least twelve |
| `Cgroup.FirstLine` | src/cgroup.rs:33-38 | lines are tried in order and the first identity wins |
| `Cgroup.CarriageReturnDropped` | src/cgroup.rs:33-38 | a carriage return before a line feed is not part of the line |
| `Cgroup.LastCarriageReturnKept` | src/cgroup.rs:33-38 | one at the end of the text is |
| `Cgroup.LineIsReadFromLastColon` | src/cgroup.rs:35-35 | what a line gives, exactly, with and without colons in the path |
| `Cgroup.SubCgroupsDecide` | src/cgroup.rs:16-50 | for every driver, QoS class, runtime, identity and list of sub-cgroups: what the whole file yields, and that a one-line file yields the true identity iff no sub-cgroup's name holds a colon or the segments after the last one spell that identity |
| `Cgroup.LinesParse` | src/cgroup.rs:33-50 | whole files of either layout parse to the identity when no sub-cgroup's name holds a colon |
| `Cgroup.PathAfterLastColon` | src/cgroup.rs:35-35 | which segments of a path are read, in terms of its segments |
| `Cgroup.ColonForgesIdentity` | src/cgroup.rs:17-36 | for all identities: sub-cgroups `name:`, `pod<uid'>`, `<cid'>` make the file yield the other identity although the path yields the true one |
| `Cgroup.ColonHidesIdentity` | src/cgroup.rs:35-36 | a sub-cgroup `a:b` makes a one-line file yield no identity |
| `CorePattern.CorePatternGuard.constructor` | src/core_pattern.rs:80-85 | the guard remembers what it is given |
| `CorePattern.CorePatternGuard.InstallAt` | src/core_pattern.rs:55-86 | which values are saved and written for every IO outcome; nothing is written unless the pattern was read |
| `CorePattern.CorePatternGuard.Restore` | src/core_pattern.rs:88-97 | both values are written back; an empty saved limit is not |
| `CorePattern.PatternReads` | src/core_pattern.rs:31-36 | the words of the pattern: handler, capture, pid, signal, time, executable |
| `CorePattern.OwnPatternIsRecognized` | src/core_pattern.rs:63-71 | our pattern, with any white space after it, is saved as `core` |
| `CorePattern.OtherPatternsAreKept` | src/core_pattern.rs:60-71 | any pattern that does not begin with ours is saved as it is |
| `CorePattern.GuardsRemember` | src/core_pattern.rs:55-86 | in any history each live guard holds what the files held just before its own install |
| `CorePattern.StopPutsBack` | src/core_pattern.rs:63-97 | after any history of installs, stops and kills, in any overlap: a stop never leaves our pattern, leaves the original or `core`, and leaves the original iff the file still held it (and it was not ours) at the stopping daemon's install, or it was `core`; the pipe limit goes back to what was found |
| `CorePattern.StopRestores` | src/core_pattern.rs:55-97 | when daemons do not overlap, in terms of kills: the exact original, or `core` iff some daemon was killed before |
| `CorePattern.PipeLimitRestoredIff` | src/core_pattern.rs:72-97 | exactly when a stop restores the original pipe limit |
| `CorePattern.OverlapLosesTheOriginal` | src/core_pattern.rs:66-71 | two overlapping daemons lose any original without a kill |

## Left out

- Integer widths: timestamps, byte counts, event counts and ELF offsets are mathematical integers; only the `u32` saturation of the limiter's count and the `u64` cap are modelled.
- File locking, permissions and JSON: a locked section is one atomic step; a failure after the file was truncated is modelled as an empty state.
- zstd, SHA-256, `BufWriter` internals and object-path normalisation: the encoder's output and the sink's answers come from the script, the hash is a function parameter.
- The deadline as a clock: a script may let it fire at any await, also where a real timer would not.
- The Shannon-entropy test is a function parameter of the redactor.
- Unicode white space beyond ASCII when trimming the pattern.
- The default keyword list: the theorems hold for every list of keywords, those about letter case for every list without lower-case letters, as the default one is.
- crictl enrichment and the human-readable manifest fields: passed through unchanged by the source.
- `crictl.rs`, `snapshot.rs`, `config.rs`, `health.rs`, `main.rs`, the socket and HTTP code: wiring, subprocesses and network.
- Conservation of the budget as an equation under failed limiter IO: `BudgetIsConserved` is about runs whose limiter IO succeeds; for the others `WindowBoundDespiteFailures` bounds the difference and `EntriesAreRecorded` says whose the entries are.
- A carriage return at the end of a sub-cgroup's name: `SubCgroupsDecide` excludes it, `CarriageReturnDropped` says what becomes of it.
- Signal names, timestamp formatting, the Event body, the store-option allowlist and store URL dispatch: tables and formatting without state.
