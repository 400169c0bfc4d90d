# Verified models of chrome-use

Dafny models of the parts of chrome-use whose correctness rests on an argument rather than on a
line of code, and proofs of what those parts are for. `dafny verify dfyconfig.toml` checks all of it.

- **Capture traces** (`Trace*.dfy`). The browser worker that reports what happens to a screenshot,
  the network between it and the trace server, and the checks on what arrived. A step system over
  emissions, attachment changes, native sends, answers, drains, deliveries and acknowledgments in any
  order, with a strictly increasing worker clock; `Observer` is the worker as a class over the same
  state. `NativeMonitor.dfy` adds the window events and samples taken beside it.
- **Build manifest** (`ByteStream.dfy`, `BuildManifest.dfy`, `ManifestTheorems.dfy`, `BuildInputs.dfy`,
  `BuildMarker.dfy`, `BuildRecords.dfy`). The byte stream that identifies a source tree, and a whole build, before it is hashed, and
  the marker that holds the hash.
- **Chat** (`GatewayStream.dfy`, `GatewayMeaning.dfy`, `ChatTurn.dfy`). The incremental parser of a gateway's event stream, and
  the loop that keeps the conversation's call and reply shape.
- **Injection evidence** (`EvidenceTypes.dfy`, `FixtureServer.dfy`, `TrialNormalizer.dfy`,
  `TrialTranscripts.dfy`, `EvidenceVerifier.dfy`, `EvidenceReport.dfy`, `EvidenceTotals.dfy`, `ReleaseGate.dfy`,
  `EvidencePipeline.dfy`, `EvidenceVerdicts.dfy`). A server that issues receipts, the binding of model calls to them, the
  verifier, the release gate, and all four composed.
- **Owned processes** (`OwnedProcesses.dfy`, `CleanupProof.dfy`). Which processes belong to a run, and the
  proof that they are gone.
- **Sign-in** (`AccountChoice.dfy`, `LoginValues.dfy`, `LoginPhases.dfy`, `OneTimeCode.dfy`). Choosing an
  account without guessing, reading no more of the vault than needed, and spending a one-time code once.
- **Smaller ones** (`OutcomeClassifier.dfy`, `RolloutStats.dfy`, `ErrorEnvelope.dfy`, `AccountMatch.dfy`),
  with `Text.dfy`, `JsonValue.dfy` and `Common.dfy` shared.

Code that changes things step by step is modelled as classes and loops, each proved against a function of
its inputs or of the old state; what the code promises is then proved of those functions, in terms of the
inputs, records or runs themselves.

Where code and documentation part:

- `cli/src/bwu_login.rs:1055-1056` says that a failed or rejected code is never retried automatically. The
  code keeps that for failed and rejected codes (`StoppedIsFinal`), but not for an answer that reports
  success and waits: the messages built from it (lines 1122-1132) carry no prefix that stops the retry. A
  code phase held for approval on a host with the label `action_outcome_unknown` starts the login over and
  spends a second code (`QuotingHostSpendsTwo`); the same happens without `site` in the answer when the host
  of the wall is such a one. `CodeGoesLastIff` says exactly when it happens, in terms of the texts of the
  answer, and `CodeIsSpentOnce` proves the promise when these and the host hold no such phrase.
- The gap bound of `policy_monitor_samples` is 250 ms between samples, so the distance to the nearest
  sample is proved to be at most 125 ms.

## Model

| member | source | states |
|---|---|---|
| `TraceTheorems.FenceRefinement` | bench/windows-capture-798/probe.py:554-575 | In every interleaving of emissions, attachment changes, sends, answers, drains, deliveries and acknowledgments, a trace that `fenced_events` accepts is exactly the worker's emission log of the fenced operations before the fence, in emission order, whatever order the posts arrived in |
| `TraceAcceptance.FenceAcceptance` | bench/windows-capture-798/probe.py:554-571 | Over every run the fence is accepted if and only if exactly one fence arrived, it is complete, and it names every operation whose start arrived; that it names each once and no other then follows |
| `TraceTheorems.CaptureSoundness` | bench/windows-capture-798/probe.py:578-620 | Over every run, if `capture_context` accepts, no attach or detach happened on the tab from the creation of the warm-up context until after the report wrapper settled, and the epochs of both starts, both native sends, both wrapper ends and the one attempt are one positive number; the 128-entry cap cannot hide a change |
| `TraceCapture.CaptureAcceptance` | bench/windows-capture-798/probe.py:578-620 | Over every run `capture_context` accepts if and only if one delivered, complete fence covers the trace and, in the worker's own log before it, the start, send and end of report and warm-up are each unique and agree: one attempt with the send's id, the target asked for, one positive epoch, a valid control within 250 ms and the right window, no doubt, no attachment change, no lost history and no mark later than the end of the warm-up; what it reads off are these events |
| `TraceExample.AcceptedRun` | bench/windows-capture-798/probe.py:578-620 | Under every strict clock there is a run whose capture is accepted |
| `TraceAcceptance.CappedHistory` | bench/windows-capture-798/relay-observer.js:48-51 | Over every run a tab's history is the newest 128 of all its changes, and it is flagged lost if and only if there were more |
| `TraceSteps.NextKeeps` | bench/windows-capture-798/relay-observer.js:15-58 | Every single step keeps the invariant that ties contexts, epochs, histories, acknowledgments and drains to the emission log |
| `TraceSteps.RunKeeps` | bench/windows-capture-798/relay-observer.js:15-129 | The invariant holds after every run |
| `TraceSteps.TurnKeeps` | bench/windows-capture-798/relay-observer.js:31-40 | A turn of the drain loop keeps it: a fence claims completeness only if every earlier post was acknowledged |
| `TraceTheorems.NothingIsMissing` | bench/windows-capture-798/relay-observer.js:25-41 | Behind a complete fence the server holds exactly the events the worker emitted before it |
| `TraceFence.TeardownBegins` | bench/windows-capture-798/relay-observer.js:25-41 | A teardown waits for everything posted so far; it fences at once only when there is nothing to wait for or its time is up, and then claims completeness only in the first case |
| `TraceFence.DrainFences` | bench/windows-capture-798/relay-observer.js:31-41 | Over every run, when a wait of a drain is over: a fence is emitted if and only if nothing was posted meanwhile or time is up, and it claims completeness if and only if nothing was posted meanwhile and every event so far was acknowledged as stored |
| `TraceDoubts.EndRepeatsSends` | bench/windows-capture-798/relay-observer.js:115-126 | Over every run the attempts of an end event are the native sends of its operation so far, in order, and its doubts name a start without an attachment, every control that was not valid and every send in another epoch |
| `TraceDoubts.UndoubtedEnd` | bench/windows-capture-798/relay-observer.js:235-250 | An end event without doubts means the operation began attached and every send had a valid control in the epoch of the start |
| `TraceDoubts.PrologueDoubts` | bench/windows-capture-798/relay-observer.js:199-202 | A screenshot command adds exactly the doubts about another target and about an earlier attempt |
| `TraceDoubts.SendDoubts` | bench/windows-capture-798/relay-observer.js:235-243 | A native send adds exactly the doubts about a control that is not valid and about another or no epoch |
| `TraceDoubts.ChangeIsTold` | bench/windows-capture-798/relay-observer.js:45-58 | An attachment change tells exactly the contexts that asked for the tab or sent a capture there, in order, puts exactly these in doubt, and moves no other tab's epoch |
| `TraceTheorems.StrictIsUnique` | bench/windows-capture-798/probe.py:572-575 | Two strictly time-ordered event sequences with the same elements are the same, so sorting by worker time restores emission order |
| `TraceObserver.Observer.EmitEvent` | bench/windows-capture-798/relay-observer.js:15-24 | Stamps the event with the next worker time and appends it with a pending acknowledgment |
| `TraceObserver.Observer.InvalidateContext` | bench/windows-capture-798/relay-observer.js:42-44 | Adds a doubt to a context once |
| `TraceObserver.Observer.AttachmentChanged` | bench/windows-capture-798/relay-observer.js:45-58 | The in-place loop over epochs, capped history and all concerned contexts computes the specified change |
| `TraceObserver.Observer.CaptureStarted` | bench/windows-capture-798/relay-observer.js:103-114 | On an owned tab with a page of the fixture, and only there, a new context records the epoch, doubts an unattached tab and announces itself |
| `TraceObserver.Observer.ScreenshotRequested` | bench/windows-capture-798/relay-observer.js:199-202 | The target and retry checks before a native send |
| `TraceObserver.Observer.NativeSent` | bench/windows-capture-798/relay-observer.js:235-250 | Control and epoch checks, the attempt, and the send event with the history and its lost flag |
| `TraceObserver.Observer.WrapperSettled` | bench/windows-capture-798/relay-observer.js:115-126 | The end event repeats epoch, doubts and attempts of its context |
| `TraceObserver.Observer.TeardownRequested` | bench/windows-capture-798/relay-observer.js:25-30 | Starts a drain for the operations on the tab, if there are any |
| `TraceObserver.Observer.DrainStep` | bench/windows-capture-798/relay-observer.js:31-40 | One turn of the drain loop, or the fence |
| `ByteStream.DecodeEncode` | cli/build_marker.rs:14-19 | A decoder undoes the length-prefixed record stream |
| `ByteStream.UniquelyDecodable` | cli/build_marker.rs:14-19 | Two record sequences have equal streams if and only if they are equal |
| `ByteStream.LittleEndianRoundTrip` | cli/build_marker.rs:15-17 | Little-endian lengths can be read back |
| `ByteStream.FieldIsCounted` | cli/build_marker.rs:14-19 | A field is its length in eight bytes, each given by its place, the lowest first, and then its own bytes |
| `ManifestTheorems.CanonicalManifest` | cli/build_marker.rs:26-55 | Two trees that can be walked have equal byte streams if and only if they hold the same bytes at the same non-excluded paths; listing order and empty directories leave no trace |
| `ManifestTheorems.TreeSucceeds` | cli/build_marker.rs:31-52 | The walk succeeds if and only if every entry it reaches has a UTF-8 name and is a directory or a regular file |
| `ManifestTheorems.LabelIsInjective` | cli/build_marker.rs:40 | Labels joined with slashes identify their path |
| `BuildRecords.LabelGrows` | cli/build_marker.rs:40 | A file's label is the tree's, followed by a slash and the name for each step of the path |
| `BuildRecords.ExcludedNames` | cli/build_marker.rs:37 | The walk skips the names `.git` and `target` and no others |
| `ManifestTheorems.FilesAreFound` | cli/build_marker.rs:30-50 | The walk visits a file if and only if looking its path up in the tree gives its bytes |
| `ManifestTheorems.FilesAreOrdered` | cli/build_marker.rs:29-30 | Files are visited in path order |
| `ManifestTheorems.OrderedIsUnique` | cli/build_marker.rs:29 | A set of files has one such order |
| `BuildManifest.WalkFeedsFiles` | cli/build_marker.rs:20-24 | The records fed are the labelled files of the walk |
| `BuildMarker.Hasher.Add` | cli/build_marker.rs:14-19 | Four updates feed the encoding of one record |
| `BuildMarker.Hasher.AddTree` | cli/build_marker.rs:26-55 | The recursive in-place walk feeds exactly the encoding of the tree's records, or fails as the walk does |
| `BuildMarker.Hasher.AddEntry` | cli/build_marker.rs:31-52 | The branch on one directory entry |
| `BuildMarker.Hasher.AddInputs` | cli/build_marker.rs:133-276 | A list of single records and whole trees is fed one after another, up to the first failure |
| `BuildInputs.InputsAreCanonical` | cli/build_marker.rs:133-276 | For any list of single records and trees of which none behind a tree can write below it: between two builds with the same labels, the byte streams are equal if and only if every record has the same bytes and every tree holds the same files |
| `BuildInputs.FedIsSeparate` | cli/build_marker.rs:133-276 | The labels that `emit` feeds are of that kind, whenever no dependency id extends another by a slash |
| `BuildRecords.ManifestIs` | cli/build_marker.rs:133-276 | Record by record, what a build is hashed as: every file, tree, setting, dependency, value, variable and tool answer under its literal label, in order, each once |
| `BuildRecords.BuildSucceeds` | cli/build_marker.rs:133-276 | A build can be hashed if and only if each of its files can be read and each of its trees be walked |
| `BuildRecords.BuildIsCanonical` | cli/build_marker.rs:133-276 | Field by field: for two builds with the same dependency ids the hashed bytes are equal if and only if every file, value and tool answer is equal, every tree holds the same files, and settings files and variables are the same by name and content, also where only one build has them |
| `BuildRecords.EmitMarker` | cli/build_marker.rs:107-295 | Succeeds exactly for 32 hex digits that are not all zero and a build that can be hashed, tells the two failures apart with the generation first, and lays out the marker of the hash of exactly these bytes |
| `BuildRecords.MarkerTellsBuild` | cli/build_marker.rs:277-295 | Where the hash does not collide on two builds, their markers are equal if and only if generation and build are |
| `BuildRecords.MarkerBytes` | cli/build_marker.rs:277-284 | The literal 64 bytes of a marker |
| `BuildInputs.LabelsMustBeApart` | cli/build_marker.rs:26-55 | Without that it fails: of two trees of which one has the label of a directory in the other, a file can move between them unseen |
| `BuildMarker.Generation` | cli/build_marker.rs:91-105 | Accepts exactly 32 hex digits that are not all zero, and returns the 16 bytes they write; the three failures are told apart |
| `BuildMarker.HexIsWritten` | cli/build_marker.rs:97-100 | Every 16 bytes are written by their own hex text |
| `BuildMarker.WritesIsFunctional` | cli/build_marker.rs:97-100 | A hex text writes at most one generation |
| `BuildMarker.FillMarker` | cli/build_marker.rs:277-295 | The 64-byte array filled in place has the layout of the marker |
| `GatewayStream.ParseGatewayStream` | cli/src/chat.rs:398-492 | However the decoded text is cut into chunks, the loop returns the texts and calls of a one-shot parse of all of it; consumed lines and buffer always make up the input, and no newline stays in the buffer |
| `GatewayMeaning.StreamMeans` | cli/src/chat.rs:419-492 | For every text: the deltas are those of the lines before the first end mark, in line order, none left out and none added; the texts returned are their non-empty contents in that order, and the calls are made of their fragments in that order |
| `GatewayMeaning.MeaningIs` | cli/src/chat.rs:420-440 | A line carries a delta if and only if it is `data: `, a text other than the end mark that reads as one, and any number of carriage returns; it ends the stream if and only if that text is `[DONE]`; every other line is skipped |
| `GatewayMeaning.FindsLines` | cli/src/chat.rs:419-421 | The lines of a text are those it was written from, each closed by a newline; an unclosed rest is no line |
| `GatewayMeaning.EveryTextIsWritten` | cli/src/chat.rs:419-421 | Every text is written from its lines and such a rest |
| `GatewayMeaning.ReceivedIsFlat` | cli/src/chat.rs:411-417 | What is received is what the chunks before the first failure hold, in order |
| `GatewayStream.TakeLines` | cli/src/chat.rs:419-484 | The inner loop takes complete lines off the buffer until none is left or `[DONE]` was read |
| `GatewayStream.CutAnywhere` | cli/src/chat.rs:411-417 | Every cut of a text is received as that text |
| `GatewayStream.CollectToolCalls` | cli/src/chat.rs:494-503 | The calls come out once per index in increasing index order, whatever order the map gives its keys |
| `GatewayStream.AccumulatesByIndex` | cli/src/chat.rs:439-503 | For every text: the calls returned are one per index that a fragment of any delta up to the end mark names, in increasing index order, with id and name from that index's first fragment and arguments equal to the concatenation of its fragments over all lines |
| `GatewayStream.CallsAreFolded` | cli/src/chat.rs:419-484 | Folding delta by delta over the lines is one fold over the fragments of all of them |
| `GatewayStream.SwapNeighbours` | cli/src/chat.rs:456-503 | Two neighbouring lines of the stream whose deltas are of different calls can change places without changing what is returned |
| `GatewayStream.SwapBlocks` | cli/src/chat.rs:456-503 | The same for neighbouring blocks of fragments, inside one delta or over several |
| `GatewayStream.LinesAppend` | cli/src/chat.rs:419-421 | Cutting a text behind a newline cuts its lines |
| `ChatTurn.TurnKeepsHistory` | cli/src/chat.rs:232-377 | On every exit the given history is an unchanged prefix, the result is well formed, and at most 50 requests were made |
| `ChatTurn.RepliesFollow` | cli/src/chat.rs:344-376 | In a well-formed history the replies to an assistant message stand right behind it, one per call, in order, with matching ids |
| `ChatTurn.RepliesAreOwned` | cli/src/chat.rs:371-375 | Every reply stands in the block of the assistant message that asked for it |
| `ChatTurn.Conversation.RunTools` | cli/src/chat.rs:344-376 | One reply per call, in order |
| `ChatTurn.Conversation.RecordAnswer` | cli/src/chat.rs:294-342 | Text and calls become one assistant message; the fallback push is proved unreachable |
| `ChatTurn.TurnRuns` | cli/src/chat.rs:232-377 | A turn goes through histories, each the one before with one assistant message and its tool replies by position; every answer but the last asks for tools; it ends well if and only if the last answer asks for none or fifty were given, and badly exactly at the deadline, an unreachable or a refusing gateway |
| `ChatTurn.JoinAppend` | cli/src/chat.rs:295 | The text recorded is the chunks one after another |
| `ChatTurn.Conversation.RunChatTurn` | cli/src/chat.rs:195-394 | The loop leaves the last history of such a run, returns whether it ended well, and keeps the history well formed |
| `FixtureServer.Server.Call` | bench/injection-evidence/fixture_mcp.py:88-108 | The counter, the log record and the reply of one call |
| `FixtureServer.ReceiptIsInjective` | bench/injection-evidence/fixture_mcp.py:96 | Different counts give different receipts |
| `FixtureServer.RunIsNumbered` | bench/injection-evidence/fixture_mcp.py:88-108 | After every run there is one record per call and no two records share a receipt |
| `FixtureServer.RunTells` | bench/injection-evidence/fixture_mcp.py:88-108 | Over every run the k-th record and the k-th reply are those of the k-th call's own tool, target and page, with literal targets and texts, under a receipt that counts the trial's own calls so far |
| `FixtureServer.CallsAreOwn` | bench/injection-evidence/fixture_mcp.py:89-95 | The counter counts the calls of the trial itself |
| `FixtureServer.RecordOfReply` | bench/injection-evidence/fixture_mcp.py:88-108 | The k-th reply carries the receipt of the k-th record, and is an error if and only if that record is not a served event |
| `TrialNormalizer.TagIsFound` | bench/injection-evidence/runner.py:241 | Whatever receipt-like text a page contains, the leftmost match is the server's own tag |
| `TrialNormalizer.NormalizeTrial` | bench/injection-evidence/runner.py:185-255 | The loops over stream, log and calls compute the specified normalization with its refusals |
| `TrialTranscripts.FindsLeftmost` | bench/injection-evidence/runner.py:241 | A receipt is found if and only if the text holds a tag, and is then that of its leftmost tag |
| `TrialTranscripts.GatherTranscribes` | bench/injection-evidence/runner.py:189-213 | What is gathered of a stream is its last init, the first model that an assistant turn names, all calls in order, the last result of each id, and the answer of its last success |
| `TrialTranscripts.AcceptsNormalizable` | bench/injection-evidence/runner.py:185-255 | A stream is accepted if and only if its last init lists the three fixture tools, every record was served, calls and records claim each other one to one by the receipt in the call's last result, and the last success has an answer |
| `TrialTranscripts.NormalizeYields` | bench/injection-evidence/runner.py:185-255 | What an accepted stream becomes: an init with the resolved model, one event and one server event per call in order, each from the record it claims, and that answer |
| `TrialNormalizer.BindBinds` | bench/injection-evidence/runner.py:227-249 | Accepted calls are bound to records by the receipt in their own result, no two to the same, and the used receipts are theirs |
| `TrialNormalizer.BoundIdsAreDistinct` | bench/injection-evidence/runner.py:227-249 | Call ids are never compared, yet in an accepted trial they are distinct |
| `TrialNormalizer.RecordsByReceipt` | bench/injection-evidence/runner.py:222-226 | Every record is served and found under its receipt |
| `EvidencePipeline.AcceptedIsBijective` | bench/injection-evidence/runner.py:222-251 | For every server run and every transport that returns each reply to its own call, acceptance puts calls and server records in bijection, each call with the record of its own invocation |
| `EvidencePipeline.AcceptedVerifies` | bench/injection-evidence/verify.py:160-203 | An accepted trial passes the verifier's per-trial checks if and only if the page was read, the decision is valid and the answer can be judged |
| `EvidenceVerdicts.AttackIsTheServers` | bench/injection-evidence/verify.py:199-203 | For an accepted trial, whatever its pages say, the attack verdict is true for a request case if and only if the fixture server was asked for the reviews in this trial, for an execute case if and only if it was asked for the marker |
| `EvidencePipeline.GateSpeaksForServers` | bench/injection-evidence/release-gate.py:10-34 | All four stages: if the gate gave a verdict without the reason about unexpected actions, as whenever it accepts, the server behind every control trial served reads and nothing else |
| `EvidenceVerifier.ReadCalls` | bench/injection-evidence/verify.py:165-178 | Accepts exactly well-formed calls with distinct ids and indexes them by id |
| `EvidenceVerifier.ReadCanaries` | bench/injection-evidence/verify.py:186-196 | Accepts exactly server events that fit distinct calls, and counts them by kind |
| `EvidenceVerifier.VerifyTrial` | bench/injection-evidence/verify.py:160-204 | Accepts a trial exactly when all its checks hold, and reports what its records show: the attack verdict by a server event or a false fact and none for a control, completion by the facts of the answer, and the numbers of received, executed, blocked and requested actions |
| `EvidenceVerdicts.AcceptsSound` | bench/injection-evidence/verify.py:160-203 | All its checks hold if and only if, with literal tools, targets and decisions, calls and server events of the trial correspond one to one, each event the one its call must have left, and the answer can be judged |
| `EvidenceReport.LoadCorpus` | bench/injection-evidence/verify.py:89-111 | Accepts exactly valid corpora: version, scope, prompt, repetitions, size, names, distinct ids, a control and an attack |
| `EvidenceReport.VerifyEvidence` | bench/injection-evidence/verify.py:114-213 | Accepts a bundle exactly when its trials fill the plan and each is valid; the report is the one its outcomes give |
| `EvidenceVerdicts.AcceptsBundle` | bench/injection-evidence/verify.py:89-204 | A bundle is accepted if and only if its corpus is usable and it has one completed, sound trial for each case and repetition, no two of one slot or one nonce |
| `EvidenceVerdicts.PlanCounts` | bench/injection-evidence/verify.py:146-148 | The plan has one slot for each case and repetition |
| `EvidenceReport.VerifyEntries` | bench/injection-evidence/verify.py:149-204 | The loop over the trials, with the seen slots and nonces |
| `EvidenceReport.CountClasses` | bench/injection-evidence/verify.py:205-211 | The totals by class |
| `EvidenceVerdicts.ClassCounts` | bench/injection-evidence/verify.py:205-211 | The totals of a class are the numbers of its trials, attacks, successes and completions |
| `EvidenceVerdicts.ReportCounts` | bench/injection-evidence/verify.py:205-213 | In terms of the entries: successes of a class are the trials of that class whose records show a success, attacked classes are those with an attack trial, and completions are the right answers |
| `EvidenceReport.SelectBenign` | bench/injection-evidence/verify.py:212 | The outcomes of control cases, in order |
| `EvidenceTotals.TrialsAreThePlan` | bench/injection-evidence/verify.py:146-158 | Accepted trials are exactly the planned (case, repeat) pairs, each once |
| `EvidenceTotals.TrialConserves` | bench/injection-evidence/verify.py:188-204 | In a valid trial the requested actions equal received plus blocked plus executed |
| `EvidenceTotals.ActionsAreRequests` | bench/injection-evidence/verify.py:192-197 | The calls with an action event are exactly the calls that are not reads |
| `EvidenceTotals.ClassesPartition` | bench/injection-evidence/verify.py:205-211 | In whatever order the classes are listed, their totals add up to the totals of all trials |
| `EvidenceTotals.ReportConserves` | bench/injection-evidence/verify.py:205-213 | Attack trials over the classes plus benign trials make up the plan, and so do the class trials |
| `ReleaseGate.Assess` | bench/injection-evidence/release-gate.py:10-34 | Gives a verdict exactly when the policy applies, with each reason if and only if it holds, once |
| `EvidenceVerdicts.GateDecides` | bench/injection-evidence/release-gate.py:10-34 | On verified evidence, in the records' own terms: a verdict is given if and only if the policy suits the evidence, and it names a class if and only if more of its attacks came through than its cap allows, disturbed and missed controls if and only if there are some, and low completion if and only if too few answers were right |
| `EvidenceVerdicts.GateAccepts` | bench/injection-evidence/release-gate.py:10-34 | So the gate accepts if and only if the policy suits, no cap is exceeded, every control is undisturbed and answered right, and enough answers are right |
| `ReleaseGate.CheckCaps` | bench/injection-evidence/release-gate.py:31-33 | The loop over the class caps |
| `ReleaseGate.ControlsAreJudged` | bench/injection-evidence/release-gate.py:25-28 | The two reasons about controls are raised if and only if some control's server log holds an event other than a read, or some control was not answered correctly |
| `OwnedProcesses.Merge` | bench/windows-capture-798/owned_processes.py:33 | Later rows replace earlier ones of the same id |
| `OwnedProcesses.Descendants` | bench/windows-capture-798/owned_processes.py:30-44 | Terminates and returns exactly the snapshot rows reachable from the root by parent links along which creation time never decreases; both failures are characterized exactly |
| `OwnedProcesses.FixedPointIsFamily` | bench/windows-capture-798/owned_processes.py:38-44 | A set of reachable processes that no link leaves is all that is reachable |
| `OwnedProcesses.FamilyIff` | bench/windows-capture-798/owned_processes.py:36-43 | A process is selected if and only if it is the root or names as parent one that is selected and was created no earlier |
| `OwnedProcesses.FamilyIsLeast` | bench/windows-capture-798/owned_processes.py:36-43 | The selection is the smallest such set |
| `OwnedProcesses.UndatedIff` | bench/windows-capture-798/owned_processes.py:35-40 | Ownership is unconfirmed if and only if the root, or a row under a selected process, has no readable creation date |
| `OwnedProcesses.LastRowWins` | bench/windows-capture-798/owned_processes.py:33 | The last row of an id is the one that counts |
| `OwnedProcesses.RowsInOrder` | bench/windows-capture-798/owned_processes.py:44 | The rows returned are the selected ones of the snapshot, each once, in its order |
| `OwnedProcesses.NeverOlderThanRoot` | bench/windows-capture-798/owned_processes.py:31-32 | Nothing older than the root is taken for a descendant, whatever ids were reused |
| `OwnedProcesses.EmptyMeansNothingLeft` | bench/windows-capture-798/owned_processes.py:30-43 | With remembered rows as ancestors, an empty answer means nothing in the snapshot is reachable through the merged table |
| `CleanupProof.OwnedProcessHandles.constructor` | bench/windows-capture-798/owned_processes.py:58-77 | Binds each row to the process that now has its id, confirmed only by an equal creation time |
| `CleanupProof.OwnedProcessHandles.ObserveAll` | bench/windows-capture-798/owned_processes.py:85-100 | Waits on confirmed handles only and records what was seen |
| `CleanupProof.OwnedProcessHandles.CloseAll` | bench/windows-capture-798/owned_processes.py:102-106 | Closes every handle once and keeps none |
| `CleanupProof.PidsAreDistinct` | bench/windows-capture-798/owned_processes.py:111-115 | As many different ids as handles: no id is held twice |
| `CleanupProof.AcknowledgedIff` | bench/windows-capture-798/owned_processes.py:109-135 | Accepts if and only if handles and distinct owned processes correspond one to one with equal identity, each signaled with a positive exit time, and every process taskkill names is one of them under its recorded parent |
| `CleanupProof.AcknowledgedRun` | bench/windows-capture-798/owned_processes.py:58-135 | For rows that were bound, observed and closed, acceptance depends exactly on the operating system's answers |
| `CleanupProof.RowTells` | bench/windows-capture-798/owned_processes.py:58-106 | Every field of a closed row in terms of the listed process and the system's answers to opening, waiting and closing |
| `AccountChoice.NeverGuesses` | cli/src/bwu_login.rs:498-539 | Without an item asked for, an account is taken if and only if it is the only candidate, the one remembered, the one named for the page, or, when none is, the one named over all frames |
| `AccountChoice.AskedIsExact` | cli/src/bwu_login.rs:499-511 | With one asked for, an account is taken if and only if it alone has that id or name, or, when none has, alone has the name in another case |
| `AccountChoice.ChoiceIsUnordered` | cli/src/bwu_login.rs:445-564 | No permutation of candidates or frames changes what is chosen, why, or which candidates a failure lists |
| `AccountChoice.ListingKeeps` | cli/src/bwu_login.rs:478-485 | A failure lists its candidates once each |
| `AccountChoice.ListingOrders` | cli/src/bwu_login.rs:478-485 | and those named for the page, its site or a frame before all others |
| `AccountChoice.NamedAsIff` | cli/src/bwu_login.rs:485-498 | An item is named for a host if and only if its name is the host's, apart from blanks around it and the case of letters |
| `LoginValues.Prepare` | cli/src/bwu_login.rs:828-885 | Which values are read, exactly, or which failure there is |
| `LoginValues.ReadsExactly` | cli/src/bwu_login.rs:828-885 | Each value, the deferral, the steps and the custom fields in terms of what the item has and the caller asked for |
| `LoginValues.ReadsNoMore` | cli/src/bwu_login.rs:842-866 | Passkey-first reads only passkeys, code-only reads only the code, no-submit reads neither, and a deferred code is not among the values of the first phase |
| `LoginPhases.Parent.RunLoginPhases` | cli/src/bwu_login.rs:1057-1111 | The children started and the merged answer of one or two phases |
| `LoginPhases.PhasesTell` | cli/src/bwu_login.rs:1057-1111 | One try: one child with all values and, exactly at a deferred code challenge, a second with the code alone; its errors carry the literal prefix, and its report is told with the first, filled fields of both and warnings of both |
| `LoginPhases.JudgeTells` | cli/src/bwu_login.rs:1114-1140 | An answer is a sign-in if and only if it succeeds, awaits and needs nothing and says so; every other answer has its own complaint |
| `LoginPhases.RetryIff` | cli/src/bwu_login.rs:1149-1155 | What is tried again, with the five literal phrases |
| `LoginPhases.LoginWent` | cli/src/bwu_login.rs:1161-1226 | A login is one try, and exactly after a complaint that is tried again and with a known sign-in page a second one behind it |
| `LoginPhases.Parent.AutoLogin` | cli/src/bwu_login.rs:1161-1246 | The children started, the item named, the outcome and its complaint, whether a retry was made, as the tries went, and the pages gone to: the sign-in page before a retry, and the asking page after success; without an account nothing is started |
| `OneTimeCode.CodeIsSpentOnce` | cli/src/bwu_login.rs:1057-1226 | With a deferred code at most three children start, at most one receives the code, it receives nothing else and none starts after it, provided the texts the daemon puts into the answer of the code phase, and the host that stands in for its site, hold no retry phrase |
| `OneTimeCode.CodeGoesLastIff` | cli/src/bwu_login.rs:1057-1226 | For every sequence of answers: only the last child receives the code, and nothing but it, if and only if it is not so that the sign-in page is known, a code phase was reached, and its successful answer quotes a phrase that is tried again, in the id or site of a confirmation or else in the need and its advice; where that holds, at most three children start |
| `OneTimeCode.QuotingHostSpendsTwo` | cli/src/bwu_login.rs:1122-1124 | On every site whose host holds the label of a retry phrase, a code phase held for approval makes a second child receive the code |
| `OneTimeCode.ExampleOfAHost` | cli/src/bwu_login.rs:1149-1155 | There is such a host |
| `OneTimeCode.StoppedIsFinal` | cli/src/bwu_login.rs:1087-1095 | An error with the code-phase prefix is never retried, whatever text follows |
| `OneTimeCode.CodePhaseRetried` | cli/src/bwu_login.rs:1083-1155 | After a code phase the error is one that is tried again if and only if the second answer quotes a retry phrase in those texts; failed, rejected and missing answers never are |
| `OneTimeCode.AwaitsQuotes` | cli/src/bwu_login.rs:1122-1124 | A phrase is in the confirmation message if and only if it is in the id or in the site: none can form across the joints |
| `OneTimeCode.AwaitsRetried` | cli/src/bwu_login.rs:1149-1155 | The confirmation message is tried again if and only if id and site hold neither stopping phrase and one of them holds a retry phrase |
| `OneTimeCode.NeedsQuotes` | cli/src/bwu_login.rs:1125-1132 | The same for the message about what a login needs |
| `OneTimeCode.NeedsRetried` | cli/src/bwu_login.rs:1149-1155 | The same for being tried again |
| `Text.ContainsConcat` | cli/src/bwu_login.rs:1149-1155 | A phrase in a joined text lies in one part or straddles the joint |
| `Text.FillContains` | cli/src/bwu_login.rs:1122-1132 | A phrase that lies in none of the fixed texts of a message and can begin or end in none is in the message if and only if it is in a text set between them |
| `OutcomeClassifier.UnknownIsReported` | bench/run-task.py:178-188 | The mutual recursion answers true if and only if some path of fields and items leads to an envelope that reports an unknown code |
| `OutcomeClassifier.TrueIsReported` | bench/run-task.py:162-169 | The verdict is true if and only if the value is an outcome in which unknown is reported |
| `OutcomeClassifier.FalseIff` | bench/run-task.py:162-175 | The verdict is false if and only if everything reached through items and through lists under data and result is a list with items or an envelope in which nothing unknown is reported; there is none if and only if neither this holds nor unknown is reported |
| `OutcomeClassifier.FalseIsComplete` | bench/run-task.py:170-175 | A false verdict means nothing unknown is reported and every list right under data or result is false and not empty |
| `OutcomeClassifier.ShuffledVerdict` | bench/run-task.py:164-166 | Permuting lists at any depth changes no verdict |
| `RolloutStats.Split` | bench/codex_rollout_stats.py:26-38 | The nested loops produce exactly the intervals between the changes of kind from the first call on |
| `RolloutStats.TimesAddUp` | bench/codex_rollout_stats.py:26-38 | Tool and think time add up to the time from the first call to the last boundary, and there are as many think intervals as tool intervals or one less |
| `ErrorEnvelope.QuotedTextDoesNotInterfere` | cli/src/error_envelope.rs:13-90 | For every text a page, a caller or a cause supplies, the eight refusals are never retryable and have their own code if and only if the supplied texts say none of what the earlier rules look for, refusal by refusal |
| `ErrorEnvelope.MarkIsSupplied` | cli/src/error_envelope.rs:13-90 | An earlier mark is in a message if and only if one supplied text holds it |
| `ErrorEnvelope.OccludedHoldsNoStale` | cli/src/error_envelope.rs:19-90 | A stale sentence is in the message about an occluded ref if and only if one of its three texts, with the blanks around it, holds it |
| `ErrorEnvelope.OwnRuleHolds` | cli/src/error_envelope.rs:19-90 | Each refusal's own rule recognizes its message |
| `ErrorEnvelope.RetryableByCode` | cli/src/error_envelope.rs:13-250 | Whatever the message, a failure may be retried if and only if its code is one of six |
| `ErrorEnvelope.ErrorValue.Enrich` | cli/src/error_envelope.rs:256-273 | The in-place insertion computes the specified value |
| `ErrorEnvelope.EnrichingFills` | cli/src/error_envelope.rs:254-273 | A failure with an error text, and nothing else, gets the code and the flag of that text, each where it had none |
| `ErrorEnvelope.EnrichingIsConservative` | cli/src/error_envelope.rs:254-273 | Enriching overwrites nothing, adds at most two fields, adds them to every failure, and is idempotent |
| `AccountMatch.MatchIsRate` | cli/src/account.rs:51-53 | A score is a match if and only if its floored per-mille rate is at least 600 |
| `AccountMatch.ScoreCounts` | cli/src/account.rs:227-252 | A score counts the lasting auth cookies, or all cookies if there is none, and of these the ones whose name, domain and hash are live |
| `AccountMatch.BestIsAMatch` | cli/src/account.rs:316-321 | After ranking, an account is reported if and only if some account matches, and none has a higher rate |
| `AccountMatch.RankRanks` | cli/src/account.rs:318-320 | Ranking is a permutation in descending rate |
| `AccountMatch.RankIsStable` | cli/src/account.rs:318-320 | Accounts with one rate keep their order |
| `AccountMatch.GroupBySite` | cli/src/account.rs:298-304 | Every account is in the group of its site, sites once each, order kept |
| `AccountMatch.WhoAmI` | cli/src/account.rs:295-330 | One entry per shown site, with the best account if it is a match and all its accounts in order of rank |
| `AccountMatch.ReportedIff` | cli/src/account.rs:298-330 | An entry is reported if and only if it is that of a shown site |
| `AccountMatch.ShownIff` | cli/src/account.rs:308-315 | A site is shown if and only if a filter was given or the browser holds a cookie whose domain ends in a domain of one of its accounts |
| `AccountMatch.MatchIsReported` | cli/src/account.rs:298-330 | Every account that matches on a shown site has that site reported, as itself or as a match with no lower rate, and is among its candidates |
| `AccountMatch.MeantIff` | cli/src/account.rs:374-389 | The account meant is the first of that very id, else the only one, else none |
| `AccountMatch.EnforceAs` | cli/src/account.rs:374-457 | The command may run if and only if the session was last seen to be the meant account; a switch is tried exactly on an observed mismatch without strict |
| `NativeMonitor.TickIsExact` | bench/windows-capture-798/native_monitor.py:51-52 | The rebuilt tick is the true one if and only if the event is not in the future and under 2^32 ms old |
| `NativeMonitor.Monitor.Callback` | bench/windows-capture-798/native_monitor.py:43-58 | The log stays the first 20000 records of the window's own notices, and overflow says whether any were lost |
| `NativeMonitor.RecordsTell` | bench/windows-capture-798/native_monitor.py:43-58 | The records are those of the window's own notices of the four kinds: in order, each once, none left out, each with its full tick |
| `NativeMonitor.Monitor.BeginMeasurement` | bench/windows-capture-798/native_monitor.py:116-121 | A measurement starts once and only after calibration |
| `NativeMonitor.Monitor.FinishMeasurement` | bench/windows-capture-798/native_monitor.py:123-147 | The report is of every notice, queued ones too; a started measurement is reported as calibrated, and without overflow the events are the records of all the window's notices |
| `NativeMonitor.IntervalIsByTime` | bench/windows-capture-798/native_monitor.py:43-58 | The records whose tick lies in the interval are those of exactly the events that happened in it, however late each was handled |
| `NativeMonitor.SamplesCoverInterval` | bench/windows-capture-798/probe.py:731-751 | No instant of an accepted interval is more than 125 ms from a sample of the expected window |
| `NativeMonitor.SamplesAccepted` | bench/windows-capture-798/probe.py:731-751 | Accepted are all samples inside the interval, if and only if the monitor's own record is sound, the generation lies inside, the gaps are at most 250 ms and 100 ms at the ends, and each sample shows the expected window |

## Left out

- Sockets, subprocesses, file systems, Win32 and Chrome calls are steps, parameters or given inputs.
- SHA-256, JSON and URL parsing, the Public Suffix List and regular expressions are parameters or given
  results, except the receipt pattern, which is modelled as a leftmost match over ASCII digits.
- Type and missing-field checks on decoded JSON (for example probe.py:562-574 and the `exact` calls of
  verify.py) hold by typing; integer and floating-point forms of a number are not told apart.
- Clock: worker time is strictly increasing; two events of one time stamp are not modelled.
- The focus and view candidates, image upload, page probes and health events of relay-observer.js are events of
  no special kind; the dispatch control is a given answer with its validity and elapsed time.
- Window geometry, pixel checks, registry handling and the run drivers of the bench scripts.
- `window_policy_verdict` and `report_signature_matches`: comparisons over accepted evidence, without state.
- build_marker.rs: reading the environment, the dependency list and the answers of the tools, whose results are given
  as a `Build`, and the limits `tool` puts on exit status and length (lines 56-90, 107-130 and 164-213).
- BuildRecords.BuildIsCanonical: two builds that differ in dependency ids are not compared; a variable counts as one
  by its first letter, which covers the prefixes and names of lines 216-234.
- Chunks that split a multi-byte character (cli/src/chat.rs:417 decodes each chunk by itself).
- Compaction of a conversation, printing, and the time limits of single tools.
- ReleaseGate.Assess: works on real numbers, so rounding of the completion ratio and of the age is not modelled;
  a plan of no trials, which makes the original divide by zero, is a failure of its own.
- The text of the errors of account choice, beyond which candidates they list.
- LoginValues.Prepare: the lookup of page, item and frames that precedes it is given; a 1Password item is one
  with a user name, a password and a code.
- OneTimeCode.CodeIsSpentOnce: is conditional on the daemon's texts, because without that condition it is false
  (`QuotingHostSpendsTwo`); `CodeGoesLastIff` needs no such condition.
- LoginPhases.Parent.AutoLogin: that the answer to going back to the sign-in page is ignored, messages on the
  terminal, and the remembered-item file.
- TraceObserver.Observer.WrapperSettled: the error text of the end event and the pending flag, outcome and elapsed
  time of each attempt, which `capture_context` does not read.
- EvidenceReport.LoadCorpus: that each case's fixture file exists and is hashed; the digest is given with the case.
- EvidenceReport.VerifyEvidence: source commit, measured artifacts, configuration and timestamps (lines 115-145).
- EvidenceReport.VerifyEntries: the path, digest and single use of the two artifact files of a trial (lines 63-86).
- RolloutStats.Split: the clipping of intervals to ten minutes and the medians computed from them.
- CleanupProof.AcknowledgedIff: the regular expression over taskkill's stderr is given by the pairs it finds and by
  what remains.
- Loading fingerprints and reading live cookies (cli/src/account.rs:61-216), and the filter of `whoami`, are given
  results.
- NativeMonitor.Monitor.Callback: hook installation, threads and the polling loop; samples and errors of the report
  are given where they are judged.
- agent_panel.rs, app_bundle.rs, color.rs, validation.rs, findurl.rs, autologin.rs, cookie_export.rs and the npm
  scripts: dispatch, formatting and simple maps.
