# Cordium: models and proofs

A Dafny model of the parts of Cordium whose correctness rests on more than one
function: the exec session of the Go SDK, its wait loop, its file transfers, its
shell quoting, its spec builder and page iterator, and the rewriter that keeps
licence headers in the Go sources.

`dafny verify dfyconfig.toml` checks the whole project.

## What is modelled

**The exec session** (`ExecProtocol`, `ExecSafety`, `ExecOutcome`, `ExecWriters`,
`ExecProgress`, `ExecRequests`, `ExecEffects`, `Capture`, `ExecSession`). A transition system. Its
steps are the critical sections, channel operations and atomic loads of the
receive loop, the stdin loop, the kill timer and any number of Write, Kill, Wait
and Close callers. A run is any sequence of steps, so a lemma about `Run` is about
every interleaving. A step that is not possible in a state changes nothing.
`ExecSession.Session` is the receive loop in the form of the source, an object
whose methods update its fields. Its validity says that the fields are what the
protocol's run of a ghost trace gives, with all other threads free to act between
any two of its steps, so the theorems about runs apply to the object.

**The wait loop** (`Watch`, `WatchEnds`, `WatchSession`). The Cluster is an append-only history
of versions, the watch stream a cursor into it that may break or start late, and a
read returns some version at least as new as the newest at the time it was issued.
`WatchSession.Waiter` is `WaitFor` in the form of the source, tied to the protocol
in the same way.

**The header rewriter** (`Text`, `Preamble`, `HeaderGroups`, `Recognition`, `Licenser`,
`LicenserProofs`, `LicenserIdempotence`, `LicenserTheorem`, `LicenserHeader`,
`LicenserExample`, `LicenserBody`, `LicenserCode`, `LicenserConservation`). A source is
a BOM, a preamble of white space and comments, and a body that starts at the package
clause. `Preamble` holds a comment scanner that reads one character at a time and the
removal of headers as a cut of the token sequence, and `HeaderGroups` says, of the
token sequence alone, what a header is. `Licenser` is the rewrite as a function, and
`LicenserCode` has the loops, offsets and spans of the source, proved to compute that
function. What the removal asks of comment texts is a parameter (`Rules`, with the
licenser's own as `LICENSER`), since most of what holds of it holds for any such
questions.

**File transfers** (`Base64`, `Transfer`, `TransferOverExec`, `Shell`). A base64
encoder and decoder that are fed in pieces, upload and download with their order of errors, the capped writer
behind ReadFile, and the local file of DownloadFile. `Transfer.RemoteRun` says what is
assumed of the shell, `head` and `base64` in the Workspace. The command lines are read
by the shell lexer of `Shell` (POSIX.1-2017 Shell Command Language, sections 2.2.1,
2.2.2, 2.3 and 2.6.7).

**The spec builder and the page iterator** (`KeyedList`, `SortedKeys`, `SpecBuilder`,
`SpecRefinement`, `Paginator`). Options are data; a map comes with the order in which
it happens to be walked, and the list behind the iterator is a function from the
request to the reply.

## Where the code does not do what its tests or comments promise

- A writer that takes less than it was offered without an error goes unnoticed,
  although `cordium-go/exec_test.go:640` expects `io.ErrShortWrite`: see
  `ExecWriters.ShortWriteGoesUnnoticed` and, for exactly when writers do get
  everything, `ExecWriters.WritersGetEverythingIff`.
- A failed read of the stdin source is not reported, although
  `cordium-go/exec_test.go:679` expects it to be: see `ExecRequests.StdinFailureIsSilent`
  for one session and `ExecRequests.FailedReadIsNeverReported` for all of them.
- A failed DownloadFile destroys the local file that was there, although
  `cordium-go/files_test.go:422` expects it to survive: see
  `Transfer.FailedDownloadDestroysTheFile` and `Transfer.FailedDownloadKeepsFilesIff`.
- WaitFor's guarantee needs the stream to have started when the read is issued, or
  nothing to be recorded in between. An open call that returns before the Cluster
  serves it leaves a gap that the first read does not close: see
  `Watch.LateStreamStartMissesAVersion`, and `Watch.FirstReadSufficesIff` and
  `Watch.LateStartIsCoveredIff` for exactly when it does. The next tick closes it
  (`Watch.TickSyncs`).
- The header rewrite is idempotent on the plain sources described at
  `LicenserTheorem.RewriteIdempotentIff` only if the header scan finds nothing more
  to remove in what the first rewrite left below its header. A build constraint between
  the two halves of a header breaks this: see
  `LicenserExample.HalvedHeaderNeedsTwoRewrites` and
  `LicenserExample.RewriteIsNotAlwaysIdempotent`.
- The header rewrite takes whole lines for constraints, even inside of a block comment,
  and may then put out a text that is no source with the same body: see
  `LicenserBody.RewriteMayLoseTheBody` and, for exactly when the body is kept,
  `LicenserBody.SameBodyIff`.

## Model

| member | source | states |
|---|---|---|
| ExecSafety.RunInv | cordium-go/exec.go:604-854 | Every interleaving keeps the invariant that ties the recorded outcome, the deliveries, the capture buffers, the published chunks and the returned Wait calls together. |
| ExecSafety.OthersFrame | cordium-go/exec.go:604-686 | No step outside the receive loop records an outcome or touches the loop's data; Kill is the only writer of the killed flag and never changes a settled record. |
| ExecSafety.DoneIsFrozen | cordium-go/exec.go:697-720 | After done is closed no step changes the record, the captures, the writers or the result of Wait. |
| ExecOutcome.OutcomeIsFinal | cordium-go/exec.go:633-854 | In every interleaving, once done is closed exactly one of exited and err holds, the output is closed, and every continuation leaves the record, the buffers and Wait's result as they are. |
| ExecOutcome.WaitersAgree | cordium-go/exec.go:633-664 | All Wait calls that returned, whenever they did, returned the same result, and only after done was closed. |
| ExecOutcome.KillDecidesTheOutcome | cordium-go/exec.go:812-840 | For a loop ended by a Recv error: a Kill accepted by the time the flag is read gives exit code -1 and Killed even if the grace timer cancelled the context; without one the session ends in an error, never an exit code. |
| ExecOutcome.KillBeforeTheError | cordium-go/exec.go:604-627 | A Kill accepted any time before Recv fails is early enough to decide the outcome. |
| ExecEffects.KillDecides | cordium-go/exec.go:604-627 | A Kill that enters while the loop is at work, from a caller or from the stdin loop, gives exit code -1 and Killed if Recv fails later, whoever acts before, in between or after. |
| ExecEffects.KilledIsReportedIff | cordium-go/exec.go:633-664 | A finished command is reported as killed if and only if a Kill entered before the loop recorded the exit, and with its output if and only if it is captured. |
| ExecEffects.KillArmsTheTimer | cordium-go/exec.go:604-627 | A Kill whose send succeeds has sent the Kill message, and by the time the grace timer fires the context has ended or the session is done; a Kill after the end does nothing. |
| ExecEffects.FailedRecvIsReported | cordium-go/exec.go:812-840 | Without a Kill, a Recv that fails is reported as the context's own error if it had ended, otherwise as the stream's failure with its cause, otherwise as a stream that ended too early. |
| ExecEffects.EndedContextIsReported | cordium-go/exec.go:827-832 | A context that has ended when the loop looks at it is reported with its own error, whatever the others do. |
| ExecEffects.UnclassifiedFailure | cordium-go/exec.go:834-839 | At the last step of the classification a failure is reported with its cause, unless the context has ended by then. |
| ExecEffects.ContextIsFinal | cordium-go/exec.go:668-671 | A context that has ended stays so, for the same reason. |
| ExecEffects.EndReleasesTheContext | cordium-go/exec.go:688-698 | When the loop has ended, the context has. |
| ExecEffects.WriteSendsItsData | cordium-go/exec.go:570-589 | A Write whose send succeeds has sent exactly its data in one message; an empty one, or one after the end, sends nothing. |
| ExecEffects.FreeBufferTakesTheChunk | cordium-go/exec.go:757-763 | As long as fewer than bufferSize chunks wait, the next one is published at once. |
| ExecEffects.ReaderGetsEverything | cordium-go/exec.go:556-564 | A reader of a successful streaming session ends up with every non-empty chunk in order, and the closed channel. |
| ExecEffects.WaitUnblocksTheLoop | cordium-go/exec.go:633-641 | Wait drains an output that nobody has taken: after its own turns the loop can publish, without any end of the context. |
| ExecOutcome.ReportedExitDecides | cordium-go/exec.go:688-720 | A loop ended by the Cluster's report of an exit always ends with exactly that code, whatever Kill, the timer and the other threads do before or after. |
| ExecOutcome.FailedDeliveryDecides | cordium-go/exec.go:722-764 | A loop ended by a failing writer always ends with that writer's error, and one that gave up publishing with the context's. |
| ExecOutcome.RecordingDecides | cordium-go/exec.go:790-810 | Once the loop has come to record a code or an error, that is the outcome in every continuation. |
| ExecOutcome.SuccessfulCaptureIsExact | cordium-go/exec.go:633-664 | Every successful Wait with the capture on reports the first limit bytes of stdout, of stderr and of the interleaving of all chunks received, and Truncated exactly when their total exceeds the limit. |
| ExecOutcome.FanOutKeepsOrder | cordium-go/exec.go:722-764 | At every moment the published chunks are a prefix of the non-empty chunks received, at most one behind the captured ones and at most bufferSize of them buffered; all are published when Wait succeeds. |
| ExecOutcome.PlainExecPublishesNothing | cordium-go/exec.go:753-756 | A plain Exec never publishes a chunk. |
| ExecOutcome.StreamsPartitionBytes | cordium-go/exec.go:657-662 | The bytes of the two streams add up to those of the interleaving, so the combined buffer's mark covers both. |
| Capture.CaptureExact | cordium-go/exec.go:868-882 | For any chunking the buffer holds the first limit bytes of the concatenation; the mark is set exactly when bytes were dropped or an empty chunk met a full buffer. |
| Capture.CaptureOfNonEmpty | cordium-go/exec.go:722-751 | With empty chunks dropped, as deliver's guard does, the mark means lost bytes and nothing else. |
| Capture.EmptyChunkMarksFullBuffer | cordium-go/exec.go:868-882 | Without that guard the mark is wrong: one empty chunk marks a full buffer that lost nothing. |
| Capture.CaptureBuffer.Write | cordium-go/exec.go:868-882 | The buffer object takes one chunk as the specification says and never holds more than its limit. |
| ExecWriters.WritersGetEverythingIff | cordium-go/exec.go:722-742 | A successful session handed each writer every byte of its stream if and only if that writer kept io.Writer's rule at every Write: a short count comes with an error. |
| ExecWriters.ShortWriteGoesUnnoticed | cordium-go/exec.go:727-742 | A concrete session in which a writer takes half of a chunk without an error and the exec still succeeds. |
| ExecProgress.ReceiverNeverBlocks | cordium-go/exec.go:688-764 | In every reachable state with an ended context and done open, some answer that the environment owes lets the receive loop take a step that lowers its rank. |
| ExecProgress.CancelledSessionEnds | cordium-go/exec.go:688-764 | From every reachable state, whatever the other threads do, a bounded number of answered turns, larger by four for each chunk that Recv still hands out, closes the output and done and records exactly one outcome, even when nobody reads the output. |
| ExecProgress.WaitersReturn | cordium-go/exec.go:633-641 | After done is closed every Wait call returns the outcome within bufferSize + 3 of its own turns. |
| ExecRequests.PlainExecSends | cordium-go/exec.go:766-788 | Over every run of a plain Exec the first message is the only Request, the data sent is a prefix of the stdin source whatever the read sizes, and a Kill is sent at most once, last, only with terminate-on-EOF and only after the whole source. |
| ExecRequests.WholeSourceIsSent | cordium-go/exec.go:766-788 | In every run of a plain Exec whose source and stream do not fail the stdin loop, a loop that has stopped before the command has an outcome has sent the whole source, however it was read, and then, with terminate-on-EOF, the Kill. |
| ExecRequests.ReadIsSent | cordium-go/exec.go:766-775 | What a read returns is sent as one message, in the source's order. |
| ExecRequests.StdinFailureIsSilent | cordium-go/exec.go:766-788 | A concrete session whose stdin source fails at its first read and that reports success. |
| ExecRequests.StdinNeverShowsInTheOutcome | cordium-go/exec.go:766-788 | In any session whose stdin loop is not told of the end of its source with terminate-on-EOF on, striking out all turns of that loop leaves every outcome, every Wait result and the published output as they are. |
| ExecRequests.NeverAtSourceEndWhen | cordium-go/exec.go:766-788 | The loop is never in that position without terminate-on-EOF, nor when no read reports the end of the source. |
| ExecRequests.FailedReadIsNeverReported | cordium-go/exec.go:766-788 | In every session, whatever its options, and every run in which a read of the source fails, the result is what it would be without a stdin loop. |
| ExecSession.Session.SetExit | cordium-go/exec.go:790-798 | The critical section of setExit, as one step of the loop: the code is recorded unless an exit was, and the error stays. |
| ExecSession.Session.SetErr | cordium-go/exec.go:800-810 | The critical section of setErr, as one step of the loop: the fault is recorded unless an exit or an error was. |
| ExecSession.Session.SetStreamErr | cordium-go/exec.go:812-840 | The loads and the recording are a run of the protocol, other threads acting in between; it leaves exit code -1 or the context's error, the failure's cause or the early end. |
| ExecSession.Session.CaptureData | cordium-go/exec.go:744-751 | Capturing a chunk is one step of the loop: the chunk is noted and, with the capture on, goes into its own buffer and the combined one. |
| ExecSession.Session.Publish | cordium-go/exec.go:757-763 | The select between the output channel and the context's end is a step of the protocol. |
| ExecSession.Session.Deliver | cordium-go/exec.go:722-764 | Delivering a chunk is a run of the protocol that ends in the next Recv, with the chunk captured, or in the loop's end. |
| ExecSession.Session.ReceiveLoop | cordium-go/exec.go:688-720 | The loop ends with done closed, the output closed and exactly one outcome, which no continuation changes. |
| Watch.WaitForIsSound | cordium-go/watch.go:123-290 | Over all runs, nil is returned only if the condition held of a version the Cluster recorded, the last one stored in the handle; every error is the context's, a deletion, a refused read or the condition's own, and the retry marker never gets out. |
| Watch.WaitUntilRunningMeansRunning | cordium-go/watch.go:52-63 | Of the version in the handle: nil from WaitUntilRunning means that it is running, its stopped error that it is stopped without a failure, a failure error that it is stopped with that failure; its deleted error means that the Workspace was deleted. |
| Watch.OtherWaitsMeanTheirStates | cordium-go/watch.go:69-117 | Nil from the other waits means that the last stored version is in one of the states waited for. |
| WatchEnds.DeletionEndsTheWait | cordium-go/watch.go:190-276 | In every reachable state a deletion that a read or the stream reports ends the wait with ErrWorkspaceDeleted within two turns. |
| WatchEnds.RefusedReadEndsTheWait | cordium-go/watch.go:190-209 | In every reachable state a read that fails for good ends the wait with that failure, or with the context's error if it has ended. |
| WatchEnds.EndedContextEndsTheWait | cordium-go/watch.go:145-276 | An ended context ends the wait with its error wherever the waiter is, unless it has a result already. |
| WatchEnds.VersionIsJudged | cordium-go/watch.go:205-272 | In every reachable state a version that a read or an event brings is stored in the handle, ends the wait with the condition's verdict if it decides, and otherwise lets it go on. |
| WatchEnds.StateDecidesRunning | cordium-go/watch.go:52-63 | A running version ends WaitUntilRunning with nil, a stopped one with the failure that it reports or the stopped error, any other lets it go on. |
| WatchEnds.StateDecidesReady | cordium-go/watch.go:69-80 | The same for WaitUntilReady, where a preparing version is enough. |
| WatchEnds.StateDecidesTheEnd | cordium-go/watch.go:87-117 | A stopped version ends WaitUntilStopped with nil or its failure, a version in one of the states ends WaitForState, any other lets them go on. |
| WatchEnds.FailuresPass | cordium-go/watch.go:143-209 | With a live context a transient read failure, a broken stream, a failed open call and an unknown event never end the wait, and the stream is opened again after a pause. |
| Watch.NoVersionIsSkipped | cordium-go/watch.go:143-276 | In every connection each version since the stream's start was handed to the condition or is pending on the stream; once a read issued after the start has succeeded, a version as new as the starting point was handed over too. |
| Watch.FirstReadSyncs | cordium-go/watch.go:143-186 | In every reachable state in which the stream has started before the first read is issued, that read gives the guarantee when it succeeds: a version as new as the stream's starting point was handed over, and everything since was or is pending. |
| Watch.FirstReadSufficesIff | cordium-go/watch.go:143-186 | In every reachable state with a started stream and the first read pending, each answer to that read gives the guarantee if and only if nothing was recorded between the issue of the read and the start of the stream. |
| Watch.LateStartIsCoveredIff | cordium-go/watch.go:143-186 | If the stream starts only after the first read was served, the guarantee holds if and only if that read returned the newest version recorded when the stream started. |
| Watch.TickSyncs | cordium-go/watch.go:211-276 | In every reachable connection with a started stream the next successful tick gives that guarantee, after a first read that failed or came too early. |
| Watch.LateStreamStartMissesAVersion | cordium-go/watch.go:143-186 | A run in which the stream starts after the first read was served and a satisfying version is neither handed over nor pending. |
| Watch.QuietClusterEndsTheWait | cordium-go/watch.go:211-276 | If the Cluster stays as it is and its latest version decides, a wait with the guarantee returns the condition's own verdict on the version in the handle, at the latest one turn after it has received what is pending. |
| Watch.HandleMovesBackIff | cordium-go/watch.go:190-276 | In every reachable state a step replaces the version in the handle by an older one if and only if it delivers a pending event older than that version; no read ever does, over any number of connections. |
| Watch.WaitEndsBehindIff | cordium-go/watch.go:143-276 | Over all runs the handle, and with it a wait that has returned, ends on a version older than one it has held if and only if the stream at some point delivered an event older than the newest version held by then and nothing was stored after it. |
| Watch.WaitMayEndOnAnOldVersion | cordium-go/watch.go:143-276 | A run in which WaitUntilRunning returns nil on a running version after the handle already held a newer, stopping one. |
| Watch.PausesSettle | cordium-go/watch.go:501-529 | The n-th pause is 250 ms doubled n times, and 8 s from the fifth on. |
| WatchSession.Waiter.WaitFor | cordium-go/watch.go:123-188 | The loop returns only justified results; nil means that the condition holds of the version in the handle. |
| WatchSession.Waiter.Reconcile | cordium-go/watch.go:190-209 | A read and the verdict on it are a run of the protocol: a reported deletion ends the wait, a version goes into the handle, a transient failure passes. |
| WatchSession.Waiter.Select | cordium-go/watch.go:242-276 | One pass of consumeWatch's select is a run of the protocol. |
| Shell.Argv | cordium-go/util.go:37-43 | The loop's line reads back as exactly the arguments. |
| Shell.QuoteReadsAsOneWord | cordium-go/util.go:46-54 | A quoted argument, whatever it holds, is read as one word whose text is the argument. |
| Shell.ArgvRoundTripIff | cordium-go/util.go:37-54 | Word splitting and quote removal undo Argv if and only if no argument holds a NUL. |
| Shell.ArgvInjective | cordium-go/util.go:37-54 | Different lists of NUL-free arguments give different lines. |
| Shell.UploadCommandReads | cordium-go/files.go:92-97 | The shell reads the upload's line as the pipeline with the given count and exactly the given paths. |
| Shell.DownloadCommandReads | cordium-go/files.go:229-230 | The shell reads the download's line as one command with its input redirected from exactly the given path. |
| Preamble.TokensParts | unsorted/licenser/main.go:271-297 | Scanning a preamble loses nothing and yields white space and complete comments, each line comment ended by its line feed. |
| Preamble.ScanUnparse | unsorted/licenser/main.go:271-297 | Every well-formed token sequence scans back from its text. |
| HeaderGroups.SegmentsExact | unsorted/licenser/main.go:222-269 | The removal cuts the tokens into what stays and what goes, covering all of them in order; each group that goes is a header where it stands, and no header starts at a comment that stays. |
| HeaderGroups.HeadersExactly | unsorted/licenser/main.go:222-269 | The scan takes out n tokens if and only if they are a header: the three phrases in one block comment, or in a group of line comments that starts with the copyright, is linked line by line without constraints and markers, and ends with the first comment that ends a header or where the next one is not linked. |
| HeaderGroups.GroupStaysWithin | unsorted/licenser/main.go:246-257 | No comment of a removed group but its first is a constraint or a marker, and none between its first and its last ends a header. |
| Recognition.ConstraintsAreRecognised | unsorted/licenser/main.go:392-403 | Both kinds of build constraints are recognised, alone and with anything behind a space; a longer word that starts like one is none. |
| Recognition.MarkersAreRecognised | unsorted/licenser/main.go:386-390 | The marker of generated code is recognised whatever the generator is called. |
| Recognition.HeaderTakesLineEnds | unsorted/licenser/main.go:425-438 | The header comes with the line ends that it is asked for and is otherwise unchanged. |
| Preamble.RemovalWellFormed | unsorted/licenser/main.go:222-269 | What a removal leaves is again a preamble that scans to the kept tokens. |
| LicenserCode.ScanComments | unsorted/licenser/main.go:271-297 | The comments found are those of the tokens, all of them, in order, with their offsets. |
| LicenserCode.SpansInOrder | unsorted/licenser/main.go:405-423 | The spans to remove are ordered, disjoint and in bounds, so removeSpans skips none. |
| LicenserCode.CutSpans | unsorted/licenser/main.go:405-423 | Cutting the spans out of the text leaves the text of the kept tokens. |
| LicenserCode.RemoveSpans | unsorted/licenser/main.go:405-423 | The loop over the spans, with its guard, computes the cut. |
| LicenserCode.FindGroupEnd | unsorted/licenser/main.go:246-257 | The inner loop finds the last comment of a group of adjacent line comments. |
| LicenserCode.GroupsAgree | unsorted/licenser/main.go:246-257 | The group found by comparing comment offsets is the one that the token sequence has. |
| LicenserCode.RemoveApacheHeaders | unsorted/licenser/main.go:222-269 | The loops over comments and spans remove exactly the headers of the token sequence. |
| LicenserCode.SplitLines | unsorted/licenser/main.go:325-343 | The loop cuts the text into its lines. |
| LicenserCode.ExtractBuildConstraints | unsorted/licenser/main.go:299-323 | The loop collects the constraints, //go:build lines first, and the remaining lines. |
| LicenserCode.TrimLeadingBlankLines | unsorted/licenser/main.go:345-362 | The loop drops the leading blank lines. |
| LicenserCode.RewriteGoHeader | unsorted/licenser/main.go:172-220 | The whole rewrite computes the specified text, fails exactly on sources whose white space and comments are not followed by the keyword package, and reports changed exactly when the text differs. |
| LicenserConservation.KindsPartition | unsorted/licenser/main.go:299-323 | Every line goes to exactly one of the three lists, each list keeping the order of its lines. |
| LicenserConservation.RewriteConserves | unsorted/licenser/main.go:172-220 | BOM and body stay; the preamble is whole removed headers plus kept text; each constraint line comes out once and in order, //go:build lines first; the other lines follow the header without the blank lines in front. |
| LicenserTheorem.RewriteIdempotentIff | unsorted/licenser/main.go:172-220 | For LF-only sources with whole-line constraints a second rewrite changes nothing if and only if the header scan removes nothing from what the first left below its header. |
| LicenserTheorem.RewriteIdempotent | unsorted/licenser/main.go:172-220 | The rewrite is idempotent when no copyright marker survives the removal. |
| LicenserTheorem.TwoRewrites | unsorted/licenser/main.go:172-220 | What two rewrites in a row give, in terms of what the header scan makes of the rest. |
| LicenserBody.SameBodyIff | unsorted/licenser/main.go:172-220 | The rewrite of an LF-only source splits at the same body if and only if what is left below the header is a preamble by itself. |
| LicenserBody.WholeLinesKeepTheBody | unsorted/licenser/main.go:172-220 | It is whenever all constraints are whole line comments. |
| LicenserBody.RewriteMayLoseTheBody | unsorted/licenser/main.go:299-323 | A valid source, a block comment with a line that looks like a constraint, whose rewrite leaves the comment open in front of the body. |
| LicenserExample.HalvedHeaderNeedsTwoRewrites | unsorted/licenser/main.go:246-323 | For any three line comments of which the outer two are the halves of a header and the middle one is a `//go:build` line: the first rewrite leaves the halves below its header, and the second one drops them. |
| LicenserExample.RewriteIsNotAlwaysIdempotent | unsorted/licenser/main.go:172-220 | One such source, on which rewriting twice with the licenser's own header differs from rewriting once. |
| LicenserHeader.ApacheHeaderIsGood | unsorted/licenser/main.go:481-501 | The header that the licenser puts in is one block comment that it recognises and removes again. |
| Base64.EncodeLength | cordium-go/files.go:92-92 | The announced count is the number of bytes of the encoding. |
| Base64.EncodedLenFits | cordium-go/files.go:87-92 | No accepted size makes the count, or the sum it is computed from, overflow a signed integer. |
| Base64.EncodedLenBounds | cordium-go/files.go:92-92 | The count is the least whole number of quads with room for the size. |
| Base64.Encoder.Write | cordium-go/files.go:108-112 | After any write the sink holds the encoding of the whole groups written so far, and the rest is pending. |
| Base64.EncodeChunks | cordium-go/files.go:108-116 | Any cut of the content into writes gives the same text, of the announced length. |
| Base64.DecodeChunks | cordium-go/files.go:220-223 | Only the text counts for the decoder, not how it is cut into chunks. |
| Base64.DecodeEncode | cordium-go/files.go:220-223 | Decoding undoes encoding for every wrapping of the text into lines. |
| Base64.EncodeInjective | cordium-go/files.go:108-116 | Different contents have different encodings. |
| Base64.KnownVectors | cordium-go/files.go:108-116 | The encoder gives the test vectors of RFC 4648, section 10. |
| Base64.Alphabet | cordium-go/files.go:108-116 | The digits are those of RFC 4648, section 4: A to Z, a to z, 0 to 9, + and /. |
| Transfer.CopyEncoded | cordium-go/files.go:108-116 | The copy takes at most size bytes of the source, counts them, and writes their encoding, however the source is read. |
| Transfer.Upload | cordium-go/files.go:81-140 | Every non-empty path with a size from 0 to half of maxInt is taken and anything else refused; the command that is sent; the order in which the exec's error, a short source and the exit code are reported; once the command exited with zero, success means that the source held enough. |
| Transfer.WriteCommandIsScript | cordium-go/files.go:92-97 | The remote shell reads the announced count and exactly the given paths out of the command line, and creates the parent directory first unless it is the working directory or the root. |
| Transfer.UploadIsExact | cordium-go/files.go:81-140 | An upload that returns no error has put exactly the first size bytes of the source into the remote file and touched no other file. |
| Transfer.UploadCreatesItsDirectory | cordium-go/files.go:101-103 | Once it gets the whole text the upload's command can exit with zero whatever directories are there, since it creates the one of the path. |
| Transfer.MissingDirectoryFails | cordium-go/files.go:101-103 | Without that part of the command it could not where the directory is missing. |
| Transfer.ShortSourceFillsTheCount | cordium-go/files.go:130-133 | The byte count alone does not catch a short source, so the comparison of the copied bytes is needed. |
| Transfer.ShortSourceMayExitZeroIff | cordium-go/files.go:92-139 | Behind a source that is too short the remote command can exit with zero if and only if the whole text was written and it has as many quads as a full source's; with a quad missing it waits, and only the exec's end ends the upload. |
| Transfer.LimitedWriter.Write | cordium-go/files.go:269-277 | A write is taken whole or not at all, and fails exactly when it is larger than what remains. |
| Transfer.CopyDecoded | cordium-go/files.go:220-225 | The buffer never exceeds its cap; the copy fails exactly on malformed text or too large a content, for every cut of the decoded stream. |
| Transfer.ReadFile | cordium-go/files.go:147-163 | All or nothing: the whole content if and only if the command exited with zero, the text is well formed and its content is within the cap, and otherwise an error with no data. |
| Transfer.UploadThenDownload | cordium-go/files.go:81-248 | The text that is read back decodes to what was uploaded, for every split of the source and of the output and every wrapping of the text. |
| TransferOverExec.UploadThenReadFile | cordium-go/files.go:81-248 | Over any run of the exec protocol for each of the two sessions: after an upload that returned no error, a ReadFile whose command exits with zero returns exactly the uploaded bytes if they are within the cap, and an error without data if not. |
| Transfer.LocalDisk.DownloadFile | cordium-go/files.go:176-198 | The result and the local files after a download, given how each local step goes. |
| Transfer.DownloadIsExact | cordium-go/files.go:176-248 | A download that returns no error has put the remote file into the local one and touched no other. |
| Transfer.FailedDownloadKeepsFilesIff | cordium-go/files.go:176-198 | A failed download leaves the local files as they were if and only if it fails before the local file is created, or it cleans up and there was none, or it does not clean up (a failing Close or Remove) and the file held what was written. |
| Transfer.FailedDownloadDestroysTheFile | cordium-go/files.go:176-198 | Both downloads of the repository's own test lose the local file that is promised to survive. |
| KeyedList.Upsert | cordium-go/spec.go:1203-1211 | The loop overwrites the first entry with the key, or appends. |
| KeyedList.UpsertIsMapUpdate | cordium-go/spec.go:1203-1211 | One upsert changes what its own key leads to and nothing else, and keeps all keys in their places. |
| KeyedList.UpsertsRefineOrderedMap | cordium-go/spec.go:1203-1211 | Any run of upserts: each key leads to the last entry written with it or to its old one, old keys keep their places, new ones follow in the order of their first writes, and no key comes twice unless one did before. |
| KeyedList.UpsertsLeaveOthers | cordium-go/spec.go:1203-1211 | Entries whose keys are not written stay where they are, as they are. |
| SortedKeys.KeysSorted | cordium-go/spec.go:1213-1223 | The result is the strictly ascending list of the map's keys. |
| SortedKeys.WalkDoesNotMatter | cordium-go/spec.go:1213-1223 | Two walks over the same map sort to the same list. |
| SpecBuilder.Builder.ApplyEnvs | cordium-go/spec.go:650-659 | The option is refused exactly if some key or value is empty; otherwise it upserts the entries in the order of their keys. |
| SpecBuilder.Builder.ApplyVolume | cordium-go/spec.go:222-245 | Only non-empty names and absolute paths are accepted, and the mount path is the key. |
| SpecBuilder.Builder.ApplyTask | cordium-go/spec.go:749-783 | A task is built from its options, refused when one of them is, and upserted by name. |
| SpecRefinement.TaskIsAsItsOptionsSay | cordium-go/spec.go:676-783 | A task has its name, command and kind, the last working directory and the last of the failure options, the flags asked for, and an environment that is an ordered map of its entries. |
| SpecBuilder.Builder.ApplyApp | cordium-go/spec.go:1037-1065 | Only non-empty names and ports from 1 to 65535 are accepted, and the name is the key. |
| SpecRefinement.AppIsAsItsOptionsSay | cordium-go/spec.go:1014-1065 | An application has its name and port, the last display name, and is the default one if and only if it was asked to be. |
| SpecBuilder.NewSpecBuilder | cordium-go/spec.go:49-62 | Building succeeds exactly if every option is accepted, applies them in order, and otherwise fails with the first one that is refused. |
| SpecRefinement.OptionsRefineOrderedMaps | cordium-go/spec.go:49-83 | Under any run of options on any spec each keyed list behaves as a map that remembers the order of its keys, starting from the last spec that a FromSpec has put in. |
| SpecRefinement.KeysAreDistinct | cordium-go/spec.go:1203-1211 | No key comes twice in any list, as long as the specs that are started from are sound. |
| SpecRefinement.WalksDoNotMatter | cordium-go/spec.go:1172-1181 | Identical maps give an identical spec in whatever order they are walked. |
| SpecRefinement.AcceptedSpecIsSound | cordium-go/spec.go:632-783 | Whatever the builder accepts keeps every rule that the options check, entry by entry, task environments included. |
| Paginator.NewListConfig | cordium-go/list.go:45-56 | The options are applied in order, nil ones skipped, and the first refused one ends it. |
| Paginator.LastOptionWins | cordium-go/list.go:71-215 | Every field of a request holds what the last option of its kind says and is unset without one; a list of options is refused exactly for an empty name. |
| Paginator.PageRequest | cordium-go/list.go:222-228 | Every page request is the caller's own, apart from the page number, which the caller cannot set, and the page size, which is 100 unless the caller sets it. |
| Paginator.PageOptionIsIgnored | cordium-go/list.go:222-228 | A page option of the caller makes no difference to any fetch. |
| Paginator.AllPages | cordium-go/list.go:217-244 | The loop yields and fetches what the walk over the pages says, asking for the pages 0, 1, 2 and so on. |
| Paginator.AllPagesIsTheList | cordium-go/list.go:217-244 | Against a list that does not change: every item once and in order, or as many as the consumer takes, in as many fetches as those items need and at least one. |
| Paginator.OneErrorAtMost | cordium-go/list.go:230-234 | Against any list an error is yielded exactly if the last fetch failed, and nothing comes after it. |
| Paginator.EndingPageEnds | cordium-go/list.go:240-242 | A page without items ends the walk even if the list claims that there is more. |
| Paginator.RefusedOptionsFail | cordium-go/list.go:217-234 | Options that are refused end the iteration with that one error. |

## Left out

- gRPC, TLS, HTTP and authentication; Send, Recv and Get are steps of the environment, and RecvFailed stands for every way in which a stream can end.
- The terminal, log and event watchers, the CRUD clients, the CLI, the portal and the component stubs: the same message pump in a simpler form, or one-branch checks around an RPC.
- Wall-clock time: timers fire at any moment, and the backoff is a sequence of pauses.
- Fairness: progress of the exec session is stated per turn of the thread concerned, under the assumption that Recv fails once the context has ended and that writers return.
- Data races inside a writer or a reader that the caller hands in, and the copying of result slices.
- The `Rules` and `Cutter` parameters of the header removal are a generalisation of the model; the source asks one fixed set of questions.
- The Go parser beyond the keyword package and its offset: a clause with a bad name is accepted here; walking directories, writing files, and carriage returns inside of comments, where the scanner's literal is shorter than the source text.
- In `LicenserCode` the branches of removeApacheHeaders' outer loop are in `HeaderEnd`; the source has them inline.
- Shell grammar above words (reserved words, aliases, IO numbers, expansions of unquoted text that the quoting never produces), and head and base64 beyond the assumptions in `Transfer.RemoteRun`.
- Decoded bytes that base64's decoder hands on before it meets malformed text are arbitrary pieces in `Transfer.CopyDecoded`; how many there are is not modelled.
- Disk writes of DownloadFile are whole or refused, as with the capped writer; a partial write of one piece is not modelled.
- Aliasing of the protobuf messages behind a spec: FromSpec's clone is a value here, and WithSpecFunc, images, repositories, resources and egress rules are left out because they add only unkeyed fields or further keyed lists of the same kind.
- A list with more than 2^32 - 1 pages, where the iterator's page number would wrap around.
- ExecSession.Session: the stdin loop, the kill timer and the callers are actions of the protocol there and not methods of the object.
- WatchSession.Waiter.WaitFor: takes a bound on its steps, since the source's loop may run for ever; every run up to the bound is covered.
