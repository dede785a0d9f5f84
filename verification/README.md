# A verified model of the review executor

The executor in `review-runtime/` runs each AI review job as one durable, cancellable native session. This
project models its four hard parts and proves what they promise over all inputs, all chunkings, all
interleavings and all crashes.

* **Registry and lifecycle.** `SessionRegistry.dfy` models how a session is admitted and aborted, one file write
  at a time, under a registry lock, with crashes that lose memory and spare child processes; `RegistryAnswers.dfy`
  when each answer is given, and what an abort leaves on disk.
  `SessionLifecycle.dfy` models one session from its first step to the release of its result: its terminal
  events, its result file, its terminal record, and the two ways it can be acknowledged; `SessionRuns.dfy` the single
  steps of persisting and what can come between them; `SessionReleases.dfy` what the record says and when it releases.
* **Event delivery.** `EventDelivery.dfy` models the write-ahead spool with its cursor, batched posting over a
  network that loses and repeats, recovery after a restart, and the receiving server; `EventRecovery.dfy` what a
  restart loses for good and what can still be reached; `ServerAnswers.dfy` which batches the server takes at all.
* **Model gateway.** `FilterSpec.dfy`, `StreamFilter.dfy` and `FilterStreams.dfy` treat the incremental stream
  filter, `FilterLimits.dfy` which responses it takes and releases, `SseFrames.dfy` the cutting into frames,
  `BatchParser.dfy` the parser of whole bodies, `CallAccumulation.dfy` the calls both accumulate,
  `ResponseValidation.dfy` the checks before release, `GatewayAdmission.dfy` concurrent requests, the ban on
  replay and the shared retrieval budget.
* **Byte machines and quotas.** `Redaction.dfy` treats the credential filter and
  `RedactedText.dfy` what can still be read behind it, `SseBytes.dfy` the incremental event
  decoder, `SseStandard.dfy` its agreement with the event stream format of the WHATWG HTML standard (sections
  9.2.5 and 9.2.6), `DiagnosticsQuota.dfy` the two levels of quota, `DiagnosticsCapture.dfy` what is kept of the
  captured streams. `ByteStrings.dfy` and `Options.dfy` hold what the others share.

## How it is built

An object that the source updates in place is a class. Its methods are proved against pure step functions of its
old state, and what the source promises is proved about those functions. For a protocol the step functions act on a
world: `Play` runs any list of steps, and a step that is not possible at its turn does nothing, so a lemma about
`Play(steps)` for all `steps` is a lemma about every interleaving. Reads in chunks are handled by a fold over single
bytes; the class methods, which work on whole buffers, are proved to compute that fold. What a step function means is
said once more without it: a lemma whose name ends in `ExactlyWhen` gives, on the data alone, when each outcome occurs.

What the model takes as given enters as a parameter: a JSON decoder from bytes to optional records, the digest
function, the redaction marker (the source's text is `[REDACTED_LOCAL_CREDENTIAL]`), free disk space, whether a
write succeeds, whether a deadline has passed, whether the network loses or repeats a post, and the size of an
archive.

## Where the code does not do what one would expect

* **A broken line can be lost, and block what follows for good.** The spool is written without escaping U+0085, U+2028
  and U+2029 but read back with a splitting that takes them for line ends, so a restart drops such an event. If the
  server lacks it and no post under way holds it, it is stranded, and stays so (`StrandedStays`); the server can still
  get every event if and only if none is stranded (`EveryEventCanArriveExactlyWhen`). The server takes no batch that
  passes over it (`BatchIsAccepted`), so if a readable line follows, the terminal event never arrives, the queue
  never empties and the spool stays (`StrandedBlocksForGood`); the spool can still go if and only if none does
  (`SpoolCanGoExactlyWhen`). `TwoEventsAreBlocked` is the shortest such run, `BrokenLineCanBeStranded` has one for
  every broken line. If the last line breaks the spool can even be deleted undelivered, otherwise never
  (`BreakingTailCanBeLost`, `DeletedMeansDelivered`).
* **An event that a last CR commits is not dispatched.** The decoder waits behind a CR for the byte that may make it a
  CRLF, also at the end of the stream: of `data:x` CR CR the standard makes an event, the decoder none, and it reports
  a gap (`LastCRIsNotDispatched`). `NoBomAgrees` says that nothing else differs without a byte order mark.
* **A byte order mark is not stripped.** `BomMatters` says exactly when the decoded events then differ from the
  standard's.
* **The marker can spell a secret with its neighbours.** `SurvivesExactlyWhen` says exactly which secrets can still be
  read in some redacted text: those that `CanSpell`, a finite search over the secrets and the marker, finds. A secret
  without the marker's brackets survives exactly if it is a part of the marker (`BorderlessSurvivesExactlyWhen`), so
  a token of letters, digits and the signs of base64 does only if the marker contains it. `MarkerCanSpellASecret` has
  the printable failing input: the only secret `a[` in the text `aa[`. In any case every occurrence takes a byte from
  a copy of the marker (`SecretTouchesMarker`).
* **Session ids must be a job's own.** After a crash that left no record, the registry cannot see that another job
  used the id. `OneChildPerJob` needs the assumption for batched jobs; `ReuseDefeatsIt` shows that whenever it is
  violated two children of one job can be alive.
* **A completion can be revoked.** An announced completion is taken back by a second terminal event if and only if a
  cancellation came before the last locked look at the flag (`CompletionRevokedExactlyWhen`, and
  `CompletionCanBeRevoked` for a run that does so); `TerminalEventsComeLast` says that nothing worse happens.
* **A released result can come back.** Persisting looks for the result in memory, then for its file, and writes without
  a lock. Once the record is written, a released result's file is there again if and only if the last acknowledgement
  came between the first look and the write (`ReleasedResultIsBackExactlyWhen`). What is back is a JSON null, or the
  result itself (`ReleasedResultCanComeBack` has a run for each).
* **A session without a final number can be acknowledged undelivered.** Only an uncaught exception leaves one. A live
  one must also have failed to write its record, a recorded one have a broken last line
  (`AcknowledgedWhenDelivered`, `RecordAcknowledgedWhenDelivered`), and both do happen
  (`UnrecordedCanBeReleasedUndelivered`, `RecordedCanBeReleasedUndelivered`).
* **The failure window can have a hole.** A refused append to the reserve does not stop later ones, so bytes can be
  missing in the middle (`WindowCanHaveAHole`); `WindowIsWholeExactlyWhen` says when none are.
* **A delivered session may never be released.** If the line of its last event is broken and the answer to its post is
  lost, the restart drops the event, the cursor stays before the final number, and the record refuses every
  acknowledgement (`DeliveredCanStayUnreleased`); `RecordReleasesExactlyWhen` and `DeliveredCanBeReleased` say that
  nothing else stands in the way.
* **White space in front of a data value is stripped altogether** by the gateway, where the standard takes one space
  (`ValueAgreesExactlyWhen`).
* **An archive larger than its estimate is not checked again** (`OversizedCanOverrun`).
* **Limits on pending bytes hold at the end of each chunk**, so acceptance does depend on the chunking, but only one
  way: merging neighbouring chunks never turns success into failure, and results never change.

## Model

| member | source | states |
|---|---|---|
| `Redaction.NearestSecret` | review-runtime/native_session.py:38-44 | the nearest place before the cutoff where a secret starts and the longest secret there, or none |
| `Redaction.RedactPrefix` | review-runtime/native_session.py:34-50 | for any cutoff, output and rest are those of the reference scan that takes no decision at or after the cutoff |
| `Redaction.ScanThenRest` | review-runtime/native_session.py:34-50 | what a scan wrote, followed by the redaction of what it left together with any further bytes, is the redaction of everything, as long as the cutoff keeps one byte less than the longest secret |
| `Redaction.Absorb` | review-runtime/native_session.py:60-68 | one read keeps the promise that handed-on bytes plus the redaction of pending and future bytes are the redaction of the whole, and keeps fewer bytes than the longest secret has |
| `Redaction.DrainRedacted` | review-runtime/native_session.py:53-72 | for every chunking and every set of secrets (empty ones dropped), the consumer receives the redaction of the whole log up to end of file, in non-empty pieces, and the loop ends |
| `Redaction.UntilEofStops` | review-runtime/native_session.py:60-63 | the first empty read is the end of the log, whatever stands behind it |
| `Redaction.RedactIsLeftmostLongest` | review-runtime/native_session.py:38-49 | redaction equals cutting out any list of spans that meets the reference description: gaps in which no secret starts, then the longest secret at the first place where one starts |
| `Redaction.SpansExist` | review-runtime/native_session.py:38-49 | such a list exists for every text, so redaction is that description |
| `Redaction.RedactNext` | review-runtime/native_session.py:37-49 | one turn of the loop puts out the literal bytes up to the nearest secret and the marker in its place, and keeps output and cursor ahead of the reference scan |
| `RedactedText.SecretTouchesMarker` | review-runtime/native_session.py:45-47 | unconditionally, every occurrence of a secret in the output has a byte in common with a copy of the marker |
| `RedactedText.SurvivesExactlyWhen` | review-runtime/native_session.py:34-50 | a secret can be read in the redaction of some text if and only if the marker can spell it: inside the marker, or read from its end as literal bytes none of which starts a secret and markers each standing for the longest secret there, possibly cut at either end |
| `RedactedText.BorderlessSurvivesExactlyWhen` | review-runtime/native_session.py:34-50 | a secret without the marker's first and last byte can be read in some redacted text if and only if it occurs in the marker |
| `RedactedText.NoSecretSurvives` | review-runtime/native_session.py:34-50 | a secret without the marker's first and last byte that does not occur in the marker occurs nowhere in any output |
| `RedactedText.MarkerCanSpellASecret` | review-runtime/native_session.py:46-47 | for every marker and every byte but its first, that byte followed by the marker's first, as the only secret, is spelled in the output of a text of three bytes |
| `RedactedText.BracketIsSpelled` | review-runtime/native_session.py:46 | with the source's marker the secret `a[` survives |
| `SseBytes.Decoder.TakeLine` | review-runtime/raw_diagnostics.py:91-109 | one line of an event as the byte machine takes it; the size counter is the length of the joined pending data; whether the event still fits |
| `SseBytes.Decoder.TakeLines` | review-runtime/raw_diagnostics.py:113-134 | the index loop computes the machine's scan of the buffer, including CR and LF met separately and a last CR left for the next read |
| `SseBytes.Decoder.Feed` | review-runtime/raw_diagnostics.py:111-143 | one call gives the events and line records of the byte machine and keeps exactly what it has not finished, or raises exactly where the size limits are passed |
| `SseBytes.Decoder.Finish` | review-runtime/raw_diagnostics.py:145-152 | incomplete is reported exactly when unfinished bytes or data lines remain, with their counts |
| `SseBytes.LinesRebuild` | review-runtime/raw_diagnostics.py:128-140 | lines, line endings and unfinished bytes rebuild the input exactly |
| `SseBytes.LinesTile` | review-runtime/raw_diagnostics.py:128-140 | each record ends where the next begins, and offset plus buffered bytes is the total fed |
| `SseBytes.ChunksDoNotMatter` | review-runtime/raw_diagnostics.py:111-143 | events, line records, pending data and unfinished bytes are those of the whole input for every accepted chunking, and acceptance is characterised exactly |
| `SseBytes.MergeIsAccepted` | review-runtime/raw_diagnostics.py:141-142 | merging neighbouring chunks of an accepted stream is accepted with the same result |
| `SseStandard.AcceptedExactlyWhen` | review-runtime/raw_diagnostics.py:105-142 | for every chunking, a stream is accepted if and only if the standard's data buffer stays within 16 MiB over its certain lines and the unfinished bytes do at each read |
| `SseStandard.EventsAreStandard` | review-runtime/raw_diagnostics.py:91-109 | at any point of the stream, lines and events are those of the declarative parser of the standard's data field, up to the last line whose end is certain |
| `SseStandard.NoBomAgrees` | review-runtime/raw_diagnostics.py:91-152 | without a leading byte order mark, the events decoded by the end of the stream are the standard's if and only if the decoder is not left behind the CR of a blank line with data lines pending |
| `SseStandard.LastCRIsNotDispatched` | review-runtime/raw_diagnostics.py:124-125 | for every byte x, `data:x` CR CR has one event by the standard, none for the decoder, and leaves the CR and the data line |
| `SseStandard.BomMatters` | review-runtime/raw_diagnostics.py:111-117 | with one, they agree if and only if, should the first line be a data line, no later line is blank, and otherwise as without a mark |
| `SseFrames.Search` | review-runtime/native_gateway.py:248-249 | the separator search finds the first place where a separator starts, or proves there is none |
| `SseFrames.MatchEndsFirst` | review-runtime/native_gateway.py:371-375 | a match found in a buffer ends at the first place where any frame ends, so cutting byte by byte finds the same frames |
| `SseFrames.SeparatorAddsNoData` | review-runtime/native_gateway.py:249 | a frame carries the same data with or without its separator |
| `SseFrames.ValueAgreesExactlyWhen` | review-runtime/native_gateway.py:249 | the value of a data line is the standard's if and only if that does not begin with white space |
| `SseFrames.FrameDataIsStandard` | review-runtime/native_gateway.py:249 | the data read from a frame whose lines are such is the event the standard dispatches at the blank line behind it |
| `ResponseValidation.Validator.ValidateResponse` | review-runtime/native_gateway.py:299-348 | the verdict in the source's order of checks and what it takes out of the shared budget; a refused response takes nothing |
| `ResponseValidation.RequestedSome` | review-runtime/native_gateway.py:341-343 | retrieval is requested exactly when some call is read, grep or glob |
| `ResponseValidation.VerdictExactlyWhen` | review-runtime/native_gateway.py:299-348 | when each refusal is given and when a grant: no call in a diff-only review, text, names and arguments within the limit, every call known and well formed, retrieval allowed and within the budget; and the charge |
| `StreamFilter.Filter.ReadTools` | review-runtime/native_gateway.py:418-434 | the tool fragments of a choice are added to the calls as the specification adds them, with every accounted byte and the first error |
| `StreamFilter.Filter.ReadChoices` | review-runtime/native_gateway.py:404-436 | the same for all choices of a frame |
| `StreamFilter.Filter.TakeFrame` | review-runtime/native_gateway.py:376-449 | one frame is dropped, passed or held as specified, or the error raised |
| `StreamFilter.Filter.Feed` | review-runtime/native_gateway.py:367-457 | a call on any chunk computes the byte machine of the specification, gives out what newly passed, and raises where that fails or the pending limit is passed |
| `StreamFilter.Filter.Finish` | review-runtime/native_gateway.py:459-471 | held bytes come out only if nothing is pending, no private error was seen and, once a tool was seen, the accumulated calls are granted by the validator; otherwise an error and no bytes |
| `FilterStreams.ChunksDoNotMatter` | review-runtime/native_gateway.py:367-457 | what passed, what is held and what was accumulated depend on the bytes alone; after an error what had passed is that of an accepted prefix |
| `FilterStreams.MergeIsAccepted` | review-runtime/native_gateway.py:450-456 | merging neighbouring chunks of an accepted stream is accepted with identical bytes out |
| `FilterStreams.FramesAreTheInput` | review-runtime/native_gateway.py:371-375 | the frames in order and the unfinished tail are the upstream bytes |
| `FilterStreams.WholeIsFrames` | review-runtime/native_gateway.py:367-449 | filtering the bytes is filtering the frames one after the other |
| `FilterStreams.FirstToolIsFirst` | review-runtime/native_gateway.py:433-440 | the frame from which bytes are held is the first tool frame |
| `FilterStreams.FramesAreSorted` | review-runtime/native_gateway.py:437-449 | before the first tool frame exactly the public frames pass; from there on exactly the frames that are neither private nor heartbeats are held |
| `FilterStreams.BytesOut` | review-runtime/native_gateway.py:437-449 | for every accepted chunking `feed` has given out the public frames before the first tool frame and holds, from there on, every frame that is neither private nor a heartbeat |
| `FilterStreams.NothingPassesEarly` | review-runtime/native_gateway.py:439-449 | on every stream, failed ones included, what `feed` gave out is a beginning of the public frames before the first tool frame of the response |
| `FilterStreams.ToolFramesComeOutExactlyWhen` | review-runtime/native_gateway.py:367-471 | over feeds and finish together, bytes from the first tool frame on come out if and only if the stream is accepted to its end, complete, without private error, and the accumulated calls are granted; then they are all frames but private ones and later heartbeats, otherwise none |
| `FilterStreams.SizeCheckCannotFire` | review-runtime/native_gateway.py:311-318 | the calls of an accepted stream are within the accounted bytes, so the size check of the final validation never refuses |
| `FilterLimits.FrameFailsExactlyWhen` | review-runtime/native_gateway.py:376-449 | a frame is refused, and for which reason, if and only if it is malformed, its text and fragments pass the limit, or what is then held passes the limit and 64 KiB |
| `FilterLimits.AcceptedExactlyWhen` | review-runtime/native_gateway.py:367-457 | a response is accepted, for every chunking, if and only if none of its frames is refused and the unfinished frame fits at the end of each read, in 256 KiB for a private error and in the limit otherwise |
| `FilterLimits.ToolsAreReleasedExactlyWhen` | review-runtime/native_gateway.py:459-471 | a response with a tool frame is cleared if and only if it is accepted, complete, without private error, and its calls, joined from its fragments, are known, well formed and within limit and budget |
| `FilterLimits.ReleasedCallsAreSound` | review-runtime/native_gateway.py:319-340 | a byte from the first tool frame on comes out only if every call is known and well formed |
| `FilterLimits.FinishExactlyWhen` | review-runtime/native_gateway.py:459-471 | how finish ends, in order: unfinished frame, last private error, verdict, release of what is held |
| `BatchParser.ToolCalls` | review-runtime/native_gateway.py:242-278 | the parser of a whole body computes the calls of its blocks in order, or fails at the first malformed one |
| `BatchParser.BlocksSayTheSame` | review-runtime/native_gateway.py:248-249 | the blocks between separators carry the same data as the filter's frames followed by the tail |
| `BatchParser.AccumulatorRefinesBatch` | review-runtime/native_gateway.py:242-278 | on every stream the filter accepts to its end, for every chunking, its ordered calls are those of the parser run on the whole body |
| `BatchParser.ParserFailsExactlyWhen` | review-runtime/native_gateway.py:242-278 | the parser fails if and only if some piece has data, other than the end mark, that decodes to an object with malformed choices |
| `CallAccumulation.CallsAreTheFragments` | review-runtime/native_gateway.py:418-436 | over every accepted stream, for every chunking, one call per key in the order of the keys' first fragments, name and arguments joined from that key's fragments in stream order |
| `CallAccumulation.ParsedCallsAreTheFragments` | review-runtime/native_gateway.py:262-277 | the same for the parser of whole bodies |
| `CallAccumulation.AddToolJoins` | review-runtime/native_gateway.py:434-435 | a fragment goes to the end of its own call and to no other |
| `GatewayAdmission.NativeGateway.Admit` | review-runtime/native_gateway.py:684-703 | gone, replay with the first call id, already running, or admitted and registered, in this order |
| `GatewayAdmission.NativeGateway.MarkFailed` | review-runtime/native_gateway.py:800-802 | the first failed call of a fingerprint is recorded and never overwritten |
| `GatewayAdmission.NativeGateway.Complete` | review-runtime/native_gateway.py:888-891 | the request leaves the running ones and, if it failed, is recorded as failed unless it already was |
| `GatewayAdmission.NativeGateway.NotifyFailure` | review-runtime/native_gateway.py:488-499 | only the first failure of a session is handed on |
| `GatewayAdmission.NativeGateway.Close` | review-runtime/native_gateway.py:523-525 | the gateway is no longer active and nothing else changes |
| `GatewayAdmission.Always` | review-runtime/native_gateway.py:684-703 | over every interleaving, maps, handlers and history tell the same story about every fingerprint |
| `GatewayAdmission.LogIsSound` | review-runtime/native_gateway.py:684-703 | every history of a fingerprint is admitted, forwarded, finished well, repeated, then at most one failure and nothing more |
| `GatewayAdmission.ForwardsDoNotOverlap` | review-runtime/native_gateway.py:698-702 | between two forwards of one fingerprint the first has finished, and well |
| `GatewayAdmission.FailureIsLast` | review-runtime/native_gateway.py:690-697 | after a failed forward nothing of that fingerprint is admitted, forwarded or finished |
| `GatewayAdmission.FirstFailureKept` | review-runtime/native_gateway.py:800-802 | the call id a replay is answered with never changes |
| `GatewayAdmission.NothingAfterClose` | review-runtime/native_gateway.py:684-689 | no admission follows the close |
| `GatewayAdmission.NothingIsArmedAfterClose` | review-runtime/native_gateway.py:722-726 | nor is a connection registered after it |
| `GatewayAdmission.AnswerExactlyWhen` | review-runtime/native_gateway.py:684-703 | read off the log: admitted if and only if the gateway is open, the deadline has not passed and the request is new or last finished well; a blocked replay names the call in the way |
| `GatewayAdmission.BudgetIsKept` | review-runtime/native_gateway.py:341-348 | with a positive budget, over every interleaving, what is used is the sum of granted retrieval calls and never exceeds the budget |
| `GatewayAdmission.ExhaustedGrantsNothing` | review-runtime/native_gateway.py:344-348 | once the budget is used up no response with retrieval calls is granted any more |
| `GatewayAdmission.ExhaustedOffersOnlyTheResult` | review-runtime/native_gateway.py:666-672 | every request prepared after that offers at most the result tool |
| `GatewayAdmission.OffersExactly` | review-runtime/native_gateway.py:660-676 | what a request offers: no tool in a diff-only review, only the result tool with the budget used up or near the deadline, otherwise every declared tool |
| `GatewayAdmission.FinishingIsGrantedNoRetrieval` | review-runtime/native_gateway.py:341-343 | a request told to finish is never granted a retrieving call, even with budget left |
| `EventDelivery.EventReporter.constructor` | review-runtime/native_session.py:251-284 | a reporter opens with the readable events after the cursor, closed when it recovers |
| `EventDelivery.EventReporter.Emit` | review-runtime/native_session.py:286-304 | a numbered event goes to the queue and to the spool, or nothing happens once closed |
| `EventDelivery.EventReporter.TakeBatch` | review-runtime/native_session.py:317-322 | at most the first 50 events |
| `EventDelivery.EventReporter.Acknowledge` | review-runtime/native_session.py:326-339 | the queue loses what the batch holds next, event by event, and the cursor on disk moves to the batch's last number |
| `EventDelivery.EventReporter.DeleteIfDone` | review-runtime/native_session.py:353-354 | the spool goes exactly when the reporter is closed and its queue empty |
| `EventDelivery.AcceptedIsPrefix` | backend/ai_review/session_events.py:193-216 | whatever batch of emitted events the server accepts, it keeps holding a prefix of the emitted events, and at least up to the batch's last |
| `EventDelivery.StretchIsAccepted` | backend/ai_review/session_events.py:193-216 | a stretch that starts no later than where the server is, is accepted whole, repeated or not |
| `EventDelivery.GapIsRefused` | backend/ai_review/session_events.py:209-211 | a batch with a hole before it is refused whole |
| `ServerAnswers.TakenExactlyWhen` | backend/ai_review/session_events.py:250-271 | for any store and any post: taken if and only if it holds 1 to 100 events, leaves no gap and contradicts nothing known, and the store grows by just what is new |
| `ServerAnswers.ContradictionIsRefused` | backend/ai_review/session_events.py:199-208 | another event under a known number spoils the whole post |
| `EventDelivery.StoreIsPrefix` | review-runtime/native_session.py:306-354 | over every run with lost and repeated posts, crashes and recoveries, the server holds exactly the first k emitted events, the cursor is at most k, and only events on disk were posted |
| `EventDelivery.QueueIsBacklog` | review-runtime/native_session.py:272-282 | the queue is exactly the events after the cursor if and only if, after a restart, none of those has a broken line |
| `EventDelivery.BatchIsAccepted` | backend/ai_review/session_events.py:193-216 | every batch posted is accepted whole, with the store that results, unless a restart dropped an event before the batch's last that the server lacks, and then it is refused whole |
| `EventDelivery.RoundDelivers` | review-runtime/native_session.py:306-341 | one undisturbed round moves server and cursor to the end of the batch of up to 50 and takes it off the queue; a blocked one changes nothing |
| `EventDelivery.BacklogDrains` | review-runtime/native_session.py:306-354 | with no dropped event the server lacks before the last readable one, finitely many undisturbed rounds empty the queue, and then the server has everything up to there; without a restart, everything |
| `EventDelivery.DeletedMeansDelivered` | review-runtime/native_session.py:353-365 | in every run, if the spool is gone and the last line does not break, the server has every event |
| `EventDelivery.BreakingTailCanBeLost` | review-runtime/native_session.py:274-282 | and for every emitted sequence whose last line breaks some run deletes the spool without delivering it |
| `EventDelivery.OnlyPostedIsPopped` | review-runtime/native_session.py:327-329 | whatever is acknowledged, an event not in the batch stays queued |
| `EventRecovery.OpenedReads` | review-runtime/native_session.py:272-282 | a reporter that finds a spool queues exactly the readable events behind the cursor, in order, and counts on from the last readable one |
| `EventRecovery.StrandedStays` | review-runtime/native_session.py:274-282 | after a restart or crash, an event with a broken line that neither the server nor any batch under way has never reaches the server, in any continuation |
| `EventRecovery.StrandedBlocksForGood` | backend/ai_review/session_events.py:209-211 | if a readable line follows it, in every continuation the server stays before it, the queue non-empty and the spool in place |
| `EventRecovery.EveryEventCanArriveExactlyWhen` | review-runtime/native_session.py:306-354 | from any state of any run, some continuation brings the server every event if and only if none is stranded |
| `EventRecovery.SpoolCanGoExactlyWhen` | review-runtime/native_session.py:353-365 | some continuation deletes the spool if and only if no stranded event is followed by a readable line |
| `EventRecovery.BrokenLineCanBeStranded` | review-runtime/native_session.py:297-301 | for every emitted sequence and every broken line in it some run strands it, with everything before it delivered |
| `EventRecovery.TwoEventsAreBlocked` | review-runtime/native_session.py:274-282 | two events, the first with a broken line, and a restart before the first post: whatever follows, the server has nothing and the spool stays |
| `SessionLifecycle.SessionRun.Abort` | review-runtime/native_session.py:995-1001 | the cancel flag is set, the status changes only if it is not terminal, nothing happens once done |
| `SessionLifecycle.SessionRun.Emit` | review-runtime/native_session.py:539-547 | nothing is emitted once a terminal event was, nor by the collecting thread once events are frozen |
| `SessionLifecycle.SessionRun.Compaction` | review-runtime/native_session.py:765-780 | the beginning of a compaction is noted once, its end always |
| `SessionLifecycle.SessionRun.EmitTerminal` | review-runtime/native_session.py:549-561 | a compaction under way is noted first, then emissions are closed and the event's number becomes the final one |
| `SessionLifecycle.SessionRun.Conclude` | review-runtime/native_session.py:1319-1322 | completed unless the cancel flag is set |
| `SessionLifecycle.SessionRun.Handle` | review-runtime/native_session.py:1324-1343 | a handler silences the collecting thread, announces the error with the status the cancel flag decides, and settles on it |
| `SessionLifecycle.SessionRun.PersistTerminal` | review-runtime/native_session.py:563-578 | undisturbed, a result still missing on disk is written, then the record, then memory is released; a failing write leaves the status unknown and the rest as it was |
| `SessionLifecycle.SessionRun.Acknowledge` | review-runtime/native_session.py:584-598 | the result is released exactly when status, digest, final number, closed stream and cursor allow it |
| `SessionLifecycle.TerminalSession.Acknowledge` | review-runtime/native_session.py:1423-1433 | the same for a session known only by its record |
| `SessionLifecycle.Always` | review-runtime/native_session.py:1140-1385 | over every interleaving of run, poster, cancellations, acknowledgements, network, crashes and restarts, status, events, result file, record and server agree |
| `SessionLifecycle.FinalIsLast` | review-runtime/native_session.py:549-561 | the final number is the largest ever emitted, and without an uncaught exception there is one |
| `SessionLifecycle.AcknowledgedWhenDelivered` | review-runtime/native_session.py:584-592 | a live session is acknowledged only when the server has accepted every event, by the final number and the announced digest; without a final number only after an uncaught exception and a failed record |
| `SessionLifecycle.RecordAcknowledgedWhenDelivered` | review-runtime/native_session.py:1423-1428 | the same through the record, but for a run that announced no end and whose last line broke |
| `SessionLifecycle.ReleasedMeansDelivered` | review-runtime/native_session.py:584-598 | without an uncaught exception, a result is released only after the server has accepted every event |
| `SessionLifecycle.ReleasedResultIsBackExactlyWhen` | review-runtime/native_session.py:563-578 | with the record written, a released result's file is there if and only if the last acknowledgement came between the unlocked look in memory and the write; without such an acknowledgement it is gone for good |
| `SessionLifecycle.ResultOutlivesCompletion` | review-runtime/native_session.py:1305-1318 | once the server holds a completion, the result with its digest is on disk through every crash until it is released |
| `SessionLifecycle.CancelledInTimeNeverCompletes` | review-runtime/native_session.py:1319-1322 | a run cancelled before its last locked check never has the status completed, in memory or on disk |
| `SessionLifecycle.StatusMatchesLastEvent` | review-runtime/native_session.py:1305-1366 | without an uncaught exception, the recorded status is completed exactly when the last event is the completion with the recorded digest, and otherwise the last event carries it |
| `SessionLifecycle.TerminalEventsComeLast` | review-runtime/native_session.py:1310-1343 | a terminal event is the last one, or a completion followed only by an error |
| `SessionLifecycle.CompletionRevokedExactlyWhen` | review-runtime/native_session.py:1319-1343 | in every recorded run without an uncaught exception an announced completion is taken back if and only if a cancellation came before the last locked look at the flag |
| `SessionLifecycle.CompletionCanBeRevoked` | review-runtime/native_session.py:1319-1327 | for every result some run announces it and then takes it back |
| `SessionRuns.PersistIsItsSteps` | review-runtime/native_session.py:563-578 | the separate tests and writes, uninterrupted, are the method, whichever of the two writes fails |
| `SessionRuns.HandleIsItsSteps` | review-runtime/native_session.py:1324-1343 | the separate steps of an error, uninterrupted, leave row and reporter as the handler does |
| `SessionRuns.ReleasedResultCanComeBack` | review-runtime/native_session.py:564-565 | for every result some run leaves a null behind after the release, and some run the result itself |
| `SessionRuns.UnrecordedCanBeReleasedUndelivered` | review-runtime/native_session.py:586-592 | for every sequence of notes some run emits it, escapes, fails to write its record and is acknowledged while the server lacks an event |
| `SessionRuns.RecordedCanBeReleasedUndelivered` | review-runtime/native_session.py:1423-1428 | the same through the record for every sequence of notes whose last line breaks, dropped by a restart |
| `SessionReleases.RecordSaysWhatIsThere` | review-runtime/native_session.py:567-578 | in every run the record says available if and only if the result file is there, and agrees with memory; a cancelled run that has not ended says aborting |
| `SessionReleases.RecordFollowsTheStream` | review-runtime/native_session.py:575-577 | while the run is known the record says closed if and only if reporter and posting thread are through |
| `SessionReleases.LastEventNamesStatus` | review-runtime/native_session.py:1310-1366 | recorded status and last event name each other, word by word |
| `SessionReleases.DoneIsNotCancelled` | review-runtime/native_session.py:996-998 | a cancellation after the end changes nothing |
| `SessionReleases.LiveReleasesExactlyWhen` | review-runtime/native_session.py:584-598 | a listed session with nothing left to post is released if and only if its status is terminal, its reporter closed, and digest and number are its own |
| `SessionReleases.RecordReleasesExactlyWhen` | review-runtime/native_session.py:1423-1433 | with the stream closed the record releases if and only if digest and number are its own and the cursor has reached the last event, which it has unless that event's line is broken |
| `SessionReleases.DeliveredCanBeReleased` | review-runtime/native_session.py:345-354 | once the posting thread has ended with nothing left and the record written, announced digest and final number release, unless the last line is broken |
| `SessionReleases.CompletedIsReleasedByRecord` | review-runtime/native_session.py:1423-1433 | for every result some run completes, dies, comes back and is released through its record |
| `SessionReleases.DeliveredCanStayUnreleased` | review-runtime/native_session.py:1426-1427 | for every result some run whose last line is broken is with the server and never released, in any continuation |
| `SessionRegistry.NativeSessions.Execute` | review-runtime/native_session.py:1488-1536 | the decision in the source's order of checks; on a start the binding, the batch record and the run, otherwise nothing |
| `SessionRegistry.StartsExactlyWhen` | review-runtime/native_session.py:1488-1528 | a start is decided if and only if the protocols do not mix, no abort is on disk, the previous session is over and recorded, no run of the job is at work, and the session has no binding, run or record |
| `SessionRegistry.NativeSessions.Abort` | review-runtime/native_session.py:1548-1571 | the batch record is cancelled first, then the binding, created as never started if there was none; an identity conflict stops in between |
| `SessionRegistry.NativeSessions.Release` | review-runtime/native_session.py:1538-1542 | a run is forgotten only once its terminal record exists |
| `SessionRegistry.ExecuteIsItsSteps` | review-runtime/native_session.py:1529-1536 | the separate writes, uninterrupted, are the method |
| `SessionRegistry.AbortIsItsSteps` | review-runtime/native_session.py:1554-1571 | the same for an abort |
| `RegistryAnswers.AnswersExactlyWhen` | review-runtime/native_session.py:1488-1528 | when each of the eight answers to an execution is given, on the files and runs themselves |
| `RegistryAnswers.RetryFindsTheRun` | review-runtime/native_session.py:1515-1519 | over every run, a repeated execution of a session at work finds it, unless it or its job was aborted |
| `RegistryAnswers.StartedIsFound` | review-runtime/native_session.py:1529-1536 | the moment a session is registered the same request finds it |
| `RegistryAnswers.AbortLeaves` | review-runtime/native_session.py:1554-1571 | in every reachable state an abort of a pair that is not foreign leaves its own binding cancelled, with the batch record where there is one, marked never started if there was none; nothing else changes |
| `RegistryAnswers.AbortEndsInRefusal` | review-runtime/native_session.py:1554-1571 | when an abort ends in any interleaving, of a pair not foreign or a batched job, every later execution in any continuation is turned away |
| `RegistryAnswers.ForeignAbortDoesNothing` | review-runtime/native_session.py:1560-1567 | a foreign pair of a job not batched changes nothing |
| `SessionRegistry.Always` | review-runtime/native_session.py:1488-1571 | with a crash possible between any two writes, every started session is bound, and is its job's current one or has left a terminal record |
| `SessionRegistry.OneChildPerJob` | review-runtime/native_session.py:1489-1511 | over every run, with crashes that spare children, a job has at most one child alive: always if not batched, and if its session ids are its own if batched |
| `SessionRegistry.ReuseDefeatsIt` | review-runtime/native_session.py:1498-1504 | for any two jobs sharing a session id some run has two children of the batched one alive |
| `SessionRegistry.StartedOnce` | review-runtime/native_session.py:1508-1526 | a session is started at most once in a job, across all restarts |
| `SessionRegistry.UnbatchedStartsOne` | review-runtime/native_session.py:1508-1526 | a job that is not batched starts one session ever, the bound one |
| `SessionRegistry.BatchedStartsInTurn` | review-runtime/native_session.py:1498-1504 | every started session of a batched job but the current one has a terminal record |
| `SessionRegistry.AbortedIsTurnedAway` | review-runtime/native_session.py:1489-1514 | an aborted job is refused under either protocol, whatever memory holds |
| `SessionRegistry.AbortIsFinal` | review-runtime/native_session.py:1554-1571 | from the first durable write of an abort on, through crashes, the job stays aborted and none of its sessions starts |
| `SessionRegistry.NeverStartedNeverStarts` | review-runtime/native_session.py:1564-1571 | a session marked never started had not started and never does, and stays marked |
| `SessionRegistry.StoppedStaysStopped` | review-runtime/native_session.py:1572-1584 | with the abort on disk and any run of it cancelled, a session without a child has none ever after |
| `SessionRegistry.NeverStartedIsStopped` | review-runtime/native_session.py:1581 | a session marked never started has neither run nor child |
| `DiagnosticsQuota.RawDiagnostics.Append` | review-runtime/raw_diagnostics.py:225-262 | the checks in order, the accounting in task and shared usage, and a failure that is final |
| `DiagnosticsQuota.RawDiagnostics.AppendReserve` | review-runtime/raw_diagnostics.py:264-286 | what still fits the reserve is written and taken from it, or nothing changes |
| `DiagnosticsQuota.RawDiagnostics.ReserveEdges` | review-runtime/raw_diagnostics.py:288-297 | state and usage after the one or two appends to the reserve, each meeting its own disk |
| `DiagnosticsQuota.EdgesUseUpExactlyWhen` | review-runtime/raw_diagnostics.py:291-297 | a body too long for the reserve uses it up if and only if there is room for both ends, and then its first and last bytes are kept, not overlapping |
| `DiagnosticsQuota.EdgesKeepWholeExactlyWhen` | review-runtime/raw_diagnostics.py:292-294 | a shorter one is kept whole if and only if there is room for it, and otherwise nothing changes |
| `DiagnosticsQuota.TaskWithinLimits` | review-runtime/raw_diagnostics.py:225-286 | for any sequence of calls, ordinary bytes stay within TASK_LIMIT minus the reserve, reserve bytes within the reserve |
| `DiagnosticsQuota.OfferIsSavedExactlyWhen` | review-runtime/raw_diagnostics.py:225-262 | over every run, an offer is saved if and only if nothing failed before, it is not empty, the disk takes it, and there is room beside the reserve, under the global limit and on the disk; otherwise it ends capture and changes no file |
| `DiagnosticsQuota.ArchiveOpensExactlyWhen` | review-runtime/raw_diagnostics.py:545-553 | an archive is begun if and only if its estimate fits beside every byte known and on the disk |
| `DiagnosticsQuota.ReserveIsRefusedOnlyElsewhere` | review-runtime/raw_diagnostics.py:272-275 | the TASK_LIMIT test of the reserve path never refuses |
| `DiagnosticsQuota.UsageIsExact` | review-runtime/raw_diagnostics.py:549-569 | with tasks and archives interleaved, global usage is what was found plus all task bytes, archives and the open reservation, so a rollback never clamps |
| `DiagnosticsQuota.UsageWithinLimit` | review-runtime/raw_diagnostics.py:549-569 | it never exceeds the global limit while archives stay within their estimates |
| `DiagnosticsQuota.OversizedCanOverrun` | review-runtime/raw_diagnostics.py:560-565 | any archive larger than its estimate can push it over |
| `DiagnosticsQuota.SavedIsPrefix` | review-runtime/raw_diagnostics.py:230-247 | every ordinary file is a prefix of what was offered for it, and all of it while nothing failed |
| `DiagnosticsCapture.StreamCapture.ProcessLog` | review-runtime/raw_diagnostics.py:450-466 | one chunk of the process log as specified, with the append it makes |
| `DiagnosticsCapture.StreamCapture.ModelResponseChunk` | review-runtime/raw_diagnostics.py:413-427 | one chunk of a known response: counts, tail and append; an unknown one changes nothing |
| `DiagnosticsCapture.StreamCapture.EventChunk` | review-runtime/raw_diagnostics.py:312-323 | the deque loop leaves the longest fitting run of last chunks, the window after a failure gets what is left of it, the stream the chunk |
| `DiagnosticsCapture.ProcessLogIsKept` | review-runtime/raw_diagnostics.py:450-466 | for every chunking and any other calls in between, with no failure exactly the first 4 MiB and the last 1 MiB of the rest are kept and truncation is marked exactly past 4 MiB; after one, a prefix; in any case truncation is marked if and only if something is missing |
| `DiagnosticsCapture.ResponsesAreKept` | review-runtime/raw_diagnostics.py:413-427 | each response file is a prefix of the response, the whole without a failure; the tail is its last 1 MiB; truncation is marked if and only if something is missing or a chunk was empty |
| `DiagnosticsCapture.EventTailIsLongest` | review-runtime/raw_diagnostics.py:313-317 | the event tail is the longest run of last chunks within its limit |
| `DiagnosticsCapture.FailureWindowIsBounded` | review-runtime/raw_diagnostics.py:318-321 | the failure window is offered the tail at the first failure and the first 1 MiB after it, for every chunking |
| `DiagnosticsCapture.FailureWindowIs` | review-runtime/raw_diagnostics.py:318-330 | that is, the longest fitting run of last chunks at the failure and the first 1 MiB of the chunks after it |
| `DiagnosticsCapture.WindowIsWholeExactlyWhen` | review-runtime/raw_diagnostics.py:264-286 | for any calls, what is on disk of the failure window is what was offered if and only if no append to it was larger than what was left of the reserve or met no room |
| `DiagnosticsCapture.WindowCanHaveAHole` | review-runtime/raw_diagnostics.py:318-321 | a chunk refused after the failure and the next one taken: the file lacks the first |

## Left out

- BacklogDrains: undisturbed rounds; no claim that a network ever becomes undisturbed.
- A posting thread that ends at its first failure after the reporter is closed (review-runtime/native_session.py:339-341): here it may also try again, as it does after the next restart.
- JSON grammar, SHA-256, base64 and zip: abstract functions or sizes. The filter's handling of lone surrogates, whose UTF-8 encoding raises, is not modelled.
- HTTP clients and servers, sockets, signals and the process table: only "child alive", "child gone", "post delivered", "answer heard".
- The bodies of the private error frames: only whether a frame is one, a malformed one, or none.
- Validation of the fields of an execute request and the check of an orphan's command line: each would be read off one branch.
- `sanitize_repository_instructions`, `leading_system_messages` and `request_fingerprint`: edits of a request before admission; a fingerprint is a given string here.
- The answer given locally to a tools-free request and other replies that never reach the broker.
- Partial writes, and disk errors while spooling.
- A fragment of a broken spool line that is itself a JSON value other than an object ends the recovery of all spools; only dropping is modelled.
- RecordAcknowledgedWhenDelivered: takes each writing of the terminal record, from building it to replacing the file, as one step; the poster's last rewrite (review-runtime/native_session.py:345-350) reads and writes without a lock and can undo that of an acknowledgement.
- A second reporter on the spool of an earlier session with the same id; the registry rules it out within a job.
- Redaction, truncation and counters on the server: a deterministic function of the event that does not decide acceptance.
- Expiry clean-up of diagnostics, which drops the cached global usage; recomputing usage from the files; rows loaded from a manifest, on which only archiving is possible.
- Threads inside one reserve append: the slice is taken before the lock; the call is one step here.
- `finish_process_log`, frame and payload records, and the manifest: further appends to files of their own.
- `CLICollector` in `review-runtime/executor.py`: the same chunk invariance once more, and easier.
