# Verified models of a peer-to-peer stack and its process checkers

The repository holds `p2p-frame`, a Rust peer-to-peer stack, and Python scripts that check how changes to it are
made. This project models the parts whose correctness depends on many steps at once, and proves what those parts
are for. `dafny verify dfyconfig.toml` verifies all of it.

## What is modelled

**Control streams** (`Control*.dfy`). Two runtimes share one reliable ordered link and multiplex streams over it.
`ControlRuntime` gives each handled frame and each API call as a function on values; `ControlClasses` has the
runtime, the read half and the write half as classes whose methods and loops are proved equal to those functions.
`ControlEndpoint` adds the users of a runtime (opening, reading, writing, dropping, timing out, closing) as steps of
one endpoint, and `ControlNet` runs two endpoints against each other's logs of sent frames, in every interleaving.
`ControlBase` is the invariant of all runs. `ControlLog`, `ControlFresh` and `ControlFreshSteps` carry the invariant
of runs in which no stream id is used twice: every half of a stream agrees with the log of its own side and with the
part of the other side's log it has handled. That ids are not used twice is proved from the number of opens (at most
2^31 - 1 per side), not assumed. `ControlShutdown` follows the end of a stream from a successful shutdown to the last poll of
the reader. `ControlExample` has two concrete runs, and `ControlRace` looks at the one place where
calls as single steps hide something: closing a runtime while calls are between two of their locks.

**Rust masker and test-only changes** (`Rust*.dfy`). The lexer that blanks comments and literals, the search for
items under `#[cfg(test)]`, and the comparison that decides that only such items changed. `RustResync` shows that the lexer,
after text it reads the same way, comes to every item in the same state whatever the item was replaced by; `RustSeams` concludes
which markers of the compared text stand for items.

**Task graphs and wave logs** (`TaskGraph.dfy`, `WaveSchedule.dfy`), **stage receipts** (`StageReceipts.dfy`).

**Signing budget, probe packets, port prediction, tunnel ids, activity leases, subscriptions, endpoints**
(`SigningBudget.dfy`, `ProbePacket.dfy`, `PortPrediction.dfy`, `TunnelIds.dfy`, `TunnelActivity.dfy`,
`Subscriptions.dfy`, `EndpointCodec.dfy`).

Runs are sequences of states in which each state follows from the one before by an enabled step; theorems about runs
hold for every run and every position in it. Clocks, answers of callbacks and listeners, outcomes of sends and polls,
and digests are inputs. Sections that the code executes under one lock are one step.

## Where the code does not do what one would hope

- A flush between a pending write and its re-poll discards the length of the write, and the caller sends the same bytes
  again (`ControlWriter.FlushDuplicates`). `ControlWriter.ReportedIsSent` says exactly when reported and sent bytes agree.
- A shutdown of a writer that a broken send has closed succeeds, although no Fin was ever sent
  (`ControlWriter.BrokenThenShutdown`); `ControlWriter.ShutdownMeansFin` says that this is the only way.
- After a Reset error has been reported, the next read looks like a clean end of stream
  (`ControlExample.EndAfterResetLooksClean`); `ControlNet.CleanEndIsComplete` therefore speaks of readers that saw no Reset.
- A call that has passed the check of the closed flag, but has not yet put its channel into a map when the runtime is closed,
  registers it after the maps were drained: the reader of such a stream is never told (`ControlRace.AcceptedAfterClose`,
  `ControlRace.StrandedForever`). `ControlRace.LeavesExactly` says that this is the only way.
- If both versions spell the marker in their production text as code, that text can change and still pass as a test-only change
  (`RustMarkerCollision.MarkerInTextIsUnsound`). If one of them has it at most in comments and literals the check is exact
  (`RustSeams.AcceptsExactlyTestChanges`), so it is for every file whose `#[cfg(test)]` items all end
  (`RustMarkerCollision.EndingItemsAreEnough`).
- Advancing or returning writes the receipts before the stage. If the stage line of the manifest is indented, an advance stores
  its receipt and the stage is not written (`StageReceipts.AdvanceWithoutMoving`). If in addition a change has a field of that name
  at the start of a line, the completion checks refuse every advance, but a return runs none: it cuts the receipts, overwrites that
  field without an error and leaves the stage (`StageReceipts.ReturnWithoutMoving`). `StageReceipts.ReceiptsInOrder` says exactly
  when receipts and stage stay in step.
- The signing budget reads the clock before it takes the lock. If no attempt is more than some skew behind one that was handled
  before it, every window of a second less the skew holds at most 128 admissions (`SigningBudget.RunsStayInBudget`), and no longer
  window is safe (`SigningBudget.OvertakingExceedsBudget`).
- An IPv6 endpoint that does not fit its buffer is refused only after three bytes of the buffer were overwritten
  (`EndpointCodec.RawEncode`).

The private `NatPredictionHint::from_observations` would cut 65536 observations to a count of 65535 and give an unusable hint
(`PortPrediction.OneTooMany`), but no caller can reach it: its only caller refuses more than 65535, and
`PortPrediction.ProfileHints` shows that every hint of a profile is usable.

## Model

| member | source | states |
|---|---|---|
| `ControlNet.ReadsArePrefixes` | p2p-frame/src/networks/control_stream.rs:256-444 | in every run of two runtimes, the bytes read at either end of a stream are a prefix of the bytes put on the link by the writer at the other end |
| `ControlNet.NothingLostWhileRegistered` | p2p-frame/src/networks/control_stream.rs:385-430 | while a stream is registered and its reader alive, bytes read, bytes left of the current chunk and bytes queued are together a prefix of what the other writer sent, and all of it once the link is drained |
| `ControlNet.CleanEndIsComplete` | p2p-frame/src/networks/control_stream.rs:519-553 | a reader told of the end of the stream without an earlier Reset has read every byte the other writer ever sent, and that writer is done |
| `ControlExample.EndAfterResetLooksClean` | p2p-frame/src/networks/control_stream.rs:534-551 | the run of eight steps on which the previous claim fails without its proviso: the reader was told of a Reset, then reports end of stream, and has read nothing of the byte the other writer sent |
| `ControlExample.EndsCleanly` | p2p-frame/src/networks/control_stream.rs:141-709 | a run of eleven steps through listen, open, write, shutdown and reads, at whose end the reader has the byte that was written and has been told of the end |
| `ControlShutdown.ShutdownIsFinal` | p2p-frame/src/networks/control_stream.rs:669-709 | in every run, after a shutdown of an open writer has succeeded, the link has carried the Fin of the stream exactly once, and the writer sends nothing more |
| `ControlShutdown.FinIsRead` | p2p-frame/src/networks/control_stream.rs:432-551 | once the Fin of a registered stream was handled, a reader that is still there can poll on with buffers of any sizes: it is given everything the other writer put on the link and then the end, and no poll waits or fails |
| `ControlShutdown.FinStays` | p2p-frame/src/networks/control_stream.rs:432-437 | from then on the end is the last item of the queue or has been read, whatever frames, closes and other calls follow |
| `ControlShutdown.FinQueued` | p2p-frame/src/networks/control_stream.rs:432-437 | handling the Fin appends exactly the end to what is queued |
| `ControlShutdown.ReadsToEnd` | p2p-frame/src/networks/control_stream.rs:519-553 | one poll for each byte still to be read and one more hand out everything and report the end |
| `ControlNet.OpenAgreement` | p2p-frame/src/networks/control_stream.rs:176-217 | a successful open has exactly one counterpart on the other side, accepted there for the same id and the same purpose |
| `ControlNet.AcceptedWasAdmitted` | p2p-frame/src/networks/control_stream.rs:275-361 | every accepted half stems from a handled Open of its id and purpose, at a moment with a listener that admits the purpose, a free peer id and a successful prepare |
| `ControlNet.AnswersAreFinal` | p2p-frame/src/networks/control_stream.rs:363-383 | over whole runs a pending open is resolved at most once, whatever frames, timeouts and closes follow |
| `ControlNet.LateAnswersChangeNothing` | p2p-frame/src/networks/control_stream.rs:363-367 | an answer to an open that is no longer pending leaves the endpoint as it was |
| `ControlNet.QueuesAlwaysHaveRoom` | p2p-frame/src/networks/control_stream.rs:385-444 | in every run with calls as single steps, reuse of ids or not: registered queues hold only data and keep the terminal slot free; pending ids are local, accepted ids the peer's, the maps disjoint; a stream taken down under a live reader ends in exactly one terminal item |
| `ControlNet.ClosedForever` | p2p-frame/src/networks/control_stream.rs:237-254 | with calls as single steps, after the first close both maps and the listener stay empty and the first reason stays, to the end of the run |
| `ControlRace.LeavesExactly` | p2p-frame/src/networks/control_stream.rs:237-254 | with the lock sections of calls as steps: closing can leave a channel registered in a drained map if and only if a call is between its check of the closed flag and its insert when the flag is swapped |
| `ControlRace.ClosesCleanly` | p2p-frame/src/networks/control_stream.rs:237-254 | if no call is, both maps are empty in every state after the drains and every stream registered at the swap got its terminal item |
| `ControlRace.SectionMeaning` | p2p-frame/src/networks/control_stream.rs:180-444 | what each lock section of a call does to the maps |
| `ControlRace.CloserMeaning` | p2p-frame/src/networks/control_stream.rs:237-254 | what the swap, the drains and a cleanup do |
| `ControlRace.CaughtCall` | p2p-frame/src/networks/control_stream.rs:180-191 | from every open state with such a call, an interleaving in which its channel is registered after the drains, without a terminal item |
| `ControlRace.AcceptedAfterClose` | p2p-frame/src/networks/control_stream.rs:230-319 | the shortest such run: an accepted open checks, the runtime is closed and drained, the open inserts |
| `ControlRace.StrandedForever` | p2p-frame/src/networks/control_stream.rs:237-240 | such a stream stays registered and is never given a terminal item, whatever follows |
| `ControlNet.RunBase` | p2p-frame/src/networks/control_stream.rs:141-507 | the structural invariant of both endpoints holds in every state of every run |
| `ControlNet.RunFresh` | p2p-frame/src/networks/control_stream.rs:481-502 | while at most 2^31 - 1 opens were made per side, both endpoints agree with both logs, and no id was used twice |
| `ControlBase.StepBase` | p2p-frame/src/networks/control_stream.rs:176-444 | every step of an endpoint keeps the structural invariant |
| `ControlBase.OpenEnds` | p2p-frame/src/networks/control_stream.rs:193-217 | an open answered with success hands out a live reader, any other leaves none; a dropped open leaves neither reader nor waiter; afterwards none is pending |
| `ControlFreshSteps.StepFresh` | p2p-frame/src/networks/control_stream.rs:176-444 | every step keeps the agreement of all stream halves with the two logs |
| `ControlFreshSteps.ReceiveFresh` | p2p-frame/src/networks/control_stream.rs:219-273 | so does handling any frame, whether or not the reply reaches the link |
| `ControlFresh.NextIdIsNew` | p2p-frame/src/networks/control_stream.rs:481-498 | within the bound on opens the allocator's next id has never been used in the run |
| `ControlLog.DigestGrows` | p2p-frame/src/networks/control_stream.rs:256-273 | what a prefix of a lawful log says about a stream is a prefix of what the whole log says, and final once a Fin was seen |
| `ControlRuntime.DeliverValid` | p2p-frame/src/networks/control_stream.rs:385-430 | delivery keeps the invariant, and its arm for a full queue can never be taken |
| `ControlRuntime.DeliveredOrDown` | p2p-frame/src/networks/control_stream.rs:385-430 | data is queued exactly when the reader is alive and fewer than 1024 items wait; otherwise exactly this stream goes down, with the overflow as its last item and the code of the Reset to send; no other channel changes |
| `ControlRuntime.SendMeaning` | p2p-frame/src/networks/control_stream.rs:385-430 | a channel takes 1025 items, and a send tells a full one from one without a reader |
| `ControlRuntime.FinishedOrReset` | p2p-frame/src/networks/control_stream.rs:432-444 | a Fin or Reset appends the end, or the reason of the reset, to the queue of a live reader and unregisters the stream; nothing else changes |
| `ControlRuntime.OpenAnswered` | p2p-frame/src/networks/control_stream.rs:275-361 | each of the six answers to an open with its exact condition, and the runtime afterwards |
| `ControlRuntime.AnsweredOpen` | p2p-frame/src/networks/control_stream.rs:363-383 | what an answer does to the pending open, its waiter and the stream map |
| `ControlRuntime.FrameReplies` | p2p-frame/src/networks/control_stream.rs:256-273 | which frame is sent back for which frame, with its code |
| `ControlRuntime.ClosedAll` | p2p-frame/src/networks/control_stream.rs:237-254 | closing appends the reason to every registered or pending queue with a live reader, fails every waiter, and keeps everything else |
| `ControlTypes.ResultCodes` | p2p-frame/src/networks/tunnel.rs:118-133 | which results stand for which error code |
| `ControlRuntime.HandleOpenRespValid` | p2p-frame/src/networks/control_stream.rs:363-383 | an answer keeps both maps well formed and disjoint |
| `ControlRuntime.CloseAllValid` | p2p-frame/src/networks/control_stream.rs:237-254 | closing keeps the invariant for every channel, registered, pending or neither |
| `ControlRuntime.StepsReach` | p2p-frame/src/networks/control_stream.rs:481-498 | the wrapping counter reaches every id of its parity |
| `ControlClasses.ControlStreamRuntime.AllocStreamId` | p2p-frame/src/networks/control_stream.rs:481-498 | whenever an id of the local parity is free the loop ends, at the first free one: nonzero, of local parity, in neither map |
| `ControlClasses.ControlStreamRuntime.FirstFree` | p2p-frame/src/networks/control_stream.rs:482-497 | the loop stops at the first free value of the counter |
| `ControlClasses.ControlStreamRuntime.ListenWithPrepare` | p2p-frame/src/networks/control_stream.rs:165-174 | sets the listener, or reports the close reason of a closed runtime and leaves it as it was |
| `ControlClasses.ControlStreamRuntime.BeginOpen` | p2p-frame/src/networks/control_stream.rs:176-197 | a closed runtime reports its reason and is unchanged; otherwise exactly one pending open is added under a fresh id |
| `ControlClasses.ControlStreamRuntime.HandleOpen` | p2p-frame/src/networks/control_stream.rs:275-361 | which of the six answers is given, and that every answer but success leaves the stream map as it was |
| `ControlClasses.ControlStreamRuntime.HandleOpenResp` | p2p-frame/src/networks/control_stream.rs:363-383 | the answered open leaves the pending map, and is registered exactly if it succeeded and its waiter was still there |
| `ControlClasses.ControlStreamRuntime.Deliver` | p2p-frame/src/networks/control_stream.rs:385-430 | data is queued, or the stream is taken down by overflow or a vanished reader and the failure to report is returned |
| `ControlClasses.ControlStreamRuntime.FinishStream` | p2p-frame/src/networks/control_stream.rs:432-437 | the stream is unregistered and exactly the end is appended to the queue of its reader; other streams are untouched |
| `ControlClasses.ControlStreamRuntime.ResetStream` | p2p-frame/src/networks/control_stream.rs:439-444 | the same with the reset reason as the last item |
| `ControlClasses.ControlStreamRuntime.CloseAll` | p2p-frame/src/networks/control_stream.rs:237-254 | the two draining loops give every registered and pending channel its terminal item, once, and a second close changes nothing |
| `ControlClasses.ControlStreamRuntime.OnData` | p2p-frame/src/networks/control_stream.rs:219-273 | oversized payloads close the runtime, undecodable ones change nothing, frames are handled as specified |
| `ControlClasses.ControlStreamRead.PollRead` | p2p-frame/src/networks/control_stream.rs:519-553 | bytes handed out and bytes left are together what was left before, and never more than the buffer holds |
| `ControlReader.PollReadConserves` | p2p-frame/src/networks/control_stream.rs:519-553 | one poll loses, repeats and reorders nothing |
| `ControlReader.ZeroReadMeaning` | p2p-frame/src/networks/control_stream.rs:534-551 | a read of zero bytes into a buffer with room happens exactly at End, at the end of the channel, or for an empty chunk |
| `ControlReader.FailureMeaning` | p2p-frame/src/networks/control_stream.rs:534-551 | a poll fails exactly with the reason of the terminal item it comes to, and waits exactly for an empty queue with a sender |
| `ControlReader.ReadAllIsConcatenation` | p2p-frame/src/networks/control_stream.rs:519-553 | for all chunks and all sequences of buffer sizes the polls give a prefix of the concatenation, and all of it after enough polls |
| `ControlWriter.CallFrames` | p2p-frame/src/networks/control_stream.rs:580-712 | a call sends nothing, a chunk of 1 to 61440 bytes, a Fin, or both in that order; after a Fin nothing ever follows |
| `ControlWriter.ShutdownMeaning` | p2p-frame/src/networks/control_stream.rs:669-709 | the frames of a shutdown, its three answers with their exact conditions, and that one that succeeds on an open writer has sent the Fin last |
| `ControlWriter.FlushMeaning` | p2p-frame/src/networks/control_stream.rs:655-667 | the same for flush |
| `ControlWriter.WriteMeaning` | p2p-frame/src/networks/control_stream.rs:629-653 | the same for write: the chunk is the one in flight or the first min(length, 61440) bytes of the source, and its length is what is reported |
| `ControlWriter.ShutdownMeansFin` | p2p-frame/src/networks/control_stream.rs:580-709 | over whole sequences of calls on an open runtime: when a shutdown succeeds the Fin has been sent, once and last, if and only if no send broke before |
| `ControlWriter.BrokenThenShutdown` | p2p-frame/src/networks/control_stream.rs:598-606 | the two calls after which a shutdown succeeds without a Fin |
| `ControlWriter.ReportedIsSent` | p2p-frame/src/networks/control_stream.rs:629-653 | for callers that re-poll, the bytes reported as accepted are the bytes sent if and only if no send completes in a flush or shutdown with a write in flight, or in a write during which the runtime closes |
| `ControlWriter.LosesUnreported` | p2p-frame/src/networks/control_stream.rs:580-653 | those are exactly the calls that put bytes on the link without reporting them |
| `ControlWriter.CarefulCallersAreTold` | p2p-frame/src/networks/control_stream.rs:629-709 | callers that never flush or shut down with a write pending, on a runtime that does not close during a poll, are told of exactly the bytes sent |
| `ControlWriter.FlushDuplicates` | p2p-frame/src/networks/control_stream.rs:655-661 | the run in which a flush makes the caller send its bytes twice |
| `ControlClasses.ControlStreamWrite.PollPendingWrite` | p2p-frame/src/networks/control_stream.rs:580-613 | the in-flight write is completed, failed or kept, and its length reported once |
| `ControlClasses.ControlStreamWrite.PollWrite` | p2p-frame/src/networks/control_stream.rs:629-653 | the frames sent, the answer and the new writer state for every source and every answer of the link |
| `ControlClasses.ControlStreamWrite.PollFlush` | p2p-frame/src/networks/control_stream.rs:655-667 | the same for flush |
| `ControlClasses.ControlStreamWrite.PollShutdown` | p2p-frame/src/networks/control_stream.rs:669-709 | the same for shutdown; one that succeeds on an open writer has sent the Fin, after the chunk in flight |
| `RustMask.MaskedText` | harness/scripts/stage-scope-check.py:478-563 | the masked text has the length and line breaks of the source, changes characters only to spaces, and contains no double quote, `//` or `/*` |
| `RustMask.MaskedIsCode` | harness/scripts/stage-scope-check.py:506-561 | at no position of the masked text does a comment, raw string, string or character literal start; `RustLiterals.TokenMeaning` says what these are |
| `RustMask.MaskFixpoint` | harness/scripts/stage-scope-check.py:478-563 | masking twice is masking once |
| `RustMask.MaskChar` | harness/scripts/stage-scope-check.py:483-485 | exactly the characters of code survive; everything in a comment or literal is blanked |
| `RustMask.RustLexicalMask` | harness/scripts/stage-scope-check.py:478-563 | the one-index loop with its nesting counter ends on every text and computes the token-by-token specification |
| `RustLiterals.StringEndMeaning` | harness/scripts/stage-scope-check.py:535-547 | a string ends after its first quote with an even number of backslashes before it, or with the text |
| `RustLiterals.RawEndMeaning` | harness/scripts/stage-scope-check.py:518-526 | a raw string ends after the first quote followed by as many hashes as it was opened with, or with the text |
| `RustLiterals.NestedCommentIsOneToken` | harness/scripts/stage-scope-check.py:490-516 | a block comment with comments nested to any depth is one token that ends exactly where it was closed |
| `RustLiterals.TokenMeaning` | harness/scripts/stage-scope-check.py:506-561 | in plain characters: which comment or literal starts at a position, with which prefixes, and where it ends; a character is code exactly when none starts there |
| `RustLiterals.CharMeaning` | harness/scripts/stage-scope-check.py:554 | a character literal is an optional b, a quote, an escape or one character, and a quote, and ends there |
| `RustLiterals.RawMeaning` | harness/scripts/stage-scope-check.py:518 | a raw string starts with r, br or cr, at most 255 hashes and a quote |
| `RustLiterals.StringMeaning` | harness/scripts/stage-scope-check.py:528-534 | a string starts with a quote, alone or after b or c |
| `RustLiterals.TokenIsBlank` | harness/scripts/stage-scope-check.py:483-485 | every comment or literal the lexer comes to is blanked from its first to its last character |
| `RustLiterals.CharLiteralIsBlank` | harness/scripts/stage-scope-check.py:552-560 | so is a character literal with the brace or quote in it |
| `RustTestSpans.SpansAreTheTestItems` | harness/scripts/stage-scope-check.py:566-598 | the spans are in bounds, increasing and disjoint; each runs from an attribute to the `;` or matching brace that ends its item; no attribute whose item ends is missed |
| `RustTestSpans.ItemEndMeaning` | harness/scripts/stage-scope-check.py:573-597 | the depth counter finds the matching brace if there is one, and nothing otherwise |
| `RustTestSpans.ItemEndIs` | harness/scripts/stage-scope-check.py:573-597 | in plain characters: the first semicolon or brace behind the attribute decides, and a brace is closed where for the first time as many braces were closed as opened, by count |
| `RustTestSpans.SpaceMeaning` | harness/scripts/stage-scope-check.py:31 | the white space of the regular expression by code point |
| `RustTestSpans.AttributeMeaning` | harness/scripts/stage-scope-check.py:31 | an attribute is matched exactly when a hash and its six words are there with any white space between them, and its end is unique |
| `RustTestSpans.CfgTestItemSpans` | harness/scripts/stage-scope-check.py:566-598 | the loop over all matches returns exactly those spans |
| `RustSeams.AcceptsExactlyTestChanges` | harness/scripts/stage-scope-check.py:614-631 | if in either version every production text that spells the marker is in a comment or a literal, whatever the test items and the other version hold, a change is accepted if and only if the versions differ, there is a test item, and the production text agrees piece by piece; then deleting the items gives the same text |
| `RustSeams.ProjectionDetermines` | harness/scripts/stage-scope-check.py:601-611 | as many pieces with the same projection are the same pieces, when one version spells the marker only in comments and literals |
| `RustSeams.SeamsAreCode` | harness/scripts/stage-scope-check.py:601-611 | wherever the projection replaced an item, the lexer run over the projected text is between two tokens and reads the marker as code |
| `RustSeams.CodeMarkersAreSeams` | harness/scripts/stage-scope-check.py:601-611 | conversely every marker it reads as code stands for an item, if no production text spells it as code |
| `RustSeams.LackingIsText` | harness/scripts/stage-scope-check.py:606-611 | production text without the marker meets that condition |
| `RustMarkerCollision.EndingItemsAreEnough` | harness/scripts/stage-scope-check.py:573-611 | so does every file in which each attribute of the masked text has an item that ends |
| `RustResync.NextSame` | harness/scripts/stage-scope-check.py:506-561 | a comment, literal or character of code that ends before an item is the same token when the item is replaced by other text that starts with an attribute |
| `RustProjection.RustProductionProjection` | harness/scripts/stage-scope-check.py:601-611 | the cursor loop returns the production pieces joined by the marker, and the number of items |
| `RustProjection.RustInlineTestOnlyChange` | harness/scripts/stage-scope-check.py:614-631 | the answer for any path, present or absent file, and present or absent baseline |
| `RustMarkerCollision.MarkerInTextIsUnsound` | harness/scripts/stage-scope-check.py:606-610 | two concrete files that are accepted although their production text differs |
| `TaskGraph.CheckTaskGraph` | harness/scripts/pipeline-plan-check.py:318-382 | ends on every plan and accepts exactly those whose rows have filled columns, distinct ids, one of the four stages with the mode its place demands, every stage in the stage table, known parents, and dependencies on other rows of no later stage without a cycle; accepted rows can be sorted, and whatever it reports otherwise is a fault of the rows |
| `TaskGraph.DependencyWalk.Visit` | harness/scripts/pipeline-plan-check.py:368-377 | the recursive visit ends; it leaves a dependency-closed, sorted set of visited tasks or returns a chain that shows a cycle |
| `TaskGraph.CheckCycles` | harness/scripts/pipeline-plan-check.py:365-380 | accepted if and only if no task needs itself transitively |
| `TaskGraph.CheckReferences` | harness/scripts/pipeline-plan-check.py:354-363 | accepted if and only if every parent is known and every dependency is known, another task and not of a later stage |
| `TaskGraph.LoadTasks` | harness/scripts/pipeline-plan-check.py:318-348 | accepted if and only if ids are distinct and every row is filled in, names a stage and has the mode that stage demands; otherwise the first row at fault, with its fault |
| `TaskGraph.CheckRow` | harness/scripts/pipeline-plan-check.py:326-346 | exactly which fault a row is refused for: an empty or placeholder column, a taken id, an unknown stage or the wrong mode |
| `TaskGraph.CheckStages` | harness/scripts/pipeline-plan-check.py:350-352 | accepted if and only if every stage has a row in the stage table |
| `TaskGraph.GoodRowsFit` | harness/scripts/pipeline-plan-check.py:334-346 | in the graph of accepted rows exactly the tasks from the first automatic stage on are automatic |
| `TaskGraph.TasksAreRows` | harness/scripts/pipeline-plan-check.py:318-348 | the graph has exactly the ids of the rows, and each task the dependencies, parent, mode and place of its own row |
| `TaskGraph.PlanIsGraph` | harness/scripts/pipeline-plan-check.py:318-380 | a plan is good over its rows if and only if its graph is |
| `TaskGraph.Rank` | harness/scripts/pipeline-plan-check.py:20-21 | design, implementation, testing and acceptance have the places 0 to 3, and nothing else has one |
| `TaskGraph.FilledMeans` | harness/scripts/pipeline-plan-check.py:49-54 | a column is filled in unless it is one of eight words for nothing or has something in angle brackets |
| `TaskGraph.TopologicalIsAcyclic` | harness/scripts/pipeline-plan-check.py:368-380 | a graph with a topological order of all tasks has no cycle |
| `TaskGraph.ShownCycle` | harness/scripts/pipeline-plan-check.py:370-371 | the chain printed on failure proves that there is one |
| `WaveSchedule.CompleteLogIsTopological` | harness/scripts/pipeline-plan-check.py:857-932 | a complete accepted log launches every automatic task, first of all strictly after all automatic tasks it needs transitively |
| `WaveSchedule.AcceptedPipelineIsTopological` | harness/scripts/pipeline-plan-check.py:1164-1167 | the same from the three checks together, over the rows of the plan and the recorded file of a complete pipeline |
| `WaveSchedule.LaunchesAfterDependencies` | harness/scripts/pipeline-plan-check.py:908-926 | whenever a wave launches a task, each transitive dependency was launched in an earlier wave or, if manual, is finished |
| `WaveSchedule.StartedNeedsFinished` | harness/scripts/pipeline-plan-check.py:848-852 | a started task has all transitive dependencies finished |
| `WaveSchedule.GoodPlansCanComplete` | harness/scripts/pipeline-plan-check.py:857-932 | every graph that can be sorted has a complete log that is accepted |
| `WaveSchedule.CheckTaskState` | harness/scripts/pipeline-plan-check.py:833-854 | accepted if and only if the file records one of six statuses for exactly the tasks, tasks running or further have all dependencies confirmed or complete, and for completion every task is |
| `WaveSchedule.StatusesOf` | harness/scripts/pipeline-plan-check.py:839-847 | statuses are read if and only if every entry is an object with a text status, and each is the text recorded for its task |
| `WaveSchedule.WavesOf` | harness/scripts/pipeline-plan-check.py:884-893 | the waves are the recorded arrays of ids |
| `WaveSchedule.CheckSchedulerState` | harness/scripts/pipeline-plan-check.py:857-932 | accepted if and only if the four settings have their texts, waves and reasons have their shapes, every wave is a set of automatic tasks whose dependencies were launched earlier or are finished and, for completion, every automatic task was launched |
| `StageReceipts.ReceiptsInOrder` | harness/scripts/task-transition.py:111-139 | a run of advance, complete, return and arbitrary edits has, in every state, the receipts of the stages before the current one or all five, if and only if no advance in it gets to write an indented stage line, and no return writes the stage of a manifest whose parsed stage line is not the one line that starts with the key |
| `StageReceipts.StepInOrder` | harness/scripts/task-transition.py:107-139 | one step keeps the order if and only if it is not such an advance or return |
| `StageReceipts.CheckedIsRewritable` | harness/scripts/harness-check.py:50-66 | in a manifest whose change fields the completion checks let through, the parsed stage line is the one to be rewritten if and only if it is not indented |
| `StageReceipts.AdvanceMoves` | harness/scripts/task-transition.py:116-119 | an advance that passes its checks has stored its receipt, and the stage follows if and only if its line is not indented |
| `StageReceipts.ReturnMoves` | harness/scripts/task-transition.py:134-137 | for return: the receipts are cut, and the stage follows if and only if its line can be rewritten |
| `StageReceipts.WriteReadsBack` | harness/scripts/task-transition.py:80-88 | writing another stage succeeds and is what the parser reads next if and only if the parsed line is the only one that starts with the key; otherwise the parsed stage stays |
| `StageReceipts.ReachesAcceptance` | harness/scripts/task-transition.py:111-120 | from every beginning with all inputs, a test run and a stage line that can be rewritten, one advance for each stage leads to acceptance, in order |
| `StageReceipts.IndentedIsNotRewritten` | harness/scripts/task-transition.py:82-84 | an indented stage line is parsed and passes the look at the change fields, but is never rewritten |
| `StageReceipts.AdvanceWithoutMoving` | harness/scripts/task-transition.py:111-120 | with that manifest the first advance stores the receipt and leaves the stage |
| `StageReceipts.DecoyIsRewritten` | harness/scripts/task_manifest.py:58-113 | with a field named stage at the start of a line in the list of changes, that line is rewritten in place of the parsed one, and no error is reported; the completion checks refuse that manifest |
| `StageReceipts.ReturnWithoutMoving` | harness/scripts/task-transition.py:134-137 | from every ordered state in acceptance, an edit to that manifest and a return cut the receipts and leave the stage in acceptance |
| `StageReceipts.VerifyMeansUnchanged` | harness/scripts/lifecycle-check.py:336-388 | with a collision-free hash the receipts verify, at any point of any run, if and only if every required stage was recorded and neither the bound manifest nor any input or test run of it has changed since |
| `StageReceipts.AdvanceExactly` | harness/scripts/task-transition.py:107-120 | in an ordered state the check for missing prior receipts never fires: the stage advances if and only if the change fields are known, its inputs are there and its line is not indented; without the last the receipt is stored all the same, without the others nothing changes |
| `StageReceipts.CompleteExactly` | harness/scripts/task-transition.py:123-132 | complete stores the receipt of acceptance, and then all five are there, if and only if the stage is acceptance, the report is accepted, the checks pass and the inputs are there; otherwise nothing changes |
| `StageReceipts.ReceiptMeaning` | harness/scripts/lifecycle-check.py:282-298 | when there is a receipt for a stage, and the schema, digests and test run it holds |
| `StageReceipts.BindingMeaning` | harness/scripts/lifecycle-check.py:347-363 | which bindings are accepted under which schema |
| `StageReceipts.ParseTaskManifest` | harness/scripts/task_manifest.py:58-113 | the loop over the lines refuses exactly repeated fields, a second list of changes and fields of no change, and finds the stage |
| `StageReceipts.KnownFieldNames` | harness/scripts/harness-check.py:41-42 | the four fields of a change that the completion checks know |
| `StageReceipts.LifecycleState.RecordStage` | harness/scripts/lifecycle-check.py:309-324 | records the stage and drops all later receipts, or changes nothing if an earlier one is missing |
| `StageReceipts.LifecycleState.ClearFrom` | harness/scripts/lifecycle-check.py:327-333 | keeps exactly the receipts before the stage |
| `SigningBudget.AdmitsLikeFullHistory` | p2p-frame/src/sn/nat_probe.rs:105-134 | when attempts are handled in the order of their clocks, one is admitted exactly when fewer than 128 of all admissions lie within the last second and fewer than 4 permits live |
| `SigningBudget.AdmitsWithinSkew` | p2p-frame/src/sn/nat_probe.rs:105-134 | with skew, admitted attempts have fewer than 128 admissions within a second less the skew, and attempts with fewer than 128 within a second and the skew are admitted |
| `SigningBudget.RunsStayInBudget` | p2p-frame/src/sn/nat_probe.rs:36-43 | in every run in which no attempt is more than the skew behind one handled before it, every half-open window of a second less the skew holds at most 128 admissions, at most 4 permits live, and the queue stays within 128 |
| `SigningBudget.WindowBound` | p2p-frame/src/sn/nat_probe.rs:114-122 | if the 128th successor of every admission comes a span later, in whatever order the times are, no window of that span holds more than 128 |
| `SigningBudget.OvertakingExceedsBudget` | p2p-frame/src/sn/nat_probe.rs:105-122 | for every skew a run with 129 admissions in a window one tick longer than that: the bound is exact |
| `SigningBudget.AtZeroReachable` | p2p-frame/src/sn/nat_probe.rs:105-134 | the state that run starts from is reached |
| `SigningBudget.SigningContext.Acquire` | p2p-frame/src/sn/nat_probe.rs:105-134 | the pruning loop and the two limits, as the specification function says |
| `SigningBudget.SigningContext.DropPermit` | p2p-frame/src/sn/nat_probe.rs:66-76 | gives one permit back and leaves the queue alone |
| `ProbePacket.ResponsesAreCanonical` | p2p-frame/src/sn/nat_probe.rs:331-446 | a packet decodes to a response if and only if it is the encoding of that response |
| `ProbePacket.RequestsAreCanonical` | p2p-frame/src/sn/nat_probe.rs:311-329 | the same for requests |
| `ProbePacket.RequestBytes` | p2p-frame/src/sn/nat_probe.rs:311-320 | every byte of a request |
| `ProbePacket.ResponseBytes` | p2p-frame/src/sn/nat_probe.rs:331-391 | every byte of a response, with high bytes first |
| `ProbePacket.EncodableMeans` | p2p-frame/src/sn/nat_probe.rs:331-363 | which responses can be sent |
| `ProbePacket.KindsExclude` | p2p-frame/src/sn/nat_probe.rs:490-497 | no packet is both |
| `ProbePacket.PreimageInjective` | p2p-frame/src/sn/nat_probe.rs:448-471 | the signed bytes determine signer id and fields |
| `ProbePacket.PreimageBytes` | p2p-frame/src/sn/nat_probe.rs:448-488 | the signed bytes, spelled out |
| `ProbePacket.DomainsSeparate` | p2p-frame/src/sn/nat_probe.rs:473-488 | no response preimage is a calibration preimage |
| `ProbePacket.SignatureBindsResponse` | p2p-frame/src/sn/nat_probe.rs:393-471 | accepted packets whose signatures cover the same bytes agree on signer, token, address and signature length |
| `ProbePacket.VerifierSeesSignedBytes` | p2p-frame/src/sn/nat_probe.rs:136-170 | a verifier of an encoded response recomputes exactly the bytes that were signed |
| `ProbePacket.WriteRequest` | p2p-frame/src/sn/nat_probe.rs:311-320 | the buffer filled in place is the encoding |
| `ProbePacket.WriteResponseFields` | p2p-frame/src/sn/nat_probe.rs:331-363 | the same for the fields of a response, and exactly when it is refused |
| `ProbePacket.PlaceSignature` | p2p-frame/src/sn/nat_probe.rs:152-168 | a signature of the calibrated length completes the encoding; any other leaves the packet untouched |
| `PortPrediction.UsableIsObservable` | p2p-frame/src/nat_type.rs:87-119 | the hints usable with their own last endpoint are exactly those that at most 65535 observations give |
| `PortPrediction.ObservedUsable` | p2p-frame/src/nat_type.rs:49-83 | a hint from observations is usable if and only if there were at most 65535 |
| `PortPrediction.HintMeaning` | p2p-frame/src/nat_type.rs:49-83 | exactly which observations give exactly which hint |
| `PortPrediction.UsableElsewhere` | p2p-frame/src/nat_type.rs:87-119 | a hint can be used from another base if and only if it can from its last endpoint and the base has that address |
| `PortPrediction.HintOffered` | p2p-frame/src/nat_type.rs:213-245 | what any profile offers at a time, also one received from elsewhere |
| `PortPrediction.OneTooMany` | p2p-frame/src/nat_type.rs:79 | the 65536 observations for which it would not be; the only caller, at line 189, never passes them |
| `PortPrediction.PredictedPorts` | p2p-frame/src/nat_type.rs:124-152 | the loop returns the longest run of at most min(limit, 8) steps inside 1..65535; its duplicate filter never fires |
| `PortPrediction.RunIsUnique` | p2p-frame/src/nat_type.rs:124-152 | there is only one such run |
| `PortPrediction.PredictionContinues` | p2p-frame/src/nat_type.rs:124-152 | observed and predicted ports together are one arithmetic progression |
| `PortPrediction.ProfileHints` | p2p-frame/src/nat_type.rs:184-245 | a profile offers exactly the hint of its observations, for exactly the whole microseconds of its time to live |
| `PortPrediction.ProfileMapping` | p2p-frame/src/nat_type.rs:184-236 | a profile says nothing outside its life, non-symmetric if all observed addresses agree pairwise, and symmetric otherwise |
| `TunnelIds.LaterCompares` | p2p-frame/src/types.rs:162-177 | an id made k calls later compares greater for k up to 2^31 - 1 and less from there to the end of the period, across wrap-around and the skipped zero |
| `TunnelIds.FullCycle` | p2p-frame/src/types.rs:222-229 | any 2^32 - 1 calls one after the other hand out every nonzero id exactly once, and then start over |
| `TunnelIds.OverlappingCallsDiffer` | p2p-frame/src/types.rs:222-229 | however calls overlap, the ids handed out in 2^32 fetches of the counter are nonzero and pairwise distinct |
| `TunnelIds.CompareOpposite` | p2p-frame/src/types.rs:162-177 | the comparison is antisymmetric and equal only for equal ids |
| `TunnelIds.CompareMeaning` | p2p-frame/src/types.rs:162-177 | when one id comes before another: zero before all, otherwise by the nearer way round |
| `TunnelIds.CallAlone` | p2p-frame/src/types.rs:222-229 | a call that nobody overtakes hands out the id and leaves the counter that the sequential specification says |
| `TunnelIds.Generator.Generate` | p2p-frame/src/types.rs:222-229 | the second fetch after a zero, as the specification function says |
| `TunnelActivity.CountersAreGuards` | p2p-frame/src/networks/tunnel.rs:327-522 | in every interleaving the two counters are the numbers of outstanding guards, no guard is of both kinds, and the recorded times are those of the latest activity and of the latest work begun |
| `TunnelActivity.RetiredForever` | p2p-frame/src/networks/tunnel.rs:397-415 | after retirement guards only go away, none is handed out, and no later check retires again |
| `TunnelActivity.IdleRetirementIsFinal` | p2p-frame/src/networks/tunnel.rs:397-411 | once an idle check answered yes both counters stay zero in every later state and no guard is handed out |
| `TunnelActivity.IdleRetiresExactly` | p2p-frame/src/networks/tunnel.rs:397-411 | it answers yes if and only if the tunnel is live, no guard is outstanding and nothing happened within the timeout |
| `TunnelActivity.StaleCheckRefuses` | p2p-frame/src/networks/tunnel.rs:402-405 | a check whose clock was read before the latest activity refuses and changes nothing |
| `TunnelActivity.StaleCheckHappens` | p2p-frame/src/networks/tunnel.rs:397-411 | a run with such a check, and a later one that retires the tunnel |
| `TunnelActivity.LiveSections` | p2p-frame/src/networks/tunnel.rs:320-357 | what each section under the lock does to a live tunnel |
| `TunnelActivity.RetiredSections` | p2p-frame/src/networks/tunnel.rs:320-357 | that a retired tunnel hands out nothing |
| `TunnelActivity.DropSections` | p2p-frame/src/networks/tunnel.rs:490-522 | that dropped guards give their count back, never below zero, and note the time |
| `TunnelActivity.Shared.Begin` | p2p-frame/src/networks/tunnel.rs:327-338 | counts and returns a fresh active guard, or refuses when retired |
| `TunnelActivity.Shared.Acquire` | p2p-frame/src/networks/tunnel.rs:340-357 | counts and returns exactly as many distinct active guards as asked for, or refuses |
| `TunnelActivity.Shared.RetireIfIdle` | p2p-frame/src/networks/tunnel.rs:397-411 | retires as specified |
| `TunnelActivity.Shared.NoteActivity` | p2p-frame/src/networks/tunnel.rs:320-325 | the latest time becomes the given one unless retired; nothing else changes |
| `TunnelActivity.Shared.RetireNow` | p2p-frame/src/networks/tunnel.rs:413-415 | retires whatever is outstanding; no counter and no time changes |
| `TunnelActivity.PendingGuard.PromoteTo` | p2p-frame/src/networks/tunnel.rs:468-487 | consumes the guard whatever the answer, and exchanges its count for work guards unless retired |
| `TunnelActivity.PendingGuard.Drop` | p2p-frame/src/networks/tunnel.rs:490-502 | gives the count back once; a promoted guard gives nothing back |
| `TunnelActivity.WorkGuard.Drop` | p2p-frame/src/networks/tunnel.rs:509-522 | gives the count back once |
| `Subscriptions.EntrySurvives` | p2p-frame/src/networks/net_manager.rs:286-303 | an entry stays as registered, with a live guard, until its own guard is dropped or its own callback answers no; calls in flight for earlier subscribers cannot remove it |
| `Subscriptions.RemovedForGood` | p2p-frame/src/networks/net_manager.rs:245-268 | a removed entry never returns under the same owner token |
| `Subscriptions.AnswerNoRemoves` | p2p-frame/src/networks/net_manager.rs:422-437 | a legacy subscriber that answers no is gone for the rest of the run, whoever registers for its id afterwards |
| `Subscriptions.CalledWasRegistered` | p2p-frame/src/networks/net_manager.rs:397-410 | a callback in flight was the registered one when its tunnel was published |
| `Subscriptions.AcceptedByRegistered` | p2p-frame/src/networks/net_manager.rs:384-445 | an accepted tunnel was accepted by the callback that was registered when it was published |
| `Subscriptions.OutcomeIsFinal` | p2p-frame/src/networks/net_manager.rs:326-458 | a finished dispatch is accepted and never closed, or rejected and closed exactly once, for the rest of the run |
| `Subscriptions.NetManager.DispatchTunnel` | p2p-frame/src/networks/net_manager.rs:326-369 | through all branches: accepted exactly if the validator accepts, a subscriber is found and it answers yes; closed once if and only if rejected; the table afterwards; and the phases the runs go through |
| `Subscriptions.NetManager.PublishTunnel` | p2p-frame/src/networks/net_manager.rs:384-458 | the same from the lookup on, with the table as other calls left it when the callback returns |
| `Subscriptions.RejectedForAReason` | p2p-frame/src/networks/net_manager.rs:347-458 | a rejected tunnel of a run was refused by the validator, found no subscriber, or was refused by its callback |
| `Subscriptions.DispatchWaits` | p2p-frame/src/networks/net_manager.rs:326-458 | nothing but its own events moves a dispatch, however many other calls come in between |
| `Subscriptions.EntriesHaveGuards` | p2p-frame/src/networks/net_manager.rs:245-458 | in every run each entry has a live guard for its id, and only rejected dispatches have been closed |
| `Subscriptions.DispatchRuns` | p2p-frame/src/networks/net_manager.rs:326-458 | a dispatch that nobody interferes with is accepted exactly if the validator, the table and the callback say so, and otherwise closed once |
| `Subscriptions.Registers` | p2p-frame/src/networks/net_manager.rs:245-268 | a registration adds the entry of the kind asked for with a token never used, exactly for a free id |
| `Subscriptions.DropsOwnEntry` | p2p-frame/src/networks/net_manager.rs:286-303 | a dropped guard removes its own entry and no other |
| `Subscriptions.TableMeaning` | p2p-frame/src/networks/net_manager.rs:422-437 | the table after an answer |
| `Subscriptions.NetManager.RegisterSubscription` | p2p-frame/src/networks/net_manager.rs:245-268 | succeeds exactly for an id that is not taken, adds that entry and no other; otherwise the table is as it was |
| `Subscriptions.NetManager.UnregisterOwned` | p2p-frame/src/networks/net_manager.rs:286-303 | removes the entry only while the owner still holds it; every other entry stays |
| `EndpointCodec.DecodesEncoded` | p2p-frame/src/endpoint.rs:464-649 | decoding an encoding followed by any bytes gives the endpoint, without flow and scope, and exactly those bytes |
| `EndpointCodec.EncodesDecoded` | p2p-frame/src/endpoint.rs:528-649 | encoding what was decoded reproduces the bytes read, with flag bit 7 cleared |
| `EndpointCodec.EncodingIsPrefixFree` | p2p-frame/src/endpoint.rs:597-649 | an encoding determines its endpoint up to flow and scope and is never the start of another |
| `EndpointCodec.EncodedBytes` | p2p-frame/src/endpoint.rs:464-631 | every byte of an encoding: the codes of protocol, version and area in the first, the port with its low byte first, the address |
| `EndpointCodec.ProtocolCodes` | p2p-frame/src/endpoint.rs:464-560 | which protocols can be encoded and which codes are refused |
| `EndpointCodec.RawEncode` | p2p-frame/src/endpoint.rs:484-631 | when encoding into a buffer succeeds, what the buffer then holds, and what a refused call leaves behind |
| `EndpointCodec.ComputeFlags` | p2p-frame/src/endpoint.rs:464-481 | the accumulated bits, and that for every encodable protocol the three masks read them back and bit 7 is clear |

## Left out

- ControlNet.ReadsArePrefixes: holds while at most 2^31 - 1 streams were opened per side, because a received Reset does not close the writer and a reused id would mix two streams; the same bound is on NothingLostWhileRegistered, CleanEndIsComplete, OpenAgreement and LateAnswersChangeNothing.
- ControlNet.ClosedForever: each call is one step. Between the check of the closed flag and the insert into a map the property fails, as ControlRace.AcceptedAfterClose shows; ControlRace.LeavesExactly gives the exact condition. The same holds of the terminal item in QueuesAlwaysHaveRoom.
- ControlNet.RunBase: calls are single steps here too; ControlRace models lock sections for closing only, not for the bytes of a stream.
- ControlEndpoint.Apply: a failed send delivers nothing, a frame is on the link when its send reports success, an accepted stream is not written before its OpenResp, and a failing prepare drops the stream.
- ControlClasses.ControlStreamRuntime.OnData: the byte encoding of frames is abstract; payloads are oversized, undecodable or a frame.
- Wakers, timeouts as durations (an open may be dropped at any moment instead), and the ten-second value.
- RustSeams.AcceptsExactlyTestChanges: requires that one version spells the marker as code nowhere in its production text, that is, not as an attribute whose item never ends; when both do the claim is false, as MarkerInTextIsUnsound shows, but not for every such pair.
- ControlNet.CleanEndIsComplete: runtimes are not dropped. `TcpTunnel::drop` (p2p-frame/src/networks/tcp/tunnel.rs:3811) does not close its runtime, and a runtime dropped without closing ends its channels without a terminal item, which a reader cannot tell from a clean end.
- RustProjection.RustInlineTestOnlyChange: reading and decoding files are inputs.
- TaskGraph.CheckTaskGraph: table parsing, trimming and lower-casing are not modelled; rows are already parsed. Python's limit on the depth of recursion, which `visit` would meet on very long chains, is not modelled either.
- WaveSchedule.CheckTaskState: a value that Python cannot compare with the allowed statuses ends the script with another error; here it is a refusal like any other.
- StageReceipts.ReceiptsInOrder: manual mode only; of the completion checks only their look at the change fields is modelled, the rest and the choice of the latest test run are inputs; edits leave the value of the stage to the commands, and the migration of legacy receipts is not modelled. Manifests are already split into keys and values: repeated fields, a second list of changes and fields of no change are refused as in the parser, but malformed lines and values, which it refuses too, do not occur, and list values are not looked into.
- ProbePacket.SignatureBindsResponse: signing and verifying are not modelled, only the bytes they are given.
- TunnelIds.CompareOpposite: the derived total order of tunnel ids and the session id generator are not modelled.
- TunnelActivity.CountersAreGuards: lock poisoning, and reads and writes of the wrapped streams, are not modelled.
- Subscriptions.OutcomeIsFinal: a dispatch that is itself cancelled while it waits is not modelled; the listening loop, port mappings and listener metadata are left out.
- EndpointCodec.DecodesEncoded: text forms of endpoints, their comparison and their hashing are left out.
- The Kademlia buckets and the DHT session code, which no module list includes.
- Sockets, QUIC, TCP and TLS, certificates, configuration builders, markdown and YAML parsing, git and process handling.
