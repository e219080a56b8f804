# Remote workspace: a verified model

A Dafny model of the parts of the remote workspace plugin in which a fast, chunked or concurrent
form must agree with a simple one. `dafny verify dfyconfig.toml` checks everything.

| piece | source | modules |
|---|---|---|
| Value codec, console ledger, completion charge | `ptc-host/src/program.js` | PtcValue, PtcFlatten, PtcForest, PtcKeyOrder, PtcMarker, PtcFrames, PtcUnflatten, PtcTransfer, JsonText, Ledger, WireBytes |
| Paged text reads and the literal edit | `agent/src/fs.rs`, `src/plugin/routing/fs.ts` | Utf8, TextPaging, LiteralEdit |
| Bounded output window, its mirror, the terminal follower | `agent/src/execution.rs`, `src/plugin/routing/subprocess.ts`, `src/remote/tty.ts` | OutputWindow, RemoteTty |
| Tasks of one child, the spawn table, the blocking terminal read | `agent/src/subprocess.rs`, `agent/src/terminal.rs` | ProcessTasks, ProcessHistory, SpawnTable, TerminalRead |
| Terminal registry | `src/terminal/host/registry.ts` | RegistryState, RegistryEffects, RegistryRuns, RegistryWaits, RegistryAnswers, TerminalLines, Registry |
| Connection manager | `src/models/machines.ts` | ConnectionState, ConnectionEffects, ConnectionRuns, ConnectionRecoveries, ConnectionFresh, ConnectionTidy, Connections |
| Timestamps | `agent/src/state.rs` | Decimal, Calendar |
| Routing, wire framings | `src/models/routing.ts`, `agent/src/jsonrpc.rs`, `ptc-host/src/channel.rs` | Paths, Routing, Framing |

How it is modelled:

- Code that updates state in place is a class or a method with loops, proved against a function or
  predicate on values: the ledger, both output windows, the follower, the control channel, the
  process record, the terminal registry, the connection manager, `flatten` and `unflatten`.
- Concurrency is a state machine: every critical section, every access to shared state that no lock
  covers and every stretch of an asynchronous function between two awaits is one step. A schedule is
  a list of steps; an event that is not enabled changes nothing. Claims hold for every schedule.
- Values that cross the wire live in a heap of objects that may share and cycle. Objects list their
  keys in the order section 10.1.11.1 of ECMA-262 gives them, so creating a key such as `"7"` after
  `"a"` moves it to the front.
- Operating system calls, sockets, signals, timers and ssh are events. Bytes are integers below 256,
  JavaScript text is UTF-16 units, Rust text is Unicode scalar values.
- State kept only to state a property (every byte ever written, what a sink received, what was
  closed) is an ordinary field beside the real ones, and nothing branches on it.

Where the code and its own comments disagree, the model follows the code:

- `readFrom` of the host mirror documents `lossy` as whether *the offset* was lost
  (`src/plugin/routing/subprocess.ts:166-187`). The code answers `lossy` for every offset once
  anything was dropped; `OutputWindow.Session` says exactly when the two agree.
- "Nothing arrives after the client has seen the exit" (`agent/src/subprocess.rs:548-549`): the check
  and the queueing are separate sections, so one frame per stream can, exactly when its reader is past
  the check: `ProcessTasks.LateFrameExactlyWhen`.
- `read_message` is documented to return nothing only at a clean end of stream
  (`agent/src/jsonrpc.rs:25-28`). Every stream that ends before a blank line is reported the same way:
  `Framing.EndsAsDocumentedExactlyWhen`.
- `toAbsolute` is documented to return an absolute path (`src/models/routing.ts:69-83`). With a
  relative base it does not: `Routing.AbsoluteExactlyWhen`.
- The edit normalises, replaces and restores, to the effect of a replacement in the file as it is
  (`agent/src/fs.rs:252-300`). The effect differs when some newline is not of the style the first 4096
  characters show (mixed newlines, or a CRLF file whose newlines all come later): it is rewritten
  outside the match too; `LiteralEdit.EmptyEditKeepsExactly` says exactly for which files not. For CRLF
  files `LiteralEdit.SampleDecides` says when every edit is a replacement in the file. It also differs
  when the old text ends in a CR: `LiteralEdit.EditsRawMatchesUnlessTrailingCr`.
- A disconnect during a connection attempt does not cancel it, so the attempt can store its transport
  over another one, which then leaks: `ConnectionFresh.LeakedExactlyWhenOverwritten` says exactly
  which, `ConnectionTidy.InterruptedAttemptLeaks` is one such run. An entry that a disposal took off
  the table still counts as a holder: its attempt or connection can still close what it holds.

## Model

| member | source | states |
|---|---|---|
| PtcValue.AdmissibleArrayIsDense | ptc-host/src/program.js:121-133 | the length test on the own keys and the walk over the indices accept exactly the arrays whose own keys are their indices and `length` |
| PtcValue.AdmissibleObjectShowsAll | ptc-host/src/program.js:134-141 | an object crosses exactly when its prototype is ordinary and enumeration shows every own key |
| PtcValue.UnfoldFailsOnOffence | ptc-host/src/program.js:99-147 | a value has no tree exactly when an inadmissible value or a cycle is reachable from it |
| PtcValue.ScalarsThatCross | ptc-host/src/program.js:110-117 | exactly NaN, the infinities and negative zero are refused among scalars |
| PtcFlatten.Flatten | ptc-host/src/program.js:99-147 | on every heap the walk ends; it answers nothing exactly when the value has no tree, otherwise the pre-order of its tree; throughout, `active` is the chain of ancestors of the value being visited |
| PtcFlatten.Enter | ptc-host/src/program.js:121-145 | one container's checks: accepted exactly when admissible, with its marker and the visits of its children in reverse |
| PtcFlatten.ExpectedOfEntering | ptc-host/src/program.js:126-145 | entering a container trades its visit for its marker and its children's visits without changing what remains to be emitted, and with less work left |
| PtcForest.PreorderOfGrown | ptc-host/src/program.js:93-97 | a stream that counts out to n trees is the pre-order of exactly the trees it grows into |
| PtcForest.GrowOfPreorder | ptc-host/src/program.js:93-97 | the pre-order of proper trees counts out and grows back into those trees, so a stream spells at most one forest |
| PtcForest.SingleTree | ptc-host/src/program.js:178-228 | a stream of valid tokens is the complete pre-order of a tree exactly when it counts out to one tree, and it is that one |
| PtcForest.ForestIsLongEnough | ptc-host/src/program.js:194-201 | every tree owed takes at least one token, which is why the early `length > remaining` tests reject nothing valid |
| PtcKeyOrder.ArrangedInOrder | ptc-host/src/program.js:213-216 | creating keys in their own-key order keeps that order |
| PtcKeyOrder.OrderedIsIdentity | ptc-host/src/program.js:213-216 | a tree whose markers list keys in own-key order is left alone by JavaScript's reordering |
| PtcKeyOrder.IndexExactly | ptc-host/src/program.js:213-216 | the keys that JavaScript moves to the front are the canonical numerals of the numbers below 2^32 - 1 |
| PtcKeyOrder.ArrangedIsListed | ptc-host/src/program.js:213-216 | keys created one after the other end up with the indices first and ascending and the others in creation order |
| PtcKeyOrder.ArrangedHolds | ptc-host/src/program.js:213-216 | each created key has its value |
| PtcMarker.ContainerMarker | ptc-host/src/program.js:149-176 | the marker reader accepts exactly plain two-key objects that announce a safe length or a dense list of distinct string keys |
| PtcMarker.CopiedKeys | ptc-host/src/program.js:159-173 | the key list is copied exactly when it is dense, all strings and without duplicates |
| PtcMarker.CarriedDecodes | ptc-host/src/program.js:149-176 | tokens laid out as plain data read back as themselves |
| PtcMarker.TokensReadExactly | ptc-host/src/program.js:149-176 | a value reads as a token if and only if it is that scalar or a plain object of exactly the two properties of that marker |
| PtcFrames.CreateInserts | ptc-host/src/program.js:213-216 | defining a new property puts it where own-key order wants it, before any symbol |
| PtcFrames.RedefineReplaces | ptc-host/src/program.js:213-216 | defining a key that is there changes its value and nothing else |
| PtcFrames.StoringExtends | ptc-host/src/program.js:211-216 | storing the next child turns a container holding k children into the one holding k + 1 |
| PtcFrames.RepresentsUnfolds | ptc-host/src/program.js:178-228 | a finished object graph, built with its references below its children's, unfolds to its tree in own-key order |
| PtcFrames.StandsExtends | ptc-host/src/program.js:183-218 | consuming one token from a state that can take a value keeps: finished children intact, open containers chained, consumed tokens accounted for, missing children counted |
| PtcFrames.StandsCloses | ptc-host/src/program.js:220-225 | popping a full frame turns it into a finished child of the frame below, or into the root |
| PtcUnflatten.PoppedStack | ptc-host/src/program.js:219-225 | the frame variable outlives its token and is pushed again; every pop removes such a repetition, an exhausted leftover, or closes the innermost container |
| PtcUnflatten.StreamTreeSpells | ptc-host/src/program.js:178-228 | the tree an input names is proper and the input is its complete pre-order, and conversely |
| PtcUnflatten.Rejected | ptc-host/src/program.js:187-208 | an invalid token, more children announced than tokens remain, or a token after the root was complete: no continuation makes this a stream |
| PtcUnflatten.Unflatten | ptc-host/src/program.js:178-228 | succeeds exactly on the complete pre-order of one tree, with no trailing token, missing child or duplicate key, and builds a value that unfolds to that tree in own-key order |
| PtcUnflatten.PopExhausted | ptc-host/src/program.js:220-225 | exactly the exhausted frames on top are popped, each closing its container once, and the frame left on top still lacks a child |
| PtcTransfer.UnfoldedIsEmittable | ptc-host/src/program.js:99-147 | what flattening emits for a real object graph has valid tokens, safe lengths and keys in order |
| PtcTransfer.Transfer | ptc-host/src/program.js:93-97 | flatten, copy, unflatten: a value arrives exactly when it is lossless, as a value with the same tree |
| PtcTransfer.Echo | ptc-host/src/program.js:93-97 | unflatten then flatten: the same tree in own-key order, and the very same stream when its keys were in that order |
| JsonText.CostIsExact | ptc-host/src/program.js:238-252 | the cost of a character is the exact length of its escape, and its width that of the code point |
| JsonText.BodyConcat | ptc-host/src/program.js:238-252 | quoting splits wherever no surrogate pair is cut |
| JsonText.JsonStringBytesUpTo | ptc-host/src/program.js:254-268 | the exact quoted length, or nothing exactly when it passes the limit |
| JsonText.TruncateJsonString | ptc-host/src/program.js:270-282 | the longest prefix whose quoted form fits, never ending inside a surrogate pair |
| Ledger.JsonStringBytes | ptc-host/src/program.js:266-268 | the exact quoted length of any text |
| Ledger.OutputLedger.Push | ptc-host/src/program.js:284-312 | `bytes` is the exact length of the JSON array of what was sunk and stays within the budget; a line that does not fit is cut to the longest piece that fits, the limit is reported once, and nothing is sunk afterwards |
| Ledger.OutputLedger.PushAll | ptc-host/src/program.js:284-312 | a whole program's output: all lines, or a prefix of them and at most one last piece |
| WireBytes.StreamBytesAreJson | ptc-host/src/program.js:436-452 | the charge of a tree's stream plus the number of commas separating elements is the length of its JSON text |
| WireBytes.IntegersAreSpelt | ptc-host/src/program.js:436-452 | the text charged for an integer reads back as it, signed exactly below zero and without leading zeros |
| WireBytes.WireBytes | ptc-host/src/program.js:436-452 | the loop computes that charge for every tree the stream can belong to |
| WireBytes.Complete | ptc-host/src/program.js:463-471 | a value whose JSON text fits the rest of the budget is never refused, one that is delivered exceeds it by no more than its commas, and an inadmissible value is reported |
| Utf8.DecodeEncodeAll | agent/src/fs.rs:755-769 | decoding undoes encoding (sections 3 and 4 of RFC 3629) |
| Utf8.EncodeAllDecode | agent/src/fs.rs:755-769 | a byte string that decodes is the encoding of what it decodes to |
| Utf8.DecodeConcat | agent/src/fs.rs:755-769 | decoding splits after a well-formed prefix |
| TextPaging.DecodeText | agent/src/fs.rs:755-769 | text exactly when free of NUL and well-formed UTF-8; NUL is looked for first |
| TextPaging.TrailingFragmentLength | agent/src/fs.rs:732-753 | the backward loop over at most three bytes finds the length of the unfinished sequence at the end |
| TextPaging.CutIsAtBoundary | agent/src/fs.rs:732-753 | cut well-formed text anywhere: dropping the fragment leaves well-formed text on both sides |
| TextPaging.EndIsBoundary | agent/src/fs.rs:732-753 | well-formed text never ends in a fragment |
| TextPaging.ReadWindow | agent/src/fs.rs:772-798 | the window is filled to its length or the end of the file, however short single reads are |
| TextPaging.PageIsAsLongAsAsked | agent/src/fs.rs:134-167 | a page covers what was asked for, at least four bytes, or what is left of the file |
| TextPaging.ReadTextChunk | agent/src/fs.rs:134-167 | a page of text up to a sequence boundary that strictly advances before end of file, or a failure that no other paging avoids |
| TextPaging.PullText | src/plugin/routing/fs.ts:172-196 | for any page lengths the pull ends; it succeeds exactly on text, and its chunks join to the decoding of the whole file |
| LiteralEdit.ReplaceKeepsPieces | agent/src/fs.rs:674-706 | replacing keeps every piece between matches and puts the new text where each match was |
| LiteralEdit.PiecesAreLeftmost | agent/src/fs.rs:674-706 | the matches are the left-to-right, non-overlapping ones: none starts inside a piece |
| LiteralEdit.NoMatchMeansNoOccurrence | agent/src/fs.rs:674-706 | the count is zero exactly when the text occurs nowhere |
| LiteralEdit.CrlfCountedAsLf | agent/src/fs.rs:714-719 | the subtraction of the two unsigned counts never wraps |
| LiteralEdit.NormalizeRestore | agent/src/fs.rs:709-728 | normalising undoes restoring, for every text |
| LiteralEdit.RestoreNormalize | agent/src/fs.rs:709-728 | restoring undoes normalising exactly on files whose every newline is CRLF |
| LiteralEdit.DetectUniform | agent/src/fs.rs:714-719 | what the 4096-character sample decides on a file of one style |
| LiteralEdit.DetectIsMajority | agent/src/fs.rs:714-719 | a file of any newlines is taken for CRLF exactly when more newlines of the sample follow a CR than do not |
| LiteralEdit.ApplyLiteralEdit | agent/src/fs.rs:674-706 | empty, missing and ambiguous old texts are refused; an accepted edit replaces every match, or the only one |
| LiteralEdit.EditKeepsCrlfFile | agent/src/fs.rs:252-300 | an accepted edit of a CRLF file is the raw file with each match replaced in CRLF style, everything else unchanged |
| LiteralEdit.EditKeepsLfFile | agent/src/fs.rs:252-300 | an accepted edit of an LF file replaces in the raw text itself |
| LiteralEdit.RestoredMatchIsAligned | agent/src/fs.rs:709-728 | in restored text an old text matches on whole newlines unless it ends in a CR |
| LiteralEdit.ReplaceCommutesWithRestore | agent/src/fs.rs:674-728 | replacing in the restored text is restoring the replaced text |
| LiteralEdit.EditReplacesInRaw | agent/src/fs.rs:252-300 | an accepted edit of a CRLF file, with an old text that does not end in a CR, is the replacement in the raw file exactly when the sample saw a newline or none is left to restyle |
| LiteralEdit.EditsRawMatchesUnlessTrailingCr | agent/src/fs.rs:252-300 | every accepted edit of a CRLF file whose sample shows its style is the replacement in the raw file, if and only if the old text does not end in a CR |
| LiteralEdit.SampleDecides | agent/src/fs.rs:252-300 | every accepted edit of a CRLF file, with an old text that does not end in a CR, is the replacement in the raw file, if and only if the first 4096 characters show a newline or the file holds only CRs |
| LiteralEdit.SampleMisses | agent/src/fs.rs:252-300 | for every other CRLF file an accepted edit that is not |
| LiteralEdit.LateNewlineIsRewritten | agent/src/fs.rs:714-728 | a CRLF file whose one newline comes after the first 4096 characters ends in an LF once it is edited elsewhere |
| LiteralEdit.RoundTripExactlyWhen | agent/src/fs.rs:709-728 | normalising and restoring gives back a file, of whatever newlines, exactly when they are all of the style its sample shows |
| LiteralEdit.EmptyEditKeepsExactly | agent/src/fs.rs:252-300 | an accepted edit that replaces a text by itself leaves the file as it is exactly on those files |
| LiteralEdit.MixedNewlinesAreRewritten | agent/src/fs.rs:252-300 | a file of both styles in which an edit rewrites a newline outside the match |
| LiteralEdit.TrailingCrMisses | agent/src/fs.rs:252-300 | for every old text that ends in a CR, such a file whose accepted edit is not the replacement in the raw file |
| OutputWindow.StreamBuffer.Push | agent/src/execution.rs:59-81 | after any chunk, empty ones included, the window is the last bytes of the stream that fit, and dropped plus retained is the total |
| OutputWindow.StreamBuffer.ReadFrom | agent/src/execution.rs:87-100 | a read from a retained offset is the stream from there; otherwise the retained tail, marked lossy |
| OutputWindow.TrimHeadMovesCut | agent/src/execution.rs:64-80 | one trimming step moves the start of the window by exactly what it drops |
| OutputWindow.CollectedMirror.Reset | src/plugin/routing/subprocess.ts:134-140 | a lossy answer becomes the whole content, at its own offsets |
| OutputWindow.CollectedMirror.Push | src/plugin/routing/subprocess.ts:143-161 | appending keeps the last bytes that fit; the trimming loop ends |
| OutputWindow.CollectedMirror.ReadFrom | src/plugin/routing/subprocess.ts:173-187 | what the mirror answers from any offset, flag included |
| OutputWindow.Drain | src/plugin/routing/subprocess.ts:304-320 | afterwards the mirror holds exactly the agent's window at the same offsets |
| OutputWindow.DrainedAnswer | src/plugin/routing/subprocess.ts:173-187 | a drained mirror answers bytes and offsets like the window itself |
| OutputWindow.Session | src/plugin/routing/subprocess.ts:304-320 | end to end for any rounds of chunks and drains: `readFrom(k)` is the stream from k when retained, else the retained tail; the lossy flag is set exactly when the stream outgrew the cap, which is the documented meaning exactly when it did not or k itself is lost |
| OutputWindow.LossyAtRetainedOffset | src/plugin/routing/subprocess.ts:168-187 | a retained offset answered in full and yet marked lossy |
| RemoteTty.AccountsConserve | src/remote/tty.ts:175-190 | the offset is the bytes published plus all bytes reported lost |
| RemoteTty.LosslessMeansVerbatim | src/remote/tty.ts:175-190 | the output is the stream verbatim exactly when nothing was reported lost |
| RemoteTty.LossExactlyWhenBehind | agent/src/execution.rs:87-100 | a follower loses bytes exactly when it is more than the window behind |
| RemoteTty.PullAccounts | src/remote/tty.ts:175-190 | a pull keeps the account balanced up to the end of the stream: each marker counts exactly the bytes skipped there, and is positive |
| RemoteTty.Follower.Pull | src/remote/tty.ts:175-190 | the pull on the handle's own fields, gap marker first |
| RemoteTty.Follower.Follow | src/remote/tty.ts:192-214 | for any arrivals the loop ends at the first pull with exit facts, with a balanced account |
| ProcessTasks.ProcessState.BeginTerminate | agent/src/subprocess.rs:468-488 | only the first call on an unsettled process starts the ladder |
| ProcessTasks.ProcessState.BeginDispose | agent/src/subprocess.rs:515-532 | only the first call disposes; what stands then is what was settled, else what was reaped, else unknown |
| ProcessTasks.ProcessState.SettleFacts | agent/src/subprocess.rs:589-617 | what was settled stands; otherwise what was reaped is settled |
| ProcessTasks.StepKeepsInv | agent/src/subprocess.rs:468-617 | every step of readers, reaper, ladder, dispose and waiters keeps the invariant |
| ProcessTasks.SettledOnce | agent/src/subprocess.rs:399-406 | once settled, no continuation of any run changes the facts |
| ProcessTasks.WaitReturnsAfterSettling | agent/src/subprocess.rs:495-503 | a caller told of the exit can read settled facts |
| ProcessTasks.FramesArePrefix | agent/src/subprocess.rs:534-567 | each stream's queued frames carry 0, 1, 2, ... without a gap and spell a prefix of the bytes read |
| ProcessTasks.AllQueuedBeforeExitVisible | agent/src/subprocess.rs:534-617 | with no refused frame, no dispose and readers done within grace, the frames are all the bytes and are queued before the exit is visible |
| ProcessTasks.SignalsSent | agent/src/subprocess.rs:468-532 | the ladder terminates at most once and kills at most once, a dispose kills at most once, and the ladder kills only a group it has terminated before |
| ProcessTasks.LateFramesBounded | agent/src/subprocess.rs:543-567 | once frames are stopped, by a settling, a dispose or a refused frame, a stream queues at most the one its reader has past the check |
| ProcessTasks.LateFrameExactlyWhen | agent/src/subprocess.rs:543-567 | once frames are stopped, some continuation queues another frame of a stream exactly when its reader is past the check with a chunk in hand |
| ProcessTasks.LateFrameOccurs | agent/src/subprocess.rs:543-567 | a run in which that frame arrives after a visible exit |
| ProcessHistory.RecordTellsWhatHappened | agent/src/subprocess.rs:468-617 | in every run each fact, visible exit, returned wait and signal is there exactly when the events that cause it came in order: the ladder kills if the facts were still open at its check, a dispose kills a live group whose facts are open |
| ProcessHistory.SettledAsReaped | agent/src/subprocess.rs:515-617 | in every run settled facts are those of the first reap if it came before the settling, and unknown for want of a reap only by a dispose |
| ProcessHistory.VisibleExitIsTheReaped | agent/src/subprocess.rs:589-617 | in a run without dispose a visible exit is what was reaped |
| ProcessHistory.ChunkBecomesNextFrame | agent/src/subprocess.rs:534-567 | a chunk read while frames are wanted becomes the next frame of its stream |
| ProcessHistory.WholeOutputArrives | agent/src/subprocess.rs:534-617 | for every output and every exit, the undisturbed run queues every chunk in order and shows that exit |
| ProcessHistory.ChunkIsOnlyRead | agent/src/subprocess.rs:543-559 | a chunk of an unpiped stream, or one read after frames have stopped, is read and not framed |
| ProcessHistory.OneLateFrame | agent/src/subprocess.rs:543-567 | in every continuation of every run, a settled, disposed or refused stream queues at most one more frame |
| ProcessHistory.RefusedFrameTerminates | agent/src/subprocess.rs:559-566 | a refused frame gives the stream up and, on an unsettled child, has SIGTERM sent |
| SpawnTable.RunKeepsInv | agent/src/subprocess.rs:282-295 | in every interleaving of spawns and closes each child has one owner and is disposed at most once |
| SpawnTable.PublishedUntilClosed | agent/src/subprocess.rs:282-295 | in every run the flag is up exactly when a close stored it, and until then every returned spawn is in the table and no child has been disposed or is about to be |
| SpawnTable.SpawnGetsThrough | agent/src/terminal.rs:97-107 | a spawn that finds the lock free publishes its child, or disposes of it once the flag is up |
| SpawnTable.NeverStuck | agent/src/subprocess.rs:382-394 | while any spawn or close is unfinished, some call that was made can take a step |
| SpawnTable.NothingOutlivesClose | agent/src/subprocess.rs:382-394 | when all started calls have finished and one was a close, the table is empty and every child was disposed once |
| SpawnTable.NothingPublishedAfterDrain | agent/src/terminal.rs:97-107 | once a close has drained, no continuation publishes a child |
| TerminalRead.NoLostWakeup | agent/src/terminal.rs:120-146 | a read that sleeps unwoken, while no producer is between update and notify, has no bytes past its offset, no loss and no exit facts to report |
| TerminalRead.RepliesAreTrue | agent/src/terminal.rs:390-434 | a reply is what the window held at its own offset, with facts only if they were recorded |
| TerminalRead.ReadLooks | agent/src/terminal.rs:120-146 | an undisturbed look replies with what window and exit record hold, and sleeps exactly when there is nothing and time is left |
| TerminalRead.SleeperIsAnswered | agent/src/terminal.rs:390-434 | new output or the exit, once notified, wakes a sleeping read, which then replies with it |
| TerminalRead.LateReadReplies | agent/src/terminal.rs:120-146 | a read past its deadline replies, whatever there is |
| TerminalRead.ReadsAreAsAsked | agent/src/terminal.rs:120-146 | in every run the reads are those that were started, each at the offset it asked for |
| Decimal.DigitsPrint | agent/src/jsonrpc.rs:18-23 | reading a printed number gives it back |
| Decimal.DigitsPad | agent/src/state.rs:70-75 | zero padding does not change the number |
| Calendar.YearOfEraIsTheYear | agent/src/state.rs:86-89 | the corrected division finds the year of the era whose days contain the day, leap days of years, centuries and the era included |
| Calendar.DaysBeforeYearClosed | agent/src/state.rs:79-99 | counting years one by one agrees with the closed form |
| Calendar.CivilCountsDays | agent/src/state.rs:79-99 | every day count from the epoch on becomes the valid Gregorian date (Appendix C of RFC 3339) whose counted number it is |
| Calendar.CivilOfDayNumber | agent/src/state.rs:79-99 | the conversion inverts the count on every date from 1970 on |
| Calendar.DayNumberIsMonotone | agent/src/state.rs:79-99 | counted day numbers follow calendar order both ways |
| Calendar.CivilIsMonotone | agent/src/state.rs:79-99 | later days have later dates |
| Calendar.Iso8601Determines | agent/src/state.rs:63-76 | the printed fields, in range and between the separators of RFC 3339, determine the second |
| RegistryState.TextFromIsTheStream | src/terminal/host/registry.ts:379-385 | text from an offset is the stream from there, or the retained tail marked truncated exactly when the offset slid away |
| Registry.Append | src/terminal/host/registry.ts:365-376 | both branches leave the last 262144 bytes of the stream and the right `dropped` |
| Registry.TerminalRegistry.Notify | src/terminal/host/registry.ts:407-409 | every waiter looks once; those done are told and leave, the others stay in order |
| Registry.TerminalRegistry.Open | src/terminal/host/registry.ts:467-498 | a new running terminal without output, sink, waiter or timer, under an id nobody had |
| Registry.TerminalRegistry.OnData | src/terminal/host/registry.ts:412-427 | buffer, waiters and one queued delivery per attached sink |
| Registry.TerminalRegistry.Settle | src/terminal/host/registry.ts:444-449 | exited, waiters told, and killed when nobody watches |
| Registry.TerminalRegistry.Attach | src/terminal/host/registry.ts:500-514 | refused on a missing or exited terminal; otherwise watched, timer cleared, retained bytes replayed |
| Registry.TerminalRegistry.Detach | src/terminal/host/registry.ts:516-535 | exactly this sink leaves; the last one releases an exited terminal, and leaves a live one detached with a timer exactly when one was pending or the grace is positive |
| Registry.TerminalRegistry.TimerFires | src/terminal/host/registry.ts:529-532 | a fired valve kills the terminal |
| Registry.TerminalRegistry.Wait | src/terminal/host/registry.ts:630-674 | the first look is synchronous: answered with a match or the exit and what is seen from the offset, or registered when neither is there |
| Registry.TerminalRegistry.EndWait | src/terminal/host/registry.ts:637-651 | a timeout answers unmatched with what is seen, an abort rejects, and the wait is registered no more |
| Registry.TerminalRegistry.Kill | src/terminal/host/registry.ts:676-689 | the id is gone, its process terminated once, and the call says whether it was found |
| Registry.TerminalRegistry.DeliverNext | src/terminal/host/registry.ts:424-425 | one deferred delivery reaches its sink |
| TerminalLines.TailLinesIsLongest | src/terminal/host/registry.ts:388-392 | the line cut keeps the longest tail of at most so many lines, and says exactly whether any were cut |
| TerminalLines.LinesCountLfs | src/terminal/host/registry.ts:388-392 | there is one line more than line feeds |
| Registry.TerminalRegistry.Read | src/terminal/host/registry.ts:616-628 | from any offset, past the end included: the last lines of the stream from there, or of all that is retained, truncated exactly when bytes are gone or lines were cut |
| Registry.TerminalRegistry.ReleaseAll | src/terminal/host/registry.ts:691-699 | exactly the open terminals asked for are killed, the others untouched |
| RegistryRuns.StepKeepsInv | src/terminal/host/registry.ts:353-700 | every handler and every deferred delivery keeps window, waiters, lifecycle, ids and sinks |
| RegistryRuns.Lifecycles | src/terminal/host/registry.ts:444-535 | in every run: an exited terminal in the table has a sink and no waiter, a detached one no sink, a pending timer means detached, and no registered wait could be answered |
| RegistryRuns.KilledStaysKilled | src/terminal/host/registry.ts:676-689 | after a kill, in every continuation: never back in the table, no sink, waiter or timer, terminated once |
| RegistryRuns.IdsAreFresh | src/terminal/host/registry.ts:476-480 | opening always takes an id no terminal ever had |
| RegistryEffects.NoGraceNoTimer | src/terminal/host/registry.ts:527-532 | in every run with the valve switched off no terminal ever has a timer |
| RegistryRuns.AttachedSinkIsServed | src/terminal/host/registry.ts:500-514 | a sink attached once, in every continuation: what it received plus what is queued for it is one contiguous piece of the stream from `dropped` at its attach, and all of it while attached |
| RegistryRuns.DrainedSinkHasAll | src/terminal/host/registry.ts:412-427 | once the queue drains, a sink that is still attached has received exactly the stream from `dropped` at its attach on |
| RegistryWaits.WakingSplits | src/terminal/host/registry.ts:407-409 | waking loses no waiter and tells none twice: each is either still waiting or told |
| RegistryWaits.StepKeepsWaits | src/terminal/host/registry.ts:630-674 | no handler loses, duplicates or invents a wait |
| RegistryWaits.EveryWaitEndsOnce | src/terminal/host/registry.ts:630-674 | in every run each wait asked for has been answered once or is registered once with its terminal, never both, and none is left waiting for an exited terminal |
| RegistryAnswers.EveryAnswerIsTrue | src/terminal/host/registry.ts:630-674 | in every run an answer quotes what was retained from its wait's offset when the stream was as long as it says, is a match exactly when that passes the wait's test, and blames an exit, timeout or abort only after one; a wait still registered has nothing to be told |
| RegistryRuns.InFlightToEach | src/terminal/host/registry.ts:415-425 | a chunk is queued once for each attached sink and for nobody else |
| Connections.NodeConnections.Clear | src/models/machines.ts:357-372 | everything held is dropped, the connection and its transport closed |
| Connections.NodeConnections.ConnectRecord | src/models/machines.ts:502-558 | the answer at hand, the attempt in flight, or one new attempt that the entry waits for |
| Connections.NodeConnections.OnOpened | src/models/machines.ts:516-517 | the opened transport is stored in the attempt's entry, whatever became of that entry |
| Connections.NodeConnections.OnAttemptFailed | src/models/machines.ts:546-553 | every failure of an attempt settles its entry |
| Connections.NodeConnections.OnHandshake | src/models/machines.ts:518-531 | all fields of a ready entry in one stretch: info, record, ssh port and connection are those of this attempt |
| Connections.NodeConnections.OnForwardExit | src/models/machines.ts:539-544 | a forward's exit counts once, and only while its transport is the one held; the entry then fails, lets go, and has one new recovery |
| Connections.NodeConnections.OnRequestFailed | src/models/machines.ts:485-496 | a failed request counts only on the connection that is held; the entry then fails, lets go, and has one new recovery |
| Connections.NodeConnections.OnTick | src/models/machines.ts:450-469 | displaced or spent, the recovery ends and nothing else happens; otherwise it has made one more attempt, and ends only if the node was ready |
| Connections.NodeConnections.OnResume | src/models/machines.ts:460-466 | a recovery ends when its attempt succeeded and sleeps again when it failed |
| Connections.NodeConnections.Disconnect | src/models/machines.ts:584-592 | the entry lets go of everything, its recovery included |
| Connections.NodeConnections.Dispose | src/models/machines.ts:594-600 | every tabled entry lets go, then the table is empty |
| Connections.NodeConnections.Channel | src/models/machines.ts:561-563 | a channel exactly when the node is ready, and it is the live connection's |
| ConnectionRuns.StepKeepsInv | src/models/machines.ts:334-600 | every step keeps names, ready entries and recoveries in order |
| ConnectionRuns.ReadyMeansConnected | src/models/machines.ts:357-379 | in every run a node is ready exactly when it holds channel, connection, info and record, with a local port exactly over ssh; otherwise it holds none of them |
| ConnectionRuns.RecoveriesAreBounded | src/models/machines.ts:450-469 | in every run a recovery makes no more attempts than the limit, and no two answer the same loss |
| ConnectionRecoveries.RecoveriesKeepTrying | src/models/machines.ts:450-469 | in every run a recovery has made an attempt at each tick that found it undisplaced, and is over exactly when it was displaced or spent, its node was ready, or the attempt it awaited went well |
| ConnectionRecoveries.TryAsksForTheNode | src/models/machines.ts:453-466 | in every run such a try finds the node ready, or awaits the attempt under way for that node that its entry waits for |
| ConnectionRecoveries.AwaitedIsUnderWay | src/models/machines.ts:502-558 | in every run an entry waits only for an attempt under way, made for it and its node |
| ConnectionRuns.DisconnectEndsRecovery | src/models/machines.ts:584-592 | after a disconnect no recovery makes another attempt on the entry, in any continuation, until the connection it then holds is lost; late reports about what it has let go of are allowed |
| ConnectionRuns.DropsStartRecoveries | src/models/machines.ts:485-544 | the losses meant there are exactly the events that start a recovery of the entry |
| ConnectionRuns.DisconnectProvokesNoDrop | src/models/machines.ts:584-592 | the exit of the forward that the disconnect closes, and a request that fails on the closed channel, are no such loss |
| ConnectionFresh.StepKeepsAccounts | src/models/machines.ts:334-600 | every step that reuses no transport keeps owners, answered losses and held transports in order, and the leaked transports are those that leaked before and the one it stores over |
| ConnectionFresh.OneRecoveryPerLoss | src/models/machines.ts:485-544 | in every run in which openers hand out new transports, wherever disconnects and disposals land, the loss of one connection, noticed either way or both, starts at most one recovery |
| ConnectionFresh.LeakedExactlyWhenOverwritten | src/models/machines.ts:514-558 | in the same runs a transport is open with no entry holding it exactly when, while an entry held it, another attempt's transport was stored there |
| ConnectionFresh.AbandonedExactlyWhenSupplanted | src/models/machines.ts:518-531 | in every run a connection is open with no entry holding it exactly when, while an entry held it, another was stored there |
| ConnectionTidy.StepIsTidy | src/models/machines.ts:502-600 | when no disconnect or disposal lands during an attempt, every step keeps what entries hold fitting their state, and every attempt in flight the one its node waits for |
| ConnectionTidy.OneAttemptPerNode | src/models/machines.ts:502-558 | in such runs at most one attempt per node is in flight |
| ConnectionTidy.NoTransportLeaks | src/models/machines.ts:514-558 | in such runs a transport that was opened is either closed or held by an entry of the table |
| ConnectionTidy.NoConnectionIsLeftOpen | src/models/machines.ts:357-372 | in such runs a connection that was made is either closed or held by an entry of the table |
| ConnectionTidy.InterruptedAttemptLeaks | src/models/machines.ts:584-592 | a run with a disconnect during an attempt in which a transport leaks |
| Paths.NormalizeRenders | src/models/routing.ts:77-83 | normalising an absolute path gives its plain segments, rendered, and normalising again changes nothing |
| Paths.SegsOfRender | src/models/routing.ts:77-83 | a rendered path splits back into its segments |
| Paths.SegmentThenUp | src/models/routing.ts:77-83 | a plain segment with the `..` after it, an empty piece and a single dot may be struck out of a path, and `..` at the root vanishes |
| Paths.LeadingUps | src/models/routing.ts:77-83 | leading `..` vanish from absolute paths and stay in relative ones |
| Paths.WithinIsSegmentPrefix | src/models/routing.ts:63-67 | on normal absolute paths containment by string prefix is segment-list prefix, but for a parent spelled with a trailing slash against itself |
| Routing.AbsoluteExactlyWhen | src/models/routing.ts:77-83 | the result is absolute, and then normal, exactly when the unified input or its base is absolute |
| Routing.RelativeExtendsBase | src/models/routing.ts:77-83 | a relative path resolves to its base, a slash and the path, normalized |
| Routing.SegmentsAreAppended | src/models/routing.ts:77-83 | plain relative segments follow those of the base |
| Routing.AnchorMapsInside | src/models/routing.ts:109-114 | a path below an anchor lands inside the anchor's remote root, at the same segments below it |
| Routing.RemoteNeedsOneClaimant | src/models/routing.ts:116-128 | below no anchor: remote exactly when one root alone claims the path, ambiguous exactly when two do, naming exactly the claiming nodes, local when none |
| Routing.SpellingsAgree | src/models/routing.ts:97-129 | the anchor spelling of a file classifies as its remote spelling, and where no anchor covers that one, the two classify alike exactly when one anchor alone claims it |
| Routing.KeyRoundTrip | src/plugin/routing/fs.ts:75-95 | a composed key parses back exactly when the id has no colon and is not empty and the path is absolute |
| Routing.ParsedKeyComposes | src/plugin/routing/fs.ts:75-95 | what parses as a key is the key of what it parses to |
| Routing.ExplicitExactly | src/models/routing.ts:49-53 | a path is explicit exactly when it is `node:`, an id without colon and slash, a colon and an absolute path |
| Routing.KeyClassifiesAsItsFile | src/models/routing.ts:102-105 | a target key given as a path classifies as the file it names, whatever the anchors |
| Framing.Channel.WriteFrame | ptc-host/src/channel.rs:49-65 | an empty or too long payload is refused, otherwise length and payload are sent |
| Framing.Channel.ReadFrame | ptc-host/src/channel.rs:68-95 | a frame, an error on a bad length, or the end of the channel |
| Framing.BigEndianRoundTrip | ptc-host/src/channel.rs:49-95 | four bytes carry every length below 2^32 |
| Framing.FrameRoundTrip | ptc-host/src/channel.rs:49-95 | a payload is read, leaving the rest, exactly when its printed frame is what the stream starts with |
| Framing.CutFrameEndsChannel | ptc-host/src/channel.rs:68-95 | a frame cut short ends the channel and is never read as a frame |
| Framing.BadLengthIsError | ptc-host/src/channel.rs:68-95 | a length of zero or above the limit is an error that names it |
| Framing.FramesRoundTrip | ptc-host/src/channel.rs:49-95 | any number of frames is read back in order, whatever follows |
| Framing.ReadMessage | agent/src/jsonrpc.rs:29-63 | the header loop and the body read, as a function of the stream |
| Framing.MessageRoundTrip | agent/src/jsonrpc.rs:18-63 | reading undoes encoding, whatever bytes follow |
| Framing.MessagesRoundTrip | agent/src/jsonrpc.rs:18-63 | any number of messages is read back in order and what follows is left |
| Framing.OtherHeadersAreIgnored | agent/src/jsonrpc.rs:33-48 | a header of another name changes nothing |
| Framing.LengthNameMatches | agent/src/jsonrpc.rs:43-47 | the length header is known in any mixture of cases, and by no other name |
| Framing.LengthHeaderIsRead | agent/src/jsonrpc.rs:43-47 | it announces its value without the white space around it, whatever came before |
| Framing.LengthsExactly | agent/src/jsonrpc.rs:43-47 | a value is a length exactly when it is digits, perhaps after a plus sign, below 2^64 |
| Framing.BareLineFeed | agent/src/jsonrpc.rs:36-42 | a header line may end in a bare line feed |
| Framing.UnusableMessages | agent/src/jsonrpc.rs:49-57 | a header block without length and a body cut short are errors |
| Framing.CleanEndIsNoBlankLine | agent/src/jsonrpc.rs:29-48 | a clean end is reported exactly on a stream without a blank line |
| Framing.EndsAsDocumentedExactlyWhen | agent/src/jsonrpc.rs:25-48 | a clean end is reported when and only when nothing of a message was sent, exactly on streams that are empty or hold a blank line |
| Framing.EndInsideHeadersIsClean | agent/src/jsonrpc.rs:29-48 | a stream cut inside a header line or right after it reads as a clean end |

## Left out

- The React client, pages, HTTP routes, document stores, worktree and git plumbing, ssh install and release download: user interface, input and output, or easy claims.
- JSON parsing and printing of message bodies, base64 and regular expressions: bodies are opaque bytes, a wait's matcher is any predicate on text. Bodies that are not JSON are therefore not refused by `Framing.ReadMessage`.
- Property getters and proxies, holes filled by a modified prototype, and inputs that are not arrays, in the value codec: own data properties only.
- The order of the two windows' locks and tasks inside one push or read: each holds its lock throughout, so it is one step.
- Text decoding of retained output: windows, sinks and waits work on bytes, so a tail that starts inside a code point is not turned into replacement characters. The default start of a wait, which measures decoded text, is a parameter for that reason.
- Pausing and resuming a terminal's output while sinks are served: chunks may arrive at any time, which allows more runs than the source does.
- Sinks that call back into the registry from inside a report, and the exit report itself: each handler is one step.
- Resizing, typing into and listing terminals, and the sessions terminals belong to: `Registry.TerminalRegistry.ReleaseAll` takes the set of terminals to release.
- The background install of a machine's program host, progress and error texts of the connection manager.
- A terminate that pulls while the follower's read is in flight, and several piped processes sharing one frame handler: the source does not keep what one would want to state there.
- The contents of temporary files, versions and guards around an edit: `LiteralEdit` starts from the raw text and ends with the raw text written back. A file that changes while it is paged is not modelled.
- White space other than ASCII around a header value, and header bytes that are not UTF-8.
- Windows drive letters and case folding of paths; `posix.normalize` and `posix.join` follow their documentation.
- ProcessTasks.LateFrameOccurs: a single run; the exact condition for all runs is `ProcessTasks.LateFrameExactlyWhen`.
- ConnectionTidy.NoTransportLeaks: stated for runs in which no disconnect or disposal lands during an attempt; for all runs with new transports `ConnectionFresh.LeakedExactlyWhenOverwritten` says exactly which transports leak.
- Openers that hand out one transport twice: `ConnectionFresh` assumes they do not, as each opens its own.
- Calendar.CivilCountsDays: days before the epoch are not stated, since the only caller clamps its argument at the epoch.
