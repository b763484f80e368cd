# Verified model of the bridge's ordering, lexing and streaming core

The bridge routes messages between local AI command-line tools and a cloud
server. Most of it is input and output; a few compact pieces carry the promises
the rest relies on. This project models those pieces in Dafny 4.11 and proves
what they keep. `dafny verify dfyconfig.toml` checks everything.

| files | what they model |
|---|---|
| `Shell`, `ShellSplit`, `ShellAgreement`, `ShellVerdicts` | `internal/command/validate.go`: three quote-aware scanners and the two validators built on them |
| `Markdown`, `MarkdownCuts`, `MarkdownGrowth`, `MarkdownLines`, `Batcher`, `BatcherRuns`, `BatcherDrain` | `internal/markdown/boundary.go` and the output batcher of `internal/bridge/bridge.go` |
| `Replay`, `ReplayRuns`, `ReplayGates` | `internal/replay`: recorder, script loader, player |
| `UploadPool`, `SourceUpload` | `uploadAll` (two copies) and the declare, upload, complete tail of a source upload |
| `PromptLanes`, `PromptLaneRuns` | `internal/bridge/prompt_lane.go` |
| `Terminals`, `AcpRpc`, `AcpReplies` | `internal/protocol/acp.go`: gated terminals; RPC correlation and the initial mode |
| `TaskPool`, `TaskSteps`, `TaskPoolRuns`, `TaskReports` | the session map with its task pool, the overflow queue, and how the end of a task is reported |
| `Ring`, `ReplayRing`, `LoopDetector` | the two ring buffers: message replay and tool-loop detection |
| `AccessLog` | `node/agent/accesslog.go` |
| `UrlPaths`, `HtmlRefs`, `PageWalk`, `HtmlRewrite`, `HtmlMeaning` | `internal/preview/rewrite.go`, measured against RFC 3986 |
| `Text` | the string functions the code calls |

## How things are modelled

Code that changes state step by step is a class or a method with loops, proved
against a function or a step predicate on values; the theorems are then about
those. Concurrent protocols are transition systems: one step is one critical
section, one channel operation or one outcome of a foreign call, a run is any
interleaving of steps, and the theorems hold in every state of every run. The
class methods beside them are the critical sections, each proved to make
exactly one step (or the part of one that runs under the lock).

A `char` is a byte and white space is ASCII. Sends append to an output
sequence; clocks, timers, replies, the network and the file system are
nondeterministic answers. JSON, YAML and hashes are abstract records. Integers
are unbounded.

## Where the code and its descriptions differ

The model follows the code in each case.

* `validate.go:136-138` says `&&` is safe because every segment is validated on
  its own. That is so when no backslash inside quotes stands right before the
  closing quote (`RelaxedIsSegmentwiseStrict`); the splitter honours such an
  escape and the checks do not, and `EscapedCloseBreaksTheLaw` gives a family
  of commands for which the promise fails. The condition is exactly the one
  under which all scanners read every byte alike (`ScannersAgreeIff`); two
  readings that differ may still agree on acceptance. `LawHoldsIff` says for
  every command, in terms of its bytes and how each is marked, whether the
  promise holds.
* `recorder.go:163-165` says ids are comparable whether they were encoded as a
  number or a string. `normalizedID` keeps the two apart
  (`NormalizedIDMeaning`), so a reply whose id comes back in the other form is
  recorded without a gate (`UnmatchedReplyHasNoGate`).
* `recorder.go:83-84` records gates so that a response is emitted only after
  the request it answers. A gate names a method, not a request: with two
  requests of one method the second reply may come before the second request
  (`SecondReplyMayComeFirst`); `SentFirstIff` is the exact condition.
* `boundary.go:8-10` promises cuts outside HTML blocks. A text that grows byte
  by byte is cut inside one exactly when some line inside the block, torn after
  any byte or whole, reads as a fence or a table row (`CutsOutsideHtmlIff`).
  Whole lines are not enough: `TornRowIsCutInHtml` is a text without structure
  inside HTML that is cut there while its second line is torn.
* `isTableRow` inspects the cells of a row; the inspection decides nothing
  (`TableRowMeaning`).
* `Stop` flushes "remaining batched messages": all of them exactly when each
  held content is one unfinished block or finished (`StopSendsAllIff`).
* `bridge.go:3943-3948` stores the meta of a task before its prompt so that a
  stop reports a result. A task stopped earlier, while it connects, may end
  without any report: its exit callback finds no meta (`ReportCanBeLost`). A
  task that StopDead removes is never reported (`RemovedIsUnreported`).
  `EndedTaskIsReportedIff` says exactly when an ended task is, and what is lost
  stays lost (`UnreportedForEver`).
* A gated terminal command dropped by a disconnect, or released before it is
  settled, never has its done channel closed, so its waiters stay blocked
  (`ClosedIff`; `ReleasedStaysOpen` and `DroppedStaysOpen` are runs).
* The timer of a gated terminal command starts before the command is parked. If
  it called back before, the parked command has no timer (`ParkedHasTimerIff`).
* `hostTrafficDelta` leaves a torn line for the next poll and skips nothing,
  except that a failed read skips its window for good. Tailing is faithful
  exactly while no read has failed (`TailIsFaithfulIff`).
* `RewriteHTMLAbsolutePaths` keeps targets exactly when a reference does not
  climb above the root by `..` segments (`RewriteKeepsTargetIff`); a root stops
  such a reference, a hosting prefix does not.
* The loop detector can report a ping-pong pattern only with thresholds above
  three (`PingPongIsReportedIff`); the bridge uses 5 and 10.

## Model

| member | source | states |
|---|---|---|
| Shell.HasShellMetacharacters | internal/command/validate.go:69-108 | the strict loop with its flags finds what the strict scan on quote states finds, and names the same metacharacter |
| Shell.HasRelaxedMetacharacters | internal/command/validate.go:214-252 | the same for the relaxed loop, doubled ampersand skipped |
| Shell.SplitByOperators | internal/command/validate.go:260-307 | the splitting loop yields the segments of the recursive split |
| Shell.StrictTableMeaning | internal/command/validate.go:53-65 | the first-match table lookup hits exactly at one of the listed bytes or at `$(` |
| Shell.RelaxedTableMeaning | internal/command/validate.go:139-151 | the relaxed table bans the same bytes except the pipe, and only the ampersand may be doubled |
| Shell.BaseCommandMeaning | internal/command/validate.go:112-127 | the base command is the last path element of the first field, whatever blanks and directory precede it, however many slashes end it and whatever arguments follow |
| Shell.BuildEffectiveWhitelist | internal/command/validate.go:159-170 | a name is allowed if and only if it is built in or is a trimmed, non-empty extra |
| Shell.Validator.constructor | internal/command/validate.go:174 | the initial whitelist allows exactly the built-in commands |
| Shell.Validator.SetEffectiveWhitelist | internal/command/validate.go:177-179 | the relaxed whitelist is replaced |
| Shell.Validator.ValidateCommand | internal/command/validate.go:313-335 | the strict verdict, always on the built-in list, with the error that the first failing check gives |
| Shell.Validator.ValidateCommandRelaxed | internal/command/validate.go:184-211 | the relaxed verdict on the current whitelist: first failing segment decides, blank segments skipped |
| ShellAgreement.ScannersAgreeIff | internal/command/validate.go:69-307 | checkers and splitter classify every byte (quoting, quoted, escaped, plain) alike if and only if no closing quote is escaped inside quotes |
| ShellAgreement.NoQuotedBackslashSuffices | internal/command/validate.go:269-284 | a command without a backslash inside a quoted span is read alike by all three scanners |
| ShellAgreement.StrictMeaning | internal/command/validate.go:67-108 | the strict check reports a metacharacter if and only if one stands at a byte that is neither quoted nor escaped |
| ShellSplit.SplitLossless | internal/command/validate.go:260-307 | every command is its segments re-joined with a choice of pipe and double ampersand |
| ShellSplit.SplitStable | internal/command/validate.go:260-307 | splitting a segment again returns it unchanged, and each segment before an operator closes its quotes and escapes |
| ShellSplit.SplitUnique | internal/command/validate.go:260-307 | conversely, any pieces of that kind joined by operators are exactly what the splitter returns: the split is the only one |
| ShellAgreement.RelaxedScanIsSegmentwise | internal/command/validate.go:214-307 | the relaxed scan of a command is clean if and only if the strict scan of each of its segments is, from any quote state |
| ShellAgreement.RelaxedIsSegmentwiseStrict | internal/command/validate.go:181-211 | with one whitelist, relaxed acceptance is: not blank, and strict acceptance of every non-blank segment |
| ShellAgreement.RelaxedIsSegmentwiseStrictUnescaped | internal/command/validate.go:181-211 | the same for commands with no backslash inside a quoted span |
| ShellAgreement.RelaxedMeaning | internal/command/validate.go:214-252 | the relaxed check reports a metacharacter if and only if, at a byte neither quoted nor escaped, a banned construct stands or an ampersand is left over after pairing its run |
| ShellAgreement.LawHoldsIff | internal/command/validate.go:184-335 | for every command: the law holds if and only if it is blank, or some segment's base command is refused, or a construct banned by the relaxed rules stands unquoted in the command just when one banned by the strict rules stands unquoted in a segment |
| ShellAgreement.EscapedCloseBreaksTheLaw | internal/command/validate.go:279-284 | a family of commands, accepted whole, whose only segment the strict check rejects for a pipe |
| ShellAgreement.EchoBreaksTheLaw | internal/command/validate.go:279-284 | a concrete command of that family, whatever else is on the whitelist as long as echo is |
| ShellVerdicts.StrictVerdict | internal/command/validate.go:313-335 | for every command, list and verdict, exactly when the strict validator gives it: empty if blank; else the first banned construct outside quotes and escapes, by its name; else accepted if and only if the program the first word names is on the list, and refused under that name otherwise |
| ShellVerdicts.RelaxedVerdict | internal/command/validate.go:184-211 | the same for the relaxed validator: every segment that is not blank must run a listed program, and the first that does not is named |
| ShellVerdicts.RunsMeaning | internal/command/validate.go:112-127 | every text that is not blank has exactly one base command: the last name of its first word, a slash for a word of slashes |
| ShellVerdicts.PlainCommandVerdict | internal/command/validate.go:184-335 | a plain name with plain arguments is accepted by both validators if the name is listed, and refused under that name if not |
| ShellVerdicts.MarksMeaning | internal/command/validate.go:78-98 | outside quotes: from a quote to the next of its kind everything is quoted, a backslash escapes one byte, any other byte stands for itself |
| Text.TrimSpaceMeaning | internal/command/validate.go:113 | trimming takes off white space at both ends and nothing else |
| Markdown.IsCodeFence | internal/markdown/boundary.go:127-143 | the counting loop accepts exactly lines that begin with three equal fence characters |
| Markdown.TableRowMeaning | internal/markdown/boundary.go:146-178 | a row is any trimmed line of three bytes or more between bars, the look at its cells notwithstanding |
| Markdown.SplitLines | internal/markdown/boundary.go:110-124 | the loop yields the lines with their newlines |
| Markdown.ScanLine | internal/markdown/boundary.go:30-104 | the loop's body for one line changes flags and last safe offset as the scan's step on the line's kind says |
| Markdown.FindSafeCut | internal/markdown/boundary.go:13-107 | the loop over flags and offsets returns the byte offset of the scan's last safe line boundary |
| MarkdownCuts.LinesConcat | internal/markdown/boundary.go:110-124 | the lines of a text concatenate to it |
| MarkdownCuts.LineShape | internal/markdown/boundary.go:110-124 | every line but the last ends in its only newline |
| MarkdownCuts.CutOnSafeLineBoundary | internal/markdown/boundary.go:13-107 | a cut is a line boundary with an even number of fences before it and not two table rows around it |
| MarkdownCuts.CutIsSafe | internal/markdown/boundary.go:13-107 | the same on line kinds: the cut is outside code, judged by counting fences rather than by the scan's flag |
| MarkdownCuts.CutIsLastPoint | internal/markdown/boundary.go:30-107 | exactly where the cut falls: the last place right after a complete line, or right before a line that begins a structure, each by the lines before it; at the start if there is none |
| MarkdownGrowth.CutsOutsideHtmlIff | internal/markdown/boundary.go:8-107 | for every text: the cuts of all its byte prefixes stay outside HTML blocks if and only if no line inside one, torn after any byte or whole, reads as a fence or a row |
| MarkdownGrowth.TornRowIsCutInHtml | internal/markdown/boundary.go:56-68 | a text whose whole lines hold no structure inside HTML has a prefix that is cut there |
| MarkdownCuts.EverythingSafeIff | internal/markdown/boundary.go:13-107 | all the text is safe if and only if it ends outside code, not in a row, and outside HTML or right after a fence |
| MarkdownCuts.NothingSafeIff | internal/markdown/boundary.go:13-107 | there is no cut if and only if the lines are one unfinished block: an open fence, rows only, or an open HTML block of plain and opening lines |
| MarkdownGrowth.NoProperCutIff | internal/markdown/boundary.go:13-107 | a text has no cut strictly inside it if and only if its lines are one unfinished block or it is finished |
| MarkdownCuts.CutMonotone | internal/markdown/boundary.go:13-107 | more whole lines never move the cut back |
| MarkdownGrowth.CutOfWholeLinesStays | internal/markdown/boundary.go:13-124 | whatever bytes follow a text of complete lines, the cut never falls before the cut of that text |
| MarkdownGrowth.CutMovesBackInTornLine | internal/markdown/boundary.go:13-107 | within a torn last line one more byte can move the cut back |
| MarkdownCuts.RemainderFixpointIff | internal/markdown/boundary.go:13-107 | what follows a proper cut is not cut again if and only if the cut is outside HTML, or the rest begins a fence or block, or is rows only |
| MarkdownCuts.RemainderSentWhole | internal/bridge/bridge.go:3230-3242 | without structure inside HTML, a held remainder has no cut, so the next flush sends it whole |
| MarkdownCuts.NoOpeningNoStructure | internal/markdown/boundary.go:181-193 | content without an opening line satisfies that condition |
| MarkdownLines.KindMeaning | internal/markdown/boundary.go:127-228 | the kind of every line by its bytes: three equal fence characters, bars around at least one byte, a block name in any case right after a leading `<`, the closing tag of a block name in any case anywhere |
| MarkdownLines.NoCutIff | internal/markdown/boundary.go:8-107 | for every text, on its lines: no cut if and only if it is empty, its first line is its only fence, all lines are rows, or its first line opens a block and none closes one or is a fence or row |
| MarkdownLines.QuietTextIsSafe | internal/markdown/boundary.go:8-107 | a text without fences, rows and opening lines is safe to its end |
| MarkdownLines.EveryBlockName | internal/markdown/boundary.go:181-228 | each of the eighteen names opens a block, whatever follows it, and its closing tag closes one |
| MarkdownLines.OpenBlockIsHeld | internal/markdown/boundary.go:78-91 | a block opened by any of the names is held, whatever attributes follow the name, and the plain line after it too |
| Batcher.KeyInjective | internal/bridge/bridge.go:3134-3137 | two different streams never share a batch |
| Batcher.SplitAtSafeBoundary | internal/bridge/bridge.go:3230-3242 | the two parts are the content, cut where FindSafeCut says if that is strictly inside it, and something is always sent |
| Batcher.BatchTotalSize | internal/bridge/bridge.go:3245-3251 | the sum is the length of the merged content |
| Batcher.Bridge.BatchContent | internal/bridge/bridge.go:3130-3156 | one arrival step: batch made, timer armed on first entry, chunk added, forced flush at the threshold |
| Batcher.Bridge.FlushOne | internal/bridge/bridge.go:3180-3226 | one batch: the message sent and the remainder kept, with its force flag |
| Batcher.Bridge.DoFlushLocked | internal/bridge/bridge.go:3180-3226 | one flush of all batches, whatever order the map is walked in |
| Batcher.Bridge.FlushBatches | internal/bridge/bridge.go:3159-3177 | one timer callback: flush, re-arm while something is held, one Done |
| Batcher.Bridge.StopBatching | internal/bridge/bridge.go:609-623 | the batching part of Stop: Done taken over only when the timer will not fire, then a flush |
| BatcherRuns.EveryRunKeeps | internal/bridge/bridge.go:3130-3226 | over every interleaving: sent then held content of each stream is its input in order, held content is under 4096 bytes and unforced, held content has a callback until Stop, and the wait group counts the callbacks |
| BatcherRuns.OneOutstanding | internal/bridge/bridge.go:3159-3177 | in every reachable state the wait group is not negative, and before Stop exactly one callback is outstanding while something is held |
| BatcherRuns.ArrivalMeaning | internal/bridge/bridge.go:3130-3156 | on every run, a chunk joins what its stream holds: below 4096 bytes nothing is sent; from there on all of it is, and nothing of the stream is held back |
| BatcherRuns.FlushesDrain | internal/bridge/bridge.go:3180-3226 | without input a batch survives fewer flushes than it holds bytes |
| BatcherRuns.TwoFlushesDrain | internal/bridge/bridge.go:3180-3242 | two are enough where no structure stands inside HTML |
| BatcherRuns.StopSendsAllIff | internal/bridge/bridge.go:609-623 | on every run, Stop's flush leaves nothing if and only if the lines of each held content are one unfinished block or finished |
| BatcherRuns.EveryMessageIsLabelled | internal/bridge/bridge.go:3197-3211 | on every run, every message sent has the session and protocol of a chunk that had arrived, and is a thought on the wire just when that chunk was one |
| BatcherDrain.QuietRunsEnd | internal/bridge/bridge.go:3159-3177 | from any reachable state, a stretch of timer and callback steps alone is bounded in length and can be continued exactly while the wait group is not zero; at zero nothing is held unless Stop has run |
| Replay.NormalizedIDMeaning | internal/replay/recorder.go:166-174 | two ids match if and only if they are equal strings, equal numbers, or other values that print alike |
| ReplayRuns.UnmatchedReplyHasNoGate | internal/replay/recorder.go:78-89 | a recorded reply that no earlier request's id matches, in its JSON type and value, gets no gate |
| Replay.Recorder.constructor | internal/replay/recorder.go:34-57 | a new script holds the header and no pending request |
| Replay.Recorder.Frame | internal/replay/recorder.go:62-105 | one frame appended with its gate, sequence number and pending map; errors when closed or not JSON |
| Replay.Recorder.Close | internal/replay/recorder.go:109-127 | the recorder is closed and nothing else changes |
| Replay.LoadScript | internal/replay/script.go:83-154 | the loading loop gives the script or the error of the first bad line |
| ReplayRuns.LoadAcceptsIff | internal/replay/script.go:94-153 | accepted if and only if the header is first and only there, frames are dense and well directed, gates are on out-frames and writes have a path |
| ReplayGates.LoadedIsFile | internal/replay/script.go:83-154 | an accepted script is the file: the header of its first line, all its frames and all its writes in order, hand-written gates and counts included |
| ReplayGates.RefusedForFirstBadLine | internal/replay/script.go:94-149 | a refused file is refused for its first bad line, by number and kind of fault |
| ReplayGates.GateMeaning | internal/replay/recorder.go:78-161 | the recorded gate of every frame, on the trace: the method of the request it answers by id, if no other frame used that id in between, and nothing for any other frame |
| ReplayGates.JunkLeavesNoTrace | internal/replay/recorder.go:92-95 | a frame that is not JSON leaves no line, no number and no pending request |
| ReplayRuns.PendingIsOpen | internal/replay/recorder.go:78-89 | the pending map is, for every id, the latest request of the trace no response has answered |
| ReplayRuns.RecordedScriptLoads | internal/replay/script.go:83-154 | any recorded trace loads, and gives the same frames back with the gates of the requests they answer |
| ReplayRuns.Player.ReadLine | internal/replay/player.go:62-86 | a line counts for its method or its response id and replaces the gate channel, or changes nothing |
| ReplayRuns.Player.TryGate | internal/replay/player.go:122-139 | one turn of the waiting loop: pass if and only if the count is reached |
| ReplayRuns.Player.TryFrame | internal/replay/player.go:92-111 | one attempt at a frame: an out-frame is emitted if and only if it has no gate or its gate was named at least once and at least afterCount times |
| ReplayRuns.ReachableKeeps | internal/replay/player.go:57-139 | in every reachable state the emitted frames are the script's out-frames so far in order, the counters are true counts, and no gate was passed before it was met |
| ReplayGates.PassedGatesWaited | internal/replay/player.go:92-139 | in every reachable state, the bridge has sent at least one line, and at least afterCount lines, that the gate of any frame passed so far names |
| ReplayGates.EmitsIff | internal/replay/player.go:62-139 | conversely, a player that is not waiting emits the next out-frame if and only if that many have been sent, and otherwise waits |
| ReplayRuns.NoLostWakeup | internal/replay/player.go:122-139 | a player waiting at a gate that is open has been signalled |
| ReplayRuns.MovesShrinkWork | internal/replay/player.go:57-139 | every move shrinks a measure, so every run ends |
| ReplayRuns.NeverStuckIff | internal/replay/player.go:57-139 | every run that goes as far as it can emits all out-frames in order if and only if each gate is met by the in-frames before it |
| ReplayRuns.RecordedScriptReplays | internal/replay/recorder.go:78-89 | that is so for every recorded script: recording, loading and replaying never sticks |
| ReplayRuns.SentFirstIff | internal/replay/player.go:122-139 | an out-frame waits for an in-frame if and only if some gate up to it is not met by the in-frames before that one |
| ReplayRuns.SecondReplyMayComeFirst | internal/replay/recorder.go:82-89 | with two requests of one method the second reply need not wait for the second request |
| ReplayRuns.FirstReplyWaits | internal/replay/recorder.go:82-89 | a reply gated on a method waits for the first request of that method |
| UploadPool.StepKeeps | internal/deploysource/deploysource.go:270-319 | every step keeps each job in exactly one place, room for each worker's error, and no failure forgotten |
| UploadPool.ReportNeverBlocks | internal/deploysource/deploysource.go:275-292 | on every schedule a worker with an error can send it |
| UploadPool.EightAtMost | internal/deploysource/deploysource.go:273-292 | eight workers, and at most eight live ones and waiting errors together |
| UploadPool.NoDeadlock | internal/preview/upload.go:37-85 | until caller, feeder, closer and workers have all ended some step is possible |
| UploadPool.StepsShrinkWork | internal/preview/upload.go:37-85 | every step shrinks a measure, so every schedule ends |
| UploadPool.ReturnMeaning | internal/deploysource/deploysource.go:311-319 | a nil return if and only if no read or PUT failed, and then every upload was PUT exactly once; an error returned is one that happened |
| SourceUpload.RunChunkedSourceUpload | internal/deploysource/deploysource.go:421-465 | the calls made are those of the parts up to the first failure, and complete follows if and only if every part went through |
| SourceUpload.RunSourceUpload | internal/deploysource/deploysource.go:385-404 | chunked if and only if the feature is offered and there are more than 800 files, and then successful if and only if every part and complete went through; otherwise one declare, upload, complete, cut at the first failure |
| SourceUpload.PartsDeclarePrefix | internal/deploysource/deploysource.go:429-438 | the slices of the first k parts concatenate to a prefix of the pack |
| SourceUpload.TotalBytesAppend | internal/deploysource/deploysource.go:423-426 | the declared total is the sum of the sizes |
| SourceUpload.ChunkedSuccess | internal/deploysource/deploysource.go:421-465 | on success: slices of 1 to 800 files that concatenate to the pack, ceil(n/800) of them, one true total, the compose path on the last only, each part uploaded after its declare, one complete at the end with all path and hash pairs in order |
| SourceUpload.EveryUploadPutOnce | internal/deploysource/deploysource.go:270-319 | on success, with the outcomes of uploadAll behind the answers, every presigned upload of every part was PUT exactly once |
| SourceUpload.FailureNeverCompletes | internal/deploysource/deploysource.go:438-448 | after a failed part complete is never called |
| PromptLanes.Bridge.EnqueuePrompt | internal/bridge/prompt_lane.go:23-46 | the critical section, lane pointers included, makes one enqueue step and starts a drainer if and only if none was running |
| PromptLanes.Bridge.DrainTurn | internal/bridge/prompt_lane.go:48-63 | one turn of the drainer: the next prompt, or the lane retired from the map |
| PromptLaneRuns.RunKeeps | internal/bridge/prompt_lane.go:23-63 | over every interleaving lanes in the map and drainers correspond one to one, across deletion and re-creation, and no prompt is lost or doubled |
| PromptLaneRuns.PromptsInOrder | internal/bridge/prompt_lane.go:23-63 | per session: at most one prompt in hand, and handled, in hand and waiting prompts together are the arrivals in order |
| PromptLaneRuns.WaitingPromptsMove | internal/bridge/prompt_lane.go:48-63 | an unhandled prompt always has a drainer that can move |
| PromptLaneRuns.RunningIffListed | internal/bridge/prompt_lane.go:23-63 | in every reachable state the lanes marked as running are exactly those in the map |
| Terminals.Adapter.HandleTerminalCreate | internal/protocol/acp.go:1359-1368 | a new id with its state in the map |
| Terminals.Adapter.GateOnMode | internal/protocol/acp.go:1386-1392 | straight to execution in the two auto modes, otherwise the timer is armed |
| Terminals.Adapter.ParkTerminal | internal/protocol/acp.go:1417-1419 | the command is parked |
| Terminals.Adapter.ResolvePendingTerminal | internal/protocol/acp.go:1510-1541 | the first answer or timeout takes the parked command; any later one finds nothing |
| Terminals.Adapter.BeginTerminalCommand | internal/protocol/acp.go:1544-1561 | the command starts if and only if the relaxed validator accepts it |
| Terminals.Adapter.EndTerminalCommand | internal/protocol/acp.go:1586-1595 | the result is stored and the channel closed only for a state still in the map |
| Terminals.Adapter.HandleTerminalRelease | internal/protocol/acp.go:1734-1736 | the state leaves the map |
| Terminals.Adapter.DropPendingOnDisconnect | internal/protocol/acp.go:386-392 | every parked command is dropped and its timer stopped |
| Terminals.TerminalSafety | internal/protocol/acp.go:1324-1604 | over all races a done channel is closed at most once, a command starts at most once, never after a denial or drop, and only authorised |
| Terminals.ClosedIff | internal/protocol/acp.go:1510-1595 | for a terminal with nothing under way: its done channel was closed if and only if it was not dropped and its state was still in the map at the one step that denied it, found it invalid or ended its run |
| Terminals.StartsAreAuthorised | internal/protocol/acp.go:1380-1392 | before every start there was, while the command was parked, an answer for its id that reads "allow" or "approve", or it was created in one of the two auto-approving modes, and the validator accepts it |
| Terminals.ParkedHasTimerIff | internal/protocol/acp.go:1413-1419 | on every run a parked command's timer is armed or about to call back if and only if it did not call back before the command was parked |
| Terminals.ParkedWithoutTimer | internal/protocol/acp.go:1413-1419 | a run in which it did |
| Terminals.ReleasedStaysOpen | internal/protocol/acp.go:1510-1541 | a run that releases a waiting terminal, then denies it: at rest, never closed |
| Terminals.DroppedStaysOpen | internal/protocol/acp.go:386-392 | a run that drops a waiting terminal on disconnect: at rest, never closed, and no timer left |
| Terminals.AnswerMeaning | internal/protocol/acp.go:1502-1541 | an answer to a parked command sends it to execution if and only if the option reads "allow" or "approve" somewhere in any letter case, and denies it otherwise; an answer for another id changes nothing |
| Terminals.OfferedOptions | internal/protocol/acp.go:1431-1433 | of the two options offered, allow_once runs the command and reject_once denies it |
| Terminals.ModeMeaning | internal/protocol/acp.go:1386-1392 | accept-edits and accept-all run the command at once, any other mode starts its permission timer |
| AcpRpc.RpcTable.Register | internal/protocol/acp.go:2203-2207 | a fresh id, a channel of capacity one, one waiter |
| AcpRpc.RpcTable.DeliverRPC | internal/protocol/acp.go:2190-2199 | a registered waiter is taken exactly once |
| AcpRpc.RpcTable.RemoveWaiterOnTimeout | internal/protocol/acp.go:2217-2221 | the waiter goes when the timeout is chosen |
| AcpRpc.RepliesCorrelate | internal/protocol/acp.go:2190-2223 | on every run each request gets at most one reply, only one with its own id, delivering never blocks, and no id stays registered after callRPC returned |
| AcpRpc.AskedBeforeAcknowledged | internal/protocol/acp.go:2202-2223 | ids are given out once, so an acknowledged request was made before |
| AcpRpc.ModeBeforePrompt | internal/protocol/acp.go:1766-1775 | on every run, when a prompt is written for a session, the agent had reported the wanted mode for it, or was asked for it and then acknowledged that very request |
| AcpReplies.NoReplyLost | internal/protocol/acp.go:2190-2223 | on every run, for every request: a reply was taken by its waiter if and only if one is on its way to the channel, in it, or received; and a call that has not returned is registered exactly while none was taken |
| AcpReplies.IdsAreDistinct | internal/protocol/acp.go:2146 | no id is given to two requests |
| AcpReplies.TurnEndsIff | internal/protocol/acp.go:1748-1813 | a turn ends exactly with the reply to its prompt, which does nothing else, or the next prompt, or a stray stop reason |
| AcpReplies.CallGoesThrough | internal/protocol/acp.go:2190-2223 | from any reachable state a registered call can be written, answered and acted on; a positive reply exposes the session or switches the mode, a negative one does neither |
| AcpReplies.PromptAfterMode | internal/protocol/acp.go:2228-2268 | the run that asks for the wanted mode, prompts once it is acknowledged, and then switches the mode |
| AcpReplies.PromptAtOnce | internal/protocol/acp.go:1764-1784 | the run of a session that reports the wanted mode |
| TaskPool.Manager.ActiveTaskCountLocked | internal/session/manager.go:149-160 | the counting loop gives the number of active task sessions other than the excluded one |
| TaskPool.Manager.Enqueue | internal/session/manager.go:172-178 | one enqueue step: the item goes from the hand to the tail |
| TaskPool.Manager.DequeueNext | internal/session/manager.go:180-189 | one dequeue step: the head goes into the drainer's hand, or nothing happens when empty |
| TaskPool.Manager.RegisterTask | internal/session/manager_new.go:102-171 | one start step of a task whose old session cannot be resumed: that session is removed, then the task is registered if and only if the pool has room |
| TaskPool.Manager.StopWithExitCode | internal/session/manager.go:687-727 | one stop step: the session leaves the map; the capacity callback is started if it was there, the exit callback if it was a task session |
| TaskPool.Manager.StopDead | internal/session/manager.go:753-772 | one step that removes exactly the sessions neither connecting nor connected |
| TaskPool.TaskMeta.Store | internal/bridge/bridge.go:3949-3958 | one store-meta step of a launch: the meta of the task is stored under its id |
| TaskPool.TaskMeta.LookUp | internal/bridge/bridge.go:4548-4555 | one look-up step of an exit callback: the meta stored under the id, or none |
| TaskPool.TaskMeta.Forget | internal/bridge/bridge.go:4557-4560 | one step of a callback that found meta: the meta of the id is gone and its report is on the way |
| TaskSteps.PoolCheckMeaning | internal/bridge/bridge.go:3802-3815 | a dispatched task goes to the queue if and only if the active task sessions have reached the pool size |
| TaskSteps.StartMeaning | internal/session/manager_new.go:69-171 | a start, whatever ids are in use: nothing happens to a session that can be resumed; otherwise the old one goes, and the task is registered under a fresh instance or handed back, by the number of other active task sessions |
| TaskSteps.QueuedTaskStarts | internal/session/manager.go:180-189 | while the pool has room the task at the head of the queue can be taken out and registered |
| TaskSteps.ConnectedMeaning | internal/session/manager_new.go:258-266 | a session stops connecting only when its own Connect returns |
| TaskPoolRuns.PoolNeverOverfull | internal/session/manager_new.go:117-120 | in every reachable state, with re-used ids and replacements, task sessions never exceed the pool size |
| TaskPoolRuns.EveryTaskInOnePlace | internal/bridge/bridge.go:3887-4002 | with distinct ids every dispatched task is in exactly one of: a dispatcher's or drainer's hand, the queue, the map with its own job, ended; and it is reported at most once, never before it ended, never if StopDead removed it |
| TaskReports.EndedTaskIsReportedIff | internal/bridge/bridge.go:4546-4625 | on every run an ended task, with no callback or Connect outstanding, has exactly one report pending or sent if and only if StopDead did not remove it and its launch failed, or it has a job and no exit callback of it looked before its meta was stored |
| TaskReports.LostOnlyIfRemovedOrStoppedEarly | internal/bridge/bridge.go:3943-3958 | the report of a task with a job is lost only if StopDead removed it, or it was stopped while registered and before its meta was stored |
| TaskReports.RemovedIsUnreported | internal/session/manager.go:753-772 | a task removed by StopDead has no report, then and later |
| TaskReports.UnreportedForEver | internal/bridge/bridge.go:4546-4625 | a task that ended without a report never gets one |
| TaskReports.ReportCanBeLost | internal/session/manager.go:687-727 | for any task with a job and any pool, a run that stops it in Connect, looks up too early, connects all the same, and never reports it |
| TaskPoolRuns.StartTaskMeaning | internal/session/manager_new.go:69-171 | with distinct ids a start registers the task or hands it back for the queue |
| Ring.RingRefinesList | internal/bridge/buffer.go:56-60 | after any number of pushes, across all wrap-arounds, the ring holds exactly the last capacity items in order, whatever its slots held before |
| ReplayRing.MessageBuffer.constructor | internal/bridge/buffer.go:30-39 | an empty buffer; a capacity of zero or less becomes 1000 |
| ReplayRing.MessageBuffer.Push | internal/bridge/buffer.go:43-63 | the message joins the list under the next consecutive id |
| ReplayRing.MessageBuffer.ReplayAfter | internal/bridge/buffer.go:67-87 | the result is the list from the first retained message above the acknowledged id to the newest |
| ReplayRing.MessageBuffer.SetLastAck | internal/bridge/buffer.go:90-96 | the acknowledged id never goes back |
| ReplayRing.ReplayIsSuffix | internal/bridge/buffer.go:76-86 | filtering by id yields a suffix: no gap up to the newest |
| ReplayRing.ReplayAfterMeaning | internal/bridge/buffer.go:67-87 | what is missing from a replay is exactly what was acknowledged or let go by the ring |
| LoopDetector.Detector.constructor | internal/loopdetect/detector.go:32-38 | an empty window of the given size, zero included |
| LoopDetector.Detector.Record | internal/loopdetect/detector.go:40-78 | the verdict is the one on the plain list of the last windowSize calls since the last Reset |
| LoopDetector.Detector.CountOf | internal/loopdetect/detector.go:52-57 | the slot count is the true multiplicity, stale slots excluded |
| LoopDetector.Detector.LastSix | internal/loopdetect/detector.go:66-71 | the copied slots are the six newest calls, newest first |
| LoopDetector.Detector.Reset | internal/loopdetect/detector.go:80-85 | nothing recorded before counts any more |
| LoopDetector.Rotation | internal/loopdetect/detector.go:52-57 | the occupied slots hold the recent calls in some order, so counting in slot order is sound |
| LoopDetector.PingPongIsReportedIff | internal/loopdetect/detector.go:65-75 | ping-pong is reported if and only if the last six calls alternate between two and neither threshold is met, which needs thresholds above three |
| LoopDetector.VerdictMeaning | internal/loopdetect/detector.go:51-77 | for every list of calls: critical if and only if the newest occurs crit times or more, else a warning if and only if it occurs warn times or more or the last six alternate, with the message of each |
| LoopDetector.SteadyLoopIsCriticalIff | internal/loopdetect/detector.go:58-60 | a call repeated n times is critical if and only if min(n, window) reaches the threshold |
| LoopDetector.WordingTellsRule | internal/loopdetect/detector.go:59-74 | the messages of the rules are told apart by their text |
| LoopDetector.Itoa | internal/loopdetect/detector.go:87-100 | digit loop and in-place reversal give the decimal numeral; nothing for a negative number |
| LoopDetector.NumeralReadsBack | internal/loopdetect/detector.go:87-100 | the numeral reads back as the number and has no leading zero |
| AccessLog.HostTrafficDelta | node/agent/accesslog.go:31-69 | new offset and hit for every answer of the file system, judging exactly the complete lines of the window |
| AccessLog.AnyNamesMeaning | node/agent/accesslog.go:59-67 | a hit is a non-empty complete line whose host is the wanted one letter by letter, case aside |
| AccessLog.LastIndexNewline | node/agent/accesslog.go:54-58 | the last newline of the window, or none |
| AccessLog.TornPart | node/agent/accesslog.go:54-58 | cutting at the last newline keeps all complete lines and leaves the torn one |
| AccessLog.SplitAtLineStart | node/agent/accesslog.go:60 | splitting goes through at a line start |
| AccessLog.TailIsFaithfulIff | node/agent/accesslog.go:31-69 | on every run over a growing file: offset at a line start and every complete line before it judged once, in order, if and only if no window failed to be read; a hit was reported if and only if a judged line names the host |
| AccessLog.TailEqualsScan | node/agent/accesslog.go:31-69 | after a poll that read its window, the polls together judged exactly the complete lines written since the start, as one scan would |
| AccessLog.ReplacedFileIsNoticedIff | node/agent/accesslog.go:36-47 | the first poll that reads a new file goes back and judges nothing if and only if it is shorter than the old offset; otherwise it passes over what precedes that offset, and judges lines of the file if and only if the offset is a line start in it or no line is complete |
| UrlPaths.RemoveDotsIsWalk | internal/preview/rewrite.go:44-48 | the string algorithm of RFC 3986 section 5.2.4 does on a path what removing dot segments does on its list of segments |
| UrlPaths.WalkUnderIff | internal/preview/rewrite.go:20-27 | under a prefix a path resolves to the prefix and its own resolution if and only if it does not climb out, or there is no prefix |
| UrlPaths.ElsewhereIff | internal/preview/rewrite.go:57-61 | a reference leads to another origin if and only if it names a scheme or begins with two slashes |
| HtmlRefs.TokensRender | internal/preview/rewrite.go:13 | the matches of the pattern and the text between them are the page |
| HtmlRefs.RenderTokens | internal/preview/rewrite.go:13 | text written from such tokens is matched as those tokens again |
| HtmlRefs.RewrittenReadsBack | internal/preview/rewrite.go:51-80 | a rewritten page, matched again, has the rewritten references and otherwise its old text |
| HtmlRefs.SecondRunRewritesNothing | internal/preview/rewrite.go:51-80 | a second run counts no rewrite and leaves the page as it is |
| HtmlRefs.NoChangeNoDifference | internal/preview/rewrite.go:82-86 | no rewrite counted if and only if the tokens are unchanged, so skipping the write loses nothing |
| HtmlMeaning.MatchMeaning | internal/preview/rewrite.go:13 | the pattern matches at the head of a text exactly the src and href attributes that stand there: name, equals sign in white space, value between quotes of one kind |
| HtmlMeaning.ReplacedMeaning | internal/preview/rewrite.go:50-80 | a reference is rewritten if and only if its value is one slash, not two, and a path that is a file of the output, index.html if empty; it becomes prefix, path, query and fragment |
| HtmlMeaning.RewrittenMeaning | internal/preview/rewrite.go:44-82 | the rewritten page, reference by reference: those change so, all else is as it was, and the count is their number |
| HtmlMeaning.PrefixMeaning | internal/preview/rewrite.go:44-48 | one step up per directory, a dot at the top |
| PageWalk.RunPage | internal/preview/rewrite.go:31-92 | pages before the first failure are edited, the failing one is as its write left it, all others are untouched |
| PageWalk.RunTotal | internal/preview/rewrite.go:85-92 | the total counts the changes made, a page whose write failed included |
| HtmlRewrite.DepthIsDirectories | internal/preview/rewrite.go:96-102 | the slash count is the number of directories above the file |
| HtmlRewrite.RewritePage | internal/preview/rewrite.go:50-80 | the loop over matches gives the rewritten page and the number of rewrites |
| HtmlRewrite.BuildOutput.RewriteHtmlAbsolutePaths | internal/preview/rewrite.go:28-92 | the walk leaves pages, total and failure as the plain walk over values does |
| HtmlRewrite.PagesLeft | internal/preview/rewrite.go:28-92 | in that result every file is accounted for: HTML pages the walk got through are rewritten, the one it stopped at is as its failed write left it, all others are untouched |
| HtmlRewrite.OriginalTarget | internal/preview/rewrite.go:57-72 | served at the root a root-absolute reference means its path, index.html for a bare slash, with query and fragment |
| HtmlRewrite.RewrittenTarget | internal/preview/rewrite.go:44-80 | served below a prefix the rewritten reference resolves to its path walked from the prefix |
| HtmlRewrite.RewriteKeepsTargetIff | internal/preview/rewrite.go:20-27 | below any prefix, from any file, the rewritten reference leads to prefix plus original target, query and fragment kept, if and only if it does not climb above the root or there is no prefix |
| HtmlRewrite.RewriteKeepsPlainTarget | internal/preview/rewrite.go:20-27 | without dot segments the target is prefix, slash, path part |
| HtmlRewrite.KeepsTargetWithoutDotDot | internal/preview/rewrite.go:20-27 | a reference without `..` segments always keeps its target |
| HtmlRewrite.ClimbingLeavesThePrefix | internal/preview/rewrite.go:20-27 | a reference that climbs leads out of the prefix, where the root would have stopped it |

## Left out

- ShellAgreement.RelaxedIsSegmentwiseStrict: the condition is sufficient for the law and exact for the scanners to read alike, but not necessary for acceptance to agree; `LawHoldsIff` is the exact statement.
- Replay.Recorder.Frame: write and flush errors, the nil recorder and the file itself are not modelled; a frame that is not JSON fails to marshal.
- Replay.Recorder.Close: errors of the last flush and of closing the file are not modelled.
- Replay.LoadScript: lines arrive decoded; the 16 MiB line limit and read errors of the scanner are not modelled.
- ReplayRuns.NeverStuckIff: write errors and cancellation of the context are not modelled, and the bridge sends each recorded in-frame once all out-frames recorded before it were emitted.
- LoopDetector.Detector.Record: a window of no slots is required not to be used, since indexing it fails at run time; negative sizes, which fail in the constructor, are not modelled.
- AccessLog.TailIsFaithfulIff: the file only grows; a file replaced between polls is covered for the poll that meets it (`ReplacedFileIsNoticedIff`), not over whole runs.
- HtmlRewrite.RewriteKeepsTargetIff: percent-encoding is not modelled, the hosting prefix and file names have no dot segments, and whether a target exists is a given predicate.
- HtmlRewrite.BuildOutput.RewriteHtmlAbsolutePaths: the files arrive as a list, so errors of the directory walk itself are not modelled.
- TaskPoolRuns.EveryTaskInOnePlace: holds for distinct task ids apart from chat ids; re-dispatch of an id is only covered by `PoolNeverOverfull`, and the early branch that ignores a re-dispatch of a live task is not modelled.
- TaskReports.EndedTaskIsReportedIff: a report counts when it is about to be sent; the work between look-up and report (commit, push, artifacts) and the reports of assignments refused before the pool check are not modelled, neither are StopAll at shutdown and a bridge without a callback manager.
- AcpRpc.ModeBeforePrompt: the mode wanted is the one wanted when session/new was answered; a later SetMode may still be under way; applyInitialMode registers its request in the step that starts it.
- AcpReplies.TurnEndsIff: a result with agentInfo counts as one without a stop reason, and what is shown when a turn ends is not modelled.
- waitForTurnEnd and the stale-turn cancel before a prompt: timing only.
- preview Upload (internal/preview/upload.go:112-139): the same declare, PUT, complete sequence as the unchunked source upload; only its uploadAll is modelled.
- sendMessage is an append to an output sequence; buffering while offline, flushOffline and reconnection are not modelled.
- cleanupIdleSessions removes only sessions whose status is no longer active; their status changes in the critical section that removes them, so it is no step of the pool.
- Capacity callbacks and the order in which the drain picks up tasks: the drain may run at any time, so nothing is claimed about a non-empty queue implying a full pool or about start order.
- Terminal ids and request ids are taken to be fresh; output, exit codes and the thirty-second clean-up (a release at any time) are not modelled.
- SetMaxConcurrent and other configuration at run time: the pool size is fixed.
- Timers fire at any time or never; durations, jitter and tickers are not modelled.
- WebSocket, HTTP, PTY, process spawning, docker, git, Caddy, installers and the command line: foreign effects.
- Scanner rule tables, metrics, alerts, logging, tray, notifications, status tracker, spec versions, rules engine: easy members only.
