# Neuron, verified

A Dafny model of the self-contained algorithms and protocols behind Neuron, a
coding agent with a command line and several clients, with proofs of what they
are meant to guarantee. `dafny verify dfyconfig.toml` checks everything.

| files | what they model |
|---|---|
| `LineScript`, `LineDiff`, `HunkView`, `LineDiffer` | the line diff: common ends, LCS table, walk, numbering, context filter |
| `NativeBundle`, `BundleInstaller` | the crash-safe swap of the native UI bundle, on a small file system |
| `Session`, `SessionInvariants`, `SessionHistory`, `SessionReplay`, `SessionEffects`, `SessionReports` | the session reducer, whole runs of it, and what each action comes to |
| `Replication` | the controller and the WebSocket transport that replicate the session |
| `EditDistance` | the two-row edit distance behind command suggestions |
| `SseFraming`, `SseParsing`, `SseWriting`, `SseDelivery`, `SseFields`, `SseStandard` | the incremental event-stream parser, what its caller is handed, and how its data compares to the standard's |
| `JsonLines` | the line splitter and the message encoder |
| `PromptCache`, `PromptCacheRuns`, `PromptCacheBreaks` | the completion cache, its counters, and cache breaks |
| `Retry`, `RetryOutcomes` | the retry budget, its progress, the loop that spends it, and how a send ends |
| `Skills` | skill listing and skill lookup |
| `Download` | concurrent verified downloads of a release binary |
| `ExitManager` | shutdown with cleanup handlers and deadlines |
| `Text`, `StableSort`, `Numbers`, `Wrappers` | what these share |

Code that changes things step by step is written that way: classes with the
fields the source has (`JsonLineSplitter`, `SseParser`, `SessionController`,
`WebSocketTransport`, `Installer`, `Cache`, `RetryProgress`, `ExitManager`),
arrays filled in place (the LCS table, the kept lines, the rows of the edit
distance) and loops with invariants. Each such method is proved equal to a
function of its input or old state, and the theorems are about that function.

## What the proofs found

* The diff has the fewest changed lines if and only if the table is used, or it
  is skipped for two middles that share no line (`LineDiff.ScriptIsShortest`).
* A diff that was not cut determines the new text if and only if the context is
  not negative or nothing changed: a negative context shows nothing at all
  (`LineDiff.DiffRebuilds`).
* What the caller of the stream parser is handed is independent of how the
  stream was cut if and only if every frame parses or no event comes before the
  first frame that does not (`SseDelivery.DeliveryDoesNotDependOnChunks`). The
  error is the same however the stream was cut; events read earlier in the push
  that fails are lost with it (`SseDelivery.EventsLostWithError`).
* With line feeds or CR-LF pairs for line endings, the data read from a frame is
  what section 9.2.6 of the WHATWG HTML Living Standard reads if and only if the
  frame does not start with an indented data field, every data field has its
  colon and no white space before its value but the one space the standard
  allows, and the last line is no data field whose value ends in white space
  (`SseStandard.FrameAsInStandard`). One family of frames is outside this: those
  with an indented first field and also a field without a colon, where an empty
  value can stand in for the other (`SseStandard.OneStandsInForTheOther`).
* A time to live of zero makes every lookup a miss, also for a response dated in
  the future. A lookup answers as a plain map does if and only if what the map
  would answer with has not been dropped by an earlier lookup that found it
  expired, whatever the clock did (`PromptCacheRuns.LookupAgreesExactly`); with
  a clock that never goes back it always does (`PromptCacheRuns.LookupAgrees`).
* A request exceeds the retry limit exactly when it was sent without asking for
  leave first (`Retry.OverrunsExactlyWithoutLeave`).
* Resolving a listed skill name finds its unshadowed entry if and only if the
  name is not empty and has no surrounding white space, leading slash or leading
  dollar sign (`Skills.LookupAgreesWithListing`).
* In the downloader the fallback for a failed rename never helps the checksum
  file: it looks for a checksum of the checksum, which no process writes
  (`Download.SidecarFallbackNeverHelps`). So a process can fail although the
  location holds the verified binary and its checksum
  (`Download.FallbackFailsInARace`).
* The command line may make one send of a model call without asking for leave;
  it costs at most one request beyond the limit, and no sleep beyond the budget
  (`Retry.OneSendWithoutLeave`).

Each of the conditions comes with inputs that fail it: two texts of 2002 lines
(`LineDiff.SkippedTableIsNotShortest`), an added line and a negative context
(`LineDiff.NegativeContextLosesLines`), an event before a bad frame, frames with
a space behind the last value, an indent, a second space or no colon
(`SseStandard.LastSpaceIsLost`, `SseStandard.IndentIsForgiven`,
`SseStandard.SecondSpaceIsLost`, `SseStandard.BareFieldIsLost`), a clock that
goes back (`PromptCacheRuns.ClockMustNotGoBack`), a progress that one send has
used up (`Retry.ExhaustedProgressOverruns`) and a skill named `/x`
(`Skills.SlashedNameIsNotFound`).

## Model

| member | source | states |
|---|---|---|
| `LineScript.LcsIsUpperBound` | `ui/neuron-client/src/diff.ts:66-72` | no common subsequence of two texts is longer than the recurrence of the table |
| `LineScript.LcsIsAttained` | `ui/neuron-client/src/diff.ts:66-72` | some common subsequence is as long as the recurrence of the table |
| `LineScript.LcsFitsTable` | `ui/neuron-client/src/diff.ts:66-67` | a table cell is at most the length of either text, so it fits its 32 bits |
| `LineScript.ChangesAtLeast` | `ui/neuron-client/src/diff.ts:60-88` | any edit script at all changes at least as many lines as the longest common subsequence leaves over |
| `LineScript.WalkIsShortest` | `ui/neuron-client/src/diff.ts:73-86` | the walk is a script between its two texts and attains that bound |
| `LineScript.WalkRemovesFirst` | `ui/neuron-client/src/diff.ts:80-85` | removals come before additions in every changed stretch: no removal follows an addition directly |
| `LineDiff.SplitLinesInverts` | `ui/neuron-client/src/diff.ts:29-34` | splitting undoes writing lines out, with LF or CR-LF endings |
| `LineDiff.SplitLinesJoin` | `ui/neuron-client/src/diff.ts:29-34` | the lines of any text hold no line feed and joined are the text without its last line feed, with line feeds for its CR-LF pairs; only the empty text has none |
| `LineDiff.PrefixIsCommon` | `ui/neuron-client/src/diff.ts:49-50` | the prefix cut off is common, and as long as can be |
| `LineDiff.SuffixIsCommon` | `ui/neuron-client/src/diff.ts:51-56` | the suffix cut off is common, and as long as can be beside the prefix |
| `LineDiff.TrimmedParts` | `ui/neuron-client/src/diff.ts:49-58` | both texts are the common head, their own middle and the common tail |
| `LineDiff.LcsOfTrimmed` | `ui/neuron-client/src/diff.ts:48-58` | cutting the common ends loses no optimality: the longest common subsequence loses exactly the lines cut |
| `LineDiff.ScriptSpells` | `ui/neuron-client/src/diff.ts:60-88` | in both branches the context and removed lines spell the old text, context and added lines the new one |
| `LineDiff.ScriptIsShortest` | `ui/neuron-client/src/diff.ts:46-88` | the script has the fewest changed lines of all scripts if and only if the table is used or the middles share no line |
| `LineDiff.SkippedTableIsNotShortest` | `ui/neuron-client/src/diff.ts:62-64` | two texts of 2002 lines with one line in common, for which the script is not the shortest |
| `LineDiff.ScriptRemovesFirst` | `ui/neuron-client/src/diff.ts:60-88` | removals come first in both branches |
| `LineDiff.DiffRebuilds` | `ui/neuron-client/src/diff.ts:41-113` | a diff that is not truncated, and the old lines, rebuild the new lines for every first line number, if and only if the context is not negative or nothing changed |
| `LineDiff.NegativeContextLosesLines` | `ui/neuron-client/src/diff.ts:102-102` | with any negative context the diff of any line added to an empty text is not cut and does not rebuild it |
| `LineDiff.DiffCounts` | `ui/neuron-client/src/diff.ts:112-112` | when the context is not negative, the added and removed counts are consistent with the two lengths, and least possible when the table is used, even when lines are cut off |
| `HunkView.VisibleShowsExactly` | `ui/neuron-client/src/diff.ts:99-111` | exactly the lines within the context of a change are shown, numbered and in order, with a mark exactly between runs that are not adjacent |
| `HunkView.AllChangesShown` | `ui/neuron-client/src/diff.ts:99-111` | when the context is not negative, every added and removed line is shown |
| `HunkView.NumbersPointAtLines` | `ui/neuron-client/src/diff.ts:90-98` | the numbers of a line are its places in the texts it belongs to, counted from the first line's number, and it has no others |
| `HunkView.VisibleRebuilds` | `ui/neuron-client/src/diff.ts:90-111` | copying unshown old lines, dropping removed lines by old number and placing added ones by new number gives the new text |
| `HunkView.NegativeContextShowsNothing` | `ui/neuron-client/src/diff.ts:102-102` | with a negative context no line is kept |
| `LineDiffer.CommonPrefix` | `ui/neuron-client/src/diff.ts:49-50` | the loop stops at the end of the common prefix |
| `LineDiffer.CommonSuffix` | `ui/neuron-client/src/diff.ts:51-56` | the loop stops at the start of the common suffix, in both texts |
| `LineDiffer.FillTable` | `ui/neuron-client/src/diff.ts:67-72` | every cell filled in place is the length of a longest common subsequence of the two rests |
| `LineDiffer.WalkTable` | `ui/neuron-client/src/diff.ts:73-86` | the loop over the table writes the walk's script |
| `LineDiffer.MarkNear` | `ui/neuron-client/src/diff.ts:99-103` | the marked lines are exactly those within the context of a change |
| `LineDiffer.Numbered` | `ui/neuron-client/src/diff.ts:90-98` | each line carries its numbers in the texts it belongs to |
| `LineDiffer.Collect` | `ui/neuron-client/src/diff.ts:104-111` | the lines pushed are the visible ones with their marks |
| `LineDiffer.DiffLines` | `ui/neuron-client/src/diff.ts:41-113` | the whole computation gives the diff the theorems are about |
| `LineDiffer.AdditionDiffIsDiff` | `ui/neuron-client/src/diff.ts:115-119` | the diff of a new file is the ordinary diff against the empty text |
| `NativeBundle.RemovalNeverValidates` | `ui/neuron-tui/scripts/open-tui-native-bundle.ts:199-230` | removing files from a bundle that is not valid never makes it valid |
| `NativeBundle.CompleteExactly` | `ui/neuron-tui/scripts/open-tui-native-bundle.ts:256-289` | a bundle is complete exactly when its three files have contents and its package names the target, its platform, its architecture and the version; its files are those three |
| `NativeBundle.ValidExactly` | `ui/neuron-tui/scripts/open-tui-native-bundle.ts:199-230` | it is valid exactly when besides its receipt names that version and the hash of each of the three files |
| `NativeBundle.SealingWritesTheReceipt` | `ui/neuron-tui/scripts/open-tui-native-bundle.ts:232-254` | sealing succeeds exactly for a complete bundle of the version and changes no file but the receipt |
| `NativeBundle.SealedIsValid` | `ui/neuron-tui/scripts/open-tui-native-bundle.ts:232-254` | a sealed bundle validates at the version it was sealed for |
| `NativeBundle.TamperingInvalidates` | `ui/neuron-tui/scripts/open-tui-native-bundle.ts:219-226` | any of the checked files replaced by bytes of another hash makes the bundle invalid |
| `BundleInstaller.Installer.RecoverInterruptedReplacement` | `ui/neuron-tui/scripts/open-tui-native-bundle.ts:99-122` | recovery keeps the bundle that counts wherever it is interrupted, puts it in place when it ends, and leaves no complete recovery copy beside an invalid package |
| `BundleInstaller.Installer.Seal` | `ui/neuron-tui/scripts/open-tui-native-bundle.ts:232-254` | sealing succeeds only with the receipt fully written for the wanted version, and touches only the staging directory |
| `BundleInstaller.Installer.ReplaceBundle` | `ui/neuron-tui/scripts/open-tui-native-bundle.ts:124-161` | a complete package is replaced by the new one or survives in place or as recovery copy, whichever step throws or dies; with no fault the new one is in place and no copy remains |
| `BundleInstaller.Installer.RollBack` | `ui/neuron-tui/scripts/open-tui-native-bundle.ts:153-175` | after a throw the moved bundle is back in place or still the recovery copy, and `reused` is reported only for a valid package |
| `BundleInstaller.Installer.EnsureBundle` | `ui/neuron-tui/scripts/open-tui-native-bundle.ts:44-97` | a success leaves a package valid at the wanted version; a valid one is reused without installing; a complete bundle is never lost; with no fault the run succeeds, or fails for a package that cannot be sealed, and leaves no staging directory |
| `BundleInstaller.Installer.AnyRuns` | `ui/neuron-tui/scripts/open-tui-native-bundle.ts:99-176` | once the package directory or its recovery copy holds a complete bundle, one of them does after any number of runs that throw or die anywhere |
| `BundleInstaller.Installer.RunTwice` | `ui/neuron-tui/scripts/open-tui-native-bundle.ts:62-64` | a run after a successful one installs nothing, leaves the package valid and, unless it is killed, returns `reused` |
| `Session.FindLastIndex` | `ui/neuron-client/src/session.ts:163-166` | the loop finds the last matching item, or -1 when none matches |
| `Session.RestoreTranscript` | `ui/neuron-client/src/session.ts:423-472` | the loop over a saved chat gives the restored state the theorems are about |
| `SessionInvariants.OneToOne` | `ui/neuron-client/src/session.ts:338-357` | waiting calls and the permissions that name a call correspond one to one |
| `SessionInvariants.ReduceKeepsInv` | `ui/neuron-client/src/session.ts:189-416` | every action keeps keys increasing and below the next key, permission ids unique, and waiting calls and permissions matched on key and id |
| `SessionInvariants.RunKeepsInv` | `ui/neuron-client/src/session.ts:189-416` | the same after every action of every run |
| `SessionInvariants.ReachableStatesAreLinked` | `ui/neuron-client/src/session.ts:171-178` | the same in every state reachable from the initial session |
| `SessionInvariants.AnswerSettlesItsCall` | `ui/neuron-client/src/session.ts:217-231` | answering a permission changes the one call it names and drops that permission and no other |
| `SessionInvariants.NothingUnfinishedAfterEnd` | `ui/neuron-client/src/session.ts:363-370` | after a finished turn or a disconnection no call runs or waits and nothing is asked |
| `SessionHistory.ReduceIsQuiet` | `ui/neuron-client/src/session.ts:189-416` | no action but streamed text and a new start touches the agent's text or moves an item |
| `SessionHistory.ReduceEvolves` | `ui/neuron-client/src/session.ts:189-416` | after one action every item with an old key is a later state of the item that had it |
| `SessionHistory.KeysAreNeverReused` | `ui/neuron-client/src/session.ts:171-195` | over any run, also across reset and resume, a key never comes to mean another item |
| `SessionHistory.TextIsConserved` | `ui/neuron-client/src/session.ts:268-291` | the agent's items joined in order are the text deltas since the last reset or transcript, after that transcript's own text |
| `SessionReplay.RestoreIsReplay` | `ui/neuron-client/src/session.ts:423-472` | for every well-formed transcript, restoring gives the items, keys and working directory that playing it live to the end of its last turn gives |
| `SessionEffects.RequestFindsItsCall` | `ui/neuron-client/src/session.ts:338-356` | a new permission request makes the newest running call of its tool and input wait for it, names that call and changes nothing else |
| `SessionEffects.RequestWithoutCall` | `ui/neuron-client/src/session.ts:349-356` | with no such call the request is kept and names none |
| `SessionEffects.RepeatedRequestIsIgnored` | `ui/neuron-client/src/session.ts:339-339` | a request whose id is pending changes nothing |
| `SessionEffects.AnswerReachesItsCall` | `ui/neuron-client/src/session.ts:217-231` | an answer drops its permission and makes the call it names refused or running again, refused only by this client's own `deny` |
| `SessionEffects.CallIsStarted` | `ui/neuron-client/src/session.ts:292-305` | a started call is one more item, running or cut off, behind a closed block |
| `SessionEffects.ResultSettlesItsCall` | `ui/neuron-client/src/session.ts:306-335` | a result settles the first call with its id, or the first open one of its name when it has none: refused, failed, still cut off or done, and drops the permissions that name this call |
| `SessionEffects.ResultStartsItsCall` | `ui/neuron-client/src/session.ts:313-323` | a result for a call never seen does what it does after that call has started |
| `SessionEffects.DropsByCall` | `ui/neuron-client/src/session.ts:333-333` | of permissions of which one names the call exactly that one is dropped, and the order of the others stays |
| `SessionEffects.CallFromStartToEnd` | `ui/neuron-client/src/session.ts:217-357` | start, request, answer and result of a call add one item and leave all permissions as they were; a call denied here stays refused whatever its result says |
| `SessionReports.FieldsFollowTheirActions` | `ui/neuron-client/src/session.ts:189-416` | for every action, each field of the state outside the transcript changes by the actions that are to change it and by no other: busy, connection, session, sign-in, models, usage and the rest |
| `SessionReports.SwitchIsAnnounced` | `ui/neuron-client/src/session.ts:253-260` | a notice of a new session appears exactly when the old and the new session are named and differ |
| `SessionReports.SwitchIsNotAnnouncedTwice` | `ui/neuron-client/src/session.ts:418-430` | the status that follows a restored chat of the same session adds no notice |
| `SessionReports.SubmitAnswersNewest` | `ui/neuron-client/src/session.ts:204-214` | a submitted message answers the newest open question, starts no turn then, and changes no other item |
| `SessionReports.SubmitWithoutQuestion` | `ui/neuron-client/src/session.ts:204-214` | with no open question it starts a turn |
| `SessionReports.AnswerFindsItsQuestion` | `ui/neuron-client/src/session.ts:232-238` | an answer by id answers the newest question with that id |
| `SessionReports.QuestionIsAnswered` | `ui/neuron-client/src/session.ts:386-387` | a question asked and answered by its id stands answered before its answer |
| `SessionReports.NoticeMayAsk` | `ui/neuron-client/src/session.ts:358-362` | a notice is a question exactly when it starts with `Question:`, with the rest of it trimmed |
| `SessionReports.ErrorIsShown` | `ui/neuron-client/src/session.ts:371-375` | an error is one more item; before the engine is ready it is also the connection's error, and afterwards it closes the open block |
| `SessionReports.StreamedTextIsOneItem` | `ui/neuron-client/src/session.ts:268-276` | text streamed in any number of parts is one item with all of it, closed at the end of the block |
| `SessionReports.StreamedReasoningIsOneItem` | `ui/neuron-client/src/session.ts:277-291` | so is announced reasoning, which keeps its announced length and redaction |
| `SessionReports.UnannouncedReasoning` | `ui/neuron-client/src/session.ts:282-290` | so is unannounced reasoning, which has neither |
| `SessionReports.EndsFailOpenCalls` | `ui/neuron-client/src/session.ts:196-203` | the end of a turn fails exactly the open calls and closes the open block; the end of the engine also explains itself where a call has no output |
| `SessionReports.SubagentIsKept` | `ui/neuron-client/src/session.ts:395-411` | a subagent belongs to the newest call with its id, and keeps its description and type when it finishes |
| `SessionReports.SavedResultSettles` | `ui/neuron-client/src/session.ts:453-468` | a saved result settles the newest call with its id as a live one settles a running call |
| `Replication.SessionController.Submit` | `ui/neuron-client/src/controller.ts:97-100` | sends the prompt, or fails without changing anything; applies it itself only when the far side will not report it back |
| `Replication.SessionController.Slash` | `ui/neuron-client/src/controller.ts:103-107` | the same for a slash command, which loses one leading slash |
| `Replication.OneSlashIsDropped` | `ui/neuron-client/src/controller.ts:103-104` | one slash is dropped when the command starts with it, and nothing else |
| `Replication.SessionController.Answer` | `ui/neuron-client/src/controller.ts:127-130` | the same for an answer |
| `Replication.SessionController.AnswerPermission` | `ui/neuron-client/src/controller.ts:179-182` | the same for a permission |
| `Replication.WebSocketTransport.OnMessage` | `ui/neuron-client/src/remote.ts:188-226` | what each frame does to the last number, the state, the client count and the pending calls |
| `Replication.WebSocketTransport.Rpc` | `ui/neuron-client/src/remote.ts:250-261` | each call gets a number no other has, and fails at once when nothing is connected |
| `Replication.WebSocketTransport.OnClose` | `ui/neuron-client/src/remote.ts:229-236` | every pending call fails, settled ones keep their result, and the session is disconnected |
| `Replication.Act` | `ui/neuron-client/src/controller.ts:97-130` | whatever the user does, a controller whose actions come back sends one message and leaves the state alone |
| `Replication.AnyEvents` | `ui/neuron-client/src/remote.ts:188-226` | frames and the user's own acts, in any order, leave transport and controller with exactly the replica the theorems are about, and send exactly the user's messages |
| `Replication.ClientsFollowTheHost` | `ui/neuron-client/src/remote.ts:196-206` | from any snapshot on, with action frames in order and possibly repeated, a client's state is the fold of the host's actions up to its last number |
| `Replication.ReducedExactlyOnce` | `ui/neuron-client/src/remote.ts:201-206` | since the last snapshot the action numbers reduced are the consecutive ones up to the last number, so each action, the client's own included, takes effect exactly once |
| `Replication.ClientsAgree` | `ui/neuron-client/src/remote.ts:196-206` | two clients with the same last number agree, wherever each attached |
| `Replication.DeliveredIsApplied` | `ui/neuron-client/src/remote.ts:201-206` | after an action frame was delivered, and with no new snapshot, the client's last number is at least that action's |
| `EditDistance.LevenshteinDistance` | `rust/crates/commands/src/lib.rs:1958-1985` | the two-row computation gives the recurrence's value |
| `EditDistance.NextRow` | `rust/crates/commands/src/lib.rs:1973-1982` | one pass over the row turns row i into row i + 1 |
| `EditDistance.DistanceIsLeastEdits` | `rust/crates/commands/src/lib.rs:1958-1985` | the distance is the least number of single-character insertions, deletions and substitutions from one word to the other |
| `EditDistance.EditsAtLeast` | `rust/crates/commands/src/lib.rs:1958-1985` | no sequence of edits is shorter than the distance between its ends |
| `EditDistance.ZeroOnlyWhenEqual` | `rust/crates/commands/src/lib.rs:1959-1961` | the distance is zero exactly for equal words |
| `EditDistance.Symmetric` | `rust/crates/commands/src/lib.rs:1958-1985` | the distance is the same both ways |
| `EditDistance.TriangleInequality` | `rust/crates/commands/src/lib.rs:1958-1985` | a detour is never shorter |
| `SseFraming.NextCutIsFirst` | `rust/crates/api/src/sse.rs:59-72` | the cut chosen is the first place where either separator stands, and there is none exactly when neither occurs |
| `SseFraming.EarlierEndsEarlier` | `rust/crates/api/src/sse.rs:60-72` | of two separators the one that starts first also ends first, though their lengths differ |
| `SseFraming.CutSurvives` | `rust/crates/api/src/sse.rs:59-72` | the first cut of a buffer stays the first cut when bytes are added |
| `SseFraming.DrainIsFraming` | `rust/crates/api/src/sse.rs:74-80` | frames, separators and leftover are the bytes of the stream, in order, with none lost |
| `SseFraming.FramingIsUnique` | `rust/crates/api/src/sse.rs:59-81` | only one framing has no separator inside a frame or the leftover |
| `SseFraming.DrainAppend` | `rust/crates/api/src/sse.rs:28-39` | more bytes add frames after those already cut and change none of them |
| `SseFraming.ChunkingDoesNotMatter` | `rust/crates/api/src/sse.rs:28-39` | frames and leftover are the same for every way of cutting the stream |
| `SseParsing.ParseFrame` | `rust/crates/api/src/sse.rs:88-130` | the loop over a frame's lines gives the frame's event |
| `SseParsing.WrittenEventIsRead` | `rust/crates/api/src/sse.rs:88-130` | a named event written on two lines comes back as the event of its payload, and `ping` and `[DONE]` as none |
| `SseWriting.WrittenLinesAreRead` | `rust/crates/api/src/sse.rs:88-130` | a frame of any lines (comments, names, data, other fields, white space around names and before values) is the event its data lines spell together, joined by line feeds; it is none exactly when its last name is `ping` or its data is missing or `[DONE]` |
| `SseWriting.WrittenPayloadIsRead` | `rust/crates/api/src/sse.rs:109-130` | any payload whose lines keep their ends, written under a name with one data line for each of its lines, is read whole |
| `SseWriting.LastSeparatorMayBeMissing` | `rust/crates/api/src/sse.rs:41-51` | what is left at the end of a stream is read as if its separator had come |
| `SseParsing.SseParser.NextFrame` | `rust/crates/api/src/sse.rs:59-81` | takes the bytes up to the first separator off the buffer, and the separator with them |
| `SseParsing.SseParser.Push` | `rust/crates/api/src/sse.rs:28-39` | the events of all complete frames, or the first error, and what stays in the buffer |
| `SseParsing.SseParser.Finish` | `rust/crates/api/src/sse.rs:41-51` | the event of the leftover, and an empty buffer |
| `SseParsing.PushedGivesAll` | `rust/crates/api/src/sse.rs:28-39` | when all frames parse, one push gives the events of all of them in order |
| `SseParsing.EventsDoNotDependOnChunks` | `rust/crates/api/src/sse.rs:28-39` | when all frames parse, the events of all pushes and the leftover are those of the whole stream |
| `SseParsing.SameStreamSameEvents` | `rust/crates/api/src/sse.rs:28-51` | two ways of cutting one stream give the same events from pushes and finish |
| `SseDelivery.DeliveryDoesNotDependOnChunks` | `rust/crates/api/src/sse.rs:28-39` | what the caller is handed is the same for every way of cutting the stream if and only if every frame parses or no event comes before the first bad frame |
| `SseDelivery.ErrorDoesNotDependOnChunks` | `rust/crates/api/src/sse.rs:32-36` | however the stream is cut, the pushes fail exactly when a frame does not parse, with the first bad frame's error |
| `SseDelivery.PushedGives` | `rust/crates/api/src/sse.rs:28-39` | one push gives all events of the frames it completes, or the error of the first bad one |
| `SseDelivery.EventsLostWithError` | `rust/crates/api/src/sse.rs:32-36` | an event and a bad frame after it: in two pushes the event is handed out, in one it is lost |
| `SseFields.ValueOfLine` | `rust/crates/api/src/sse.rs:109-111` | a line, and the same line with the white space cut from its end, give the same data value if and only if it is no data field, or has its colon, no white space left before its value and none cut from behind it |
| `SseStandard.PairsAreIgnored` | `rust/crates/api/src/sse.rs:101-101` | CR-LF pairs for line feeds make no difference to the data read |
| `SseStandard.FrameAsInStandard` | `rust/crates/api/src/sse.rs:93-112` | for a frame without lone carriage returns, trimming included, the data is that of section 9.2.6 of the WHATWG HTML Living Standard if and only if the frame does not start with an indented data field, all data fields are read alike and the last does not end in white space; excluded are frames with an indented first field and a field without a colon |
| `SseStandard.OneStandsInForTheOther` | `rust/crates/api/src/sse.rs:93-112` | a frame of the excluded family for which both read the same though each leaves out a field |
| `SseStandard.LastSpaceIsLost` | `rust/crates/api/src/sse.rs:93-93` | a space behind the last value is kept by the standard and cut by the parser |
| `SseStandard.IndentIsForgiven` | `rust/crates/api/src/sse.rs:93-93` | an indented first data field is read by the parser and not by the standard |
| `SseStandard.SecondSpaceIsLost` | `rust/crates/api/src/sse.rs:109-111` | of two spaces before a value the standard keeps one and the parser none |
| `SseStandard.BareFieldIsLost` | `rust/crates/api/src/sse.rs:109-111` | a field without its colon is an empty value to the standard and nothing to the parser |
| `JsonLines.JsonLineSplitter.Push` | `ui/neuron-client/src/protocol.ts:730-735` | the lines a chunk completes and the tail it leaves |
| `JsonLines.JsonLineSplitter.Flush` | `ui/neuron-client/src/protocol.ts:737-741` | the tail without its carriage return, if anything is left, and an empty buffer |
| `JsonLines.FedTwice` | `ui/neuron-client/src/protocol.ts:730-735` | two chunks are worth their concatenation wherever the cut is, also between CR and LF |
| `JsonLines.ChunkingDoesNotMatter` | `ui/neuron-client/src/protocol.ts:730-735` | the lines do not depend on how the text is cut |
| `JsonLines.EitherEndingIsRead` | `ui/neuron-client/src/protocol.ts:730-735` | lines that end in LF or CR-LF, in any mixture, come back without their endings and in order, but for the empty ones |
| `JsonLines.FlushGivesTheRest` | `ui/neuron-client/src/protocol.ts:737-741` | what is left at the end comes back without a carriage return, unless it is empty |
| `JsonLines.StringifyIsPrintable` | `ui/neuron-client/src/protocol.ts:624-626` | an encoded value has no control character and is not empty (section 7 of RFC 8259) |
| `JsonLines.SplitterUndoesEncoder` | `ui/neuron-client/src/protocol.ts:624-742` | encoded messages, cut anywhere, come back as the same texts in order with nothing left to flush |
| `PromptCache.Cache.LookupCompletion` | `rust/crates/api/src/prompt_cache.rs:145-192` | what a lookup answers and does to entries, statistics and tracked prompt, all of it saved |
| `PromptCache.Cache.RecordInternal` | `rust/crates/api/src/prompt_cache.rs:209-243` | what recording does, break detection included, all of it saved |
| `PromptCache.Reopen` | `rust/crates/api/src/prompt_cache.rs:120-132` | opening a cache's files again gives the same cache |
| `PromptCacheRuns.StoredIsLatest` | `rust/crates/api/src/prompt_cache.rs:145-243` | an entry is there exactly when one was written and no lookup since found it expired, and it is the latest written |
| `PromptCacheRuns.LookupAgreesExactly` | `rust/crates/api/src/prompt_cache.rs:145-192` | for any clock, a lookup answers as the plain map does if and only if the map's entry is stale anyway or no earlier lookup has dropped it |
| `PromptCacheRuns.FreshIsUndropped` | `rust/crates/api/src/prompt_cache.rs:170-177` | with a clock that never goes back, what is fresh was fresh at every earlier lookup |
| `PromptCacheRuns.LookupAgrees` | `rust/crates/api/src/prompt_cache.rs:145-192` | with a clock that never goes back, a lookup answers with the latest response recorded under the key exactly when that is younger than the time to live |
| `PromptCacheRuns.ClockMustNotGoBack` | `rust/crates/api/src/prompt_cache.rs:169-177` | a run of two events and a clock that goes back, for which the cache misses what the plain map has |
| `PromptCacheRuns.CountersAreExact` | `rust/crates/api/src/prompt_cache.rs:145-243` | over every run and for any clock, hits, misses, writes, tracked requests and token totals are the counts of the plain map's answers that were not dropped, and the tracked prompt is that of the last charged event |
| `PromptCacheRuns.ChargedAsMapAnswers` | `rust/crates/api/src/prompt_cache.rs:145-192` | with a clock that never goes back these are all of the plain map's answers |
| `PromptCacheRuns.BreaksAreTracked` | `rust/crates/api/src/prompt_cache.rs:221-230` | expected and unexpected breaks together are at most the tracked requests |
| `PromptCacheRuns.BreaksArePaidFor` | `rust/crates/api/src/prompt_cache.rs:314-381` | the least drop that counts, once for each break, is at most the cached tokens read before and during the run |
| `PromptCacheRuns.StablePromptBreaksAreUnexpected` | `rust/crates/api/src/prompt_cache.rs:339-381` | while one prompt is repeated, each time within its time to live of the last charged event, no break is explained away, however long the run |
| `PromptCacheBreaks.BreaksAreReported` | `rust/crates/api/src/prompt_cache.rs:314-381` | a break is reported if and only if a prompt was tracked and has another version or its tokens read fell by the least drop; it is unexpected if and only if version, parts and time to live all hold; its reason names the versions, the changed parts in order or the time passed |
| `PromptCacheBreaks.TrackedIsLastCharged` | `rust/crates/api/src/prompt_cache.rs:280-293` | what a run tracks is the prompt, time and tokens of its last charged event, or what was tracked before |
| `PromptCacheBreaks.BreakCountersAreExact` | `rust/crates/api/src/prompt_cache.rs:221-230` | over every run the unexpected and expected counters are the numbers of breaks that nothing explains and of those that something does |
| `PromptCacheBreaks.StepIsRemembered` | `rust/crates/api/src/prompt_cache.rs:384-396` | the statistics remember usage, key and source of the last charged event, and the key of the last lookup |
| `Retry.PlanIsWhatFits` | `rust/crates/api/src/retry.rs:338-350` | the planned delay is the one that fits budget, cap and server, and there is none exactly when no delay fits |
| `Retry.RetryProgress.StartAttempt` | `rust/crates/api/src/retry.rs:122-127` | counts the request, saturating, and records the limit |
| `Retry.TimeWaitedRunsOn` | `rust/crates/api/src/retry.rs:113-119` | the time shown as waited runs with the clock during a wait, does not jump when it begins or ends and stands still after it, and a wait cut short spends no more of the budget than it shows |
| `Retry.RetryProgress.DropWait` | `rust/crates/api/src/retry.rs:171-186` | a completed wait spends its delay, one cut short only the part that elapsed |
| `Retry.Countdown` | `rust/crates/api/src/retry.rs:298-316` | the sleeps add up to the delay, each at most a second, and the reports count down second by second to zero |
| `Retry.SendWithRetry` | `rust/crates/api/src/providers/openai_compat.rs:480-531` | the retry loop gives the progress, ending and notices the theorems are about |
| `RetryOutcomes.BackoffDoubles` | `rust/crates/api/src/providers/openai_compat.rs:580-591` | the backoff doubles with each attempt up to the largest, and is an error after the 32nd |
| `RetryOutcomes.DecisionIsJustified` | `rust/crates/api/src/providers/openai_compat.rs:494-517` | a wait follows a request if and only if it failed, may be retried, is within the limit and some delay fits its budget, and is that delay |
| `RetryOutcomes.SendEndsAsItShould` | `rust/crates/api/src/providers/openai_compat.rs:480-531` | a send makes these waits and ends so if and only if the replies lead to it: with a success, a failure not to be retried, the limit or no delay that fits, or a wait cut short |
| `RetryOutcomes.RetriesUntilSuccess` | `rust/crates/api/src/providers/openai_compat.rs:485-531` | failures for which a delay fits are retried until the success that follows them, with one request more than there were failures |
| `RetryOutcomes.SendRecordsItsRequests` | `rust/crates/api/src/providers/openai_compat.rs:485-486` | the progress counts every request, and the clock time of every wait |
| `RetryOutcomes.NoticesNameTheirReplies` | `rust/crates/api/src/providers/openai_compat.rs:509-524` | each notice carries what the failure before it asked for, and the budget of that kind of failure |
| `Retry.AttemptsOfOneSend` | `rust/crates/api/src/providers/openai_compat.rs:485-508` | one call counts up by at least one, and at most to the greater of one more than before and the limit plus one (33 when the limit is higher, where the backoff overflows) |
| `Retry.SleepOfOneSend` | `rust/crates/api/src/providers/openai_compat.rs:509-531` | the sleep recorded is the sum of the announced waits, less what the last was cut short by, within the largest budget |
| `Retry.NoticesAreHonest` | `rust/crates/api/src/providers/openai_compat.rs:509-531` | no wait exceeds its cap, a server's own delay is never shortened, and retries are numbered one after the other within the limit |
| `Retry.CallStaysWithinLimits` | `rust/crates/api/src/retry.rs:102-109` | however often a call is sent again with leave, attempts stay within the limit plus one and the sleep within the largest budget |
| `Retry.OneSendWithoutLeave` | `rust/crates/rusty-claude-cli/src/api_client.rs:708-764` | with one send made without leave among any number made with it, attempts are at most the limit plus two and the sleep stays within the largest budget |
| `Retry.OverrunsExactlyWithoutLeave` | `rust/crates/api/src/retry.rs:102-109` | short of the 32-bit ceiling, a send overruns the limit if and only if it was made without leave to resend |
| `Retry.ExhaustedProgressOverruns` | `rust/crates/api/src/retry.rs:102-109` | a client without retries whose one request failed: the limit is used up, and sending again without leave overruns it |
| `Retry.DefaultBudgetsSleepThreeMinutes` | `rust/crates/api/src/retry.rs:9-23` | with the default budgets one call sleeps at most 180 seconds, and 60 without the gateway's capacity budget |
| `Retry.SleptIsAtMostWaited` | `rust/crates/api/src/retry.rs:171-186` | when no wait of the run completes early, the budget spent is at most the time really waited |
| `Skills.FindSkills` | `rust/crates/commands/src/lib.rs:3304-3360` | the skills of one root, in directory order |
| `Skills.SkillsAreTheirEntries` | `rust/crates/commands/src/lib.rs:3304-3360` | the skills found are those of the directory entries that hold one, legacy commands included, each once and in order, with the name of the front matter, directory or file |
| `Skills.KeysIgnoreCase` | `rust/crates/commands/src/lib.rs:3364-3364` | two names have one key exactly when they differ in the case of English letters at most |
| `Skills.OrderIsByFirstDifference` | `rust/crates/commands/src/lib.rs:3361-3361` | a name comes before another when it is its beginning or has the smaller character where they first differ |
| `Skills.LoadSkillsFromRoots` | `rust/crates/commands/src/lib.rs:3300-3375` | the list holds every skill, each shadowed by the source of the first one before it with its case-folded name, or not at all |
| `Skills.Find` | `rust/crates/commands/src/lib.rs:2582-2587` | the first skill whose name matches, whatever its case |
| `Skills.ResolveSkillPath` | `rust/crates/commands/src/lib.rs:2524-2594` | the file of the first listed skill with the requested name, an error for an empty request, and another when there is none |
| `Skills.StripKeepsPlain` | `rust/crates/commands/src/lib.rs:2525-2525` | a request is taken as it is exactly when it has no surrounding white space, leading slash or leading dollar sign |
| `Skills.RequestIsStripped` | `rust/crates/commands/src/lib.rs:2525-2525` | a request loses the white space around it, then all slashes and then all dollar signs before its name, and nothing else |
| `Skills.OneUnshadowed` | `rust/crates/commands/src/lib.rs:3363-3371` | each listed name has exactly one unshadowed entry, whatever its case |
| `Skills.LookupAgreesWithListing` | `rust/crates/commands/src/lib.rs:2524-2594` | resolving a listed name finds its unshadowed entry if and only if the name is not empty and has nothing to trim |
| `Skills.SlashedNameIsNotFound` | `rust/crates/commands/src/lib.rs:2525-2525` | a skill whose front matter names it `/x` is listed unshadowed and not found by that name |
| `Skills.RootIsInOrder` | `rust/crates/commands/src/lib.rs:3361-3361` | each root's skills are all listed, in name order, those of one name in directory order |
| `Skills.FirstIsLeast` | `rust/crates/commands/src/lib.rs:2581-2587` | of the skills of a root with the requested name in any case, the least name wins |
| `Download.SidecarIsRead` | `npm/neuroncli/lib/binary.js:135-138` | the checksum file written for a checksum is read back as that checksum |
| `Download.ChecksumIsRead` | `npm/neuroncli/lib/binary.js:135-138` | a checksum is read exactly when 64 hexadecimal digits follow any white space and white space or the end follows them, and is these digits in small letters |
| `Download.StepStaysSafe` | `npm/neuroncli/lib/binary.js:198-285` | every step of every process keeps the locations sound and never removes anything installed |
| `Download.EveryRunIsSafe` | `npm/neuroncli/lib/binary.js:230-339` | for any number of processes, interleaved and killed anywhere, a location is empty or has the published digest, a checksum never exists without its binary, and every returned path passes the digest |
| `Download.SidecarFallbackNeverHelps` | `npm/neuroncli/lib/binary.js:198-207` | in every run, a process whose rename of the checksum file failed never returns that location from then on, whatever the other processes install |
| `Download.FailsBesideVerified` | `npm/neuroncli/lib/binary.js:276-278` | a process that cannot rename its checksum file looks for a checksum of the one that is there, and fails beside a verified location |
| `Download.FallbackFailsInARace` | `npm/neuroncli/lib/binary.js:276-278` | a run of two processes from an empty location in which the first returns and the second fails in this way |
| `Download.VerifiedStaysVerified` | `npm/neuroncli/lib/binary.js:140-147` | a verified location stays verified in every run |
| `Download.VerifiedIsReused` | `npm/neuroncli/lib/binary.js:320-321` | a process that starts when a location is verified, and can read it, never downloads |
| `Download.ReuseIsPrompt` | `npm/neuroncli/lib/binary.js:320-321` | such a process, alone, returns a verified location within two steps for each location |
| `Download.CleanDownloadInstalls` | `npm/neuroncli/lib/binary.js:230-285` | an undisturbed download of the published bytes installs exactly them and returns a verified location |
| `Download.DownloadFallsBack` | `npm/neuroncli/lib/binary.js:325-333` | refused any number of locations, a download installs at the first that takes it |
| `Download.RefusedEverywhereFails` | `npm/neuroncli/lib/binary.js:325-339` | refused every location, it fails |
| `Download.ErrorsLeaveTheLocation` | `npm/neuroncli/lib/binary.js:326-333` | an error of the file system goes on to the next location only when permission was refused, and one of the network ends the download |
| `Download.NothingFoundDownloads` | `npm/neuroncli/lib/binary.js:319-328` | a process that finds no verified location goes on to download to the first |
| `Download.VerifiedBinaryIsTaken` | `npm/neuroncli/lib/binary.js:198-207` | a failed rename of the binary is forgiven when another process has installed and verified it |
| `Download.WrongBytesAreRefused` | `npm/neuroncli/lib/binary.js:267-274` | bytes of another digest are refused and nothing is installed |
| `ExitManagement.SanitizeExitCode` | `exit_manager.py:90-102` | an exit code is between 0 and 255 and congruent to what was asked for, and 1 for what is no number |
| `ExitManagement.ExitManager.AddCleanup` | `exit_manager.py:189-216` | the handler joins with its priority clamped and its timeout defaulted, and the list stays in priority order with registration order within a priority |
| `ExitManagement.ExitManager.RemoveCleanup` | `exit_manager.py:218-233` | exactly the matching handlers go, the others stay in order, and the answer says whether there were any |
| `ExitManagement.ExitManager.RunHandlers` | `exit_manager.py:329-352` | the loop over the handlers visits them in order as the pass of the theorems does, and reports whether one failed, was skipped or was not reached |
| `ExitManagement.ExitManager.ExecuteCleanup` | `exit_manager.py:314-356` | what becomes of each handler and the clock at the end; a zero exit code becomes 70 exactly when one failed, was skipped or was not reached |
| `ExitManagement.ExitManager.Exit` | `exit_manager.py:246-284` | a second exit is ignored, an immediate one skips the pass, and any other runs it once, ends within the shutdown timeout when joins return in time, and raises the resulting code |
| `ExitManagement.ExitManager.Signal` | `exit_manager.py:288-302` | the first signal begins the shutdown, any other ends the process at once |
| `ExitManagement.ExitManager.AtExit` | `exit_manager.py:388-402` | the hook runs the pass exactly when it has not started, within the shutdown timeout when joins return in time |
| `ExitManagement.AnyCalls` | `exit_manager.py:246-402` | over any calls in any order the pass starts at most once, and has started once the interpreter ended |
| `ExitManagement.AddingKeepsOrder` | `exit_manager.py:213-215` | sorting with a new handler keeps priority order and registration order |
| `ExitManagement.RemovingKeepsOrder` | `exit_manager.py:224-233` | so does removing by name or function |
| `ExitManagement.CleanupEndsInTime` | `exit_manager.py:326-345` | when every join returns within the time it was granted, the whole pass ends by the deadline, but for the time that passes between one handler and the next |
| `ExitManagement.EnoughTimeForAll` | `exit_manager.py:330-345` | when all timeouts and the time between handlers fit the shutdown timeout, every handler runs with its own timeout in full |
| `ExitManagement.TurnOfHandler` | `exit_manager.py:329-352` | a handler has its turn unless the one before it had none or the deadline has come, is skipped only without a timeout of its own, and else runs for as long as its timeout and the deadline both allow |

## Left out

- `parseUnifiedDiff`: the printer of the unified diff is the engine's, so there is nothing to invert.
- Characters: strings are sequences of code points, so lone surrogates, UTF-16 lengths and invalid UTF-8 are not modelled; lossy UTF-8 decoding is a function parameter of the stream parser.
- JSON: parsing, printing of receipts and comparison are function parameters; the encoder covers null, booleans, integers, strings, arrays and objects.
- SHA-256, FNV-1a, `toolView`, `withResult`, the denied-by-user pattern and front matter parsing are function parameters; no collision freedom is claimed.
- Integer widths: counters are unbounded except where they saturate (attempts) or shift (backoff); `LineScript.LcsFitsTable` covers the table cells.
- Item keys are numbers instead of strings such as `i7`; payloads the reducer only passes on are opaque text.
- Listener notification, the prompt parser of `SessionController.send`, the capabilities message sent after `ready`, and messages without a local action.
- Sockets: opening is one event, without the hello frame that carries protocol, token and client; a lost connection is one event; time-outs of `start`, terminals and the welcome's host information are not modelled.
- The remote host is not part of this model: its frames are assumed to carry its own actions in order, possibly repeated.
- The native bundle swap is for one installer at a time with reliable reads; orphaned staging directories of killed runs are forgotten, and modification between two reads of one directory does not happen.
- The native library's receipt is assumed to be read back as printed (`NativeBundle.RoundTrips`).
- The prompt cache is for one process with working storage; file names of sessions (`sanitize_path_segment`) and requests are keys.
- The Anthropic client's retry loop, which differs in tracing and uses one fixed budget, and the stream retry of the command line, which is modelled only as sends with and without leave.
- Two waits of one progress at a time; `Retry-After` parsing, including its floating point.
- Directory read errors in the skill roots, discovery of the roots, and `suggest_slash_commands`.
- In the downloader, temporary files are private to their process (their names carry its id and the time), a published checksum never changes, and clean-up of temporary files that fails is not modelled.
- Event streams as a whole against the standard: lone carriage returns as line endings, mixed line endings between frames, the `id` and `retry` fields, event names with white space around them, and a last event that is not ended by a blank line, which the parser still reads and the standard drops; only the data of a frame is compared.
- The exit status of the process once the interpreter ends; a code changed by the hook's own pass is only kept in the manager.
- Signals that arrive in the middle of a cleanup pass, handlers that change the handler list from their own threads, interrupts raised out of the pass, and the clock read again when the shutdown starts at a reading of exactly zero.
- The Python mirror, evaluation scripts, launchers, help texts and slash-command tables: long lists with shallow properties.
