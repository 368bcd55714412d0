# Verified models of the desktop app's stateful cores

This project models, in Dafny, the parts of the desktop app whose state is hardest to keep right, and the
update-manifest text functions it ships with, and proves what they promise over every run.

- **Browser runtime manager** (`BrowserTypes`, `BrowserDownloads`, `BrowserInputs`, `BrowserWindowOpens`,
  `BrowserEviction`, `BrowserManager`). Threads, tabs, live runtimes, automation leases, pending window-opens and human
  control. The class invariant of `DesktopBrowserManager` holds after every method, so over every sequence of operations:
  tab ids are distinct and the active one is null exactly when there are none; every runtime belongs to a tab; the
  attached runtime is none or a live one; no two runtimes share a page; a page has a provenance marker exactly if the
  history attributes it to the agent; swallowed inputs have registrations of their own; a window-open is committed at
  most once. Three groups of fields of the original class are objects of their own here, each with its history.
  An operation on a thread leaves tabs, runtimes, attribution and pending window-opens of the others as they were
  (`Elsewhere`).
- **AppSnap manager** (`AppSnapPending`, `AppSnapStore`, `AppSnapOutcomes`, `AppSnapReconcile`). The crash-safe store of
  captures as a machine with one step per await, its bounded list, and the reconcile loop with the global shortcut.
- **Browser host pipe server** (`PipeFrames`, `PipeClient`, `PipeOutcomes`). The length-prefixed framing, one connection,
  and what its requests come to.
- **Update manifest text** (`TextLines`, `TextOrder`, `ManifestScalars`, `MacManifest`, `ManifestRoundTrip`,
  `ManifestParseLaws`, `ManifestMerge`, `ManifestZip`, `ManifestZipLaws`). Parser, printer, merge and in-place rewriter.
- **Profile bridge repair** (`ProfileRepair`). The staged install with rollback, where any file operation may throw.
- **Backend shutdown and supervision** (`BackendShutdown`, `BackendSupervision`).

Methods with state are proved against functions on values of that state, and the theorems about runs are lemmas about
these functions; in the browser manager and the profile repair the methods state their properties outright.

Six promises do not hold of the code as it is. Each has a counterexample and the exact condition:

- Merging is not symmetric in its success: looking up a key the first manifest does not have finds inherited object
  properties (`ManifestMerge.MergeOrderMatters`, `ManifestMerge.MergeIsSymmetric`).
- Updating a zip entry twice can differ from updating it once, where a line ends in a carriage return above a line that
  is not dropped (`ManifestZipLaws.UpdateTwiceDiffers`, `ManifestZipLaws.UpdateTwice`).
- A parsed manifest may not survive being printed and parsed again: its version may have been quoted, such as '1.0', and
  so may a url or checksum (`ManifestRoundTrip.QuotedVersionIsRead`, `ManifestRoundTrip.ParsedRoundTrip`).
- A number that String(number) prints with an exponent is read as a text, and as a size not at all
  (`ManifestScalars.SmallNumberIsReadAsText`, `ManifestScalars.ParseUndoesPrintScalar`, `ManifestRoundTrip.RoundTrip`).
- A load that fails to read the last good file of a capture deletes it (`AppSnapStore.MisreadLosesACapture`,
  `AppSnapStore.MisreadLosesAHelperFile`, `AppSnapStore.LostExactly`, `AppSnapStore.LossIsAMisread`).
- A timeout beyond the range of setTimeout passes the check of the delays but fires before the force timer
  (`BackendShutdown.LongTimeoutIsNotForced`, `BackendShutdown.DelaysInOrder`, `BackendShutdown.TimeoutWasForced`).

One more observation about the code as it is: when another thread takes over the panel, `activateThread` asks for the
suspension of the previous one while that still is the active one, so that nothing is scheduled
(`BrowserManager.DesktopBrowserManager.ActivateThread`).

## Model

| member | source | states |
|---|---|---|
| PipeFrames.WriteUInt32 | apps/desktop/src/browserUsePipeServer.ts:158-167 | the header read back in the same byte order is the number written, for every 32-bit number |
| PipeFrames.EncodeFrame | apps/desktop/src/browserUsePipeServer.ts:158-167 | the output is a frame of the payload: a header that reads as its length, then exactly its bytes |
| PipeFrames.DecodeFrames | apps/desktop/src/browserUsePipeServer.ts:169-186 | the loop over an offset finds the frames and the remainder of the recursive scan, or reports the oversize header the scan stops at |
| PipeFrames.EncodedStreamDecodes | apps/desktop/src/browserUsePipeServer.ts:158-186 | concatenated encoder outputs decode to exactly their payloads in order, in either byte order, and the scan goes on with what follows them |
| PipeFrames.ScanResumes | apps/desktop/src/browserUsePipeServer.ts:169-186 | scanning a longer stream is scanning a first part and going on from its remainder; an oversize header found early is found in the whole with the same frames before it |
| PipeFrames.ScanPartitions | apps/desktop/src/browserUsePipeServer.ts:169-186 | no byte is lost or invented, and the retained remainder is shorter than a header plus the largest message |
| PipeClient.RunKeeps | apps/desktop/src/browserUsePipeServer.ts:320-386 | stream, slot, controller, reply, write and binding invariants hold after every run of chunks, results, finalisers and closes in any order |
| PipeClient.RunExtends | apps/desktop/src/browserUsePipeServer.ts:349-386 | a session or thread binding, and every reply, made at any moment of a run stand at its end |
| PipeClient.InFlightAccounting | apps/desktop/src/browserUsePipeServer.ts:320-347 | in-flight requests are the accepted ones not finished, within the limit, and never fewer than the open abort controllers |
| PipeClient.EachRequestAnsweredOnce | apps/desktop/src/browserUsePipeServer.ts:349-386 | the number of replies to each message, in every run: exactly one to a well-formed request, or none while it waits for its result; to another message one if it was refused with an id, else none; a reply is delivered unless its frame overflowed or the socket closed (section 5 of the JSON-RPC 2.0 Specification) |
| PipeClient.ToolsRunUnderTheBinding | apps/desktop/src/browserUsePipeServer.ts:406-469 | every tool execution of a connection carries the session and thread the connection is bound to |
| PipeClient.ChunkingDoesNotMatter | apps/desktop/src/browserUsePipeServer.ts:320-347 | two runs that received the same byte stream took the same messages and keep the same remainder, however it was cut |
| PipeClient.OversizeAlwaysDetected | apps/desktop/src/browserUsePipeServer.ts:169-186 | an oversize header closes the socket under every cutting, with a prefix of the valid frames delivered |
| PipeOutcomes.BoundByTheCapability | apps/desktop/src/browserUsePipeServer.ts:406-439 | over every run, a connection has a session only if some accepted message is a getInfo of that session with the capability of the server |
| PipeOutcomes.OnlyCompleteToolsRun | apps/desktop/src/browserUsePipeServer.ts:441-469 | over every run, each execution is of an accepted executeTool message with that session and thread, a provider, a name and an allowed workspace root, each message at most once and in order; and the thread of the connection is that of one of them |
| PipeOutcomes.RepliesFitTheirRequests | apps/desktop/src/browserUsePipeServer.ts:328-386 | what each reply of every run says fits its message: too many requests exactly to those refused, an end of the handler only to a request that may succeed and, for a tool, was executed |
| PipeOutcomes.RefusedMessage | apps/desktop/src/browserUsePipeServer.ts:329-340 | a message over the limit is answered if it has an id, and changes nothing else |
| PipeOutcomes.AcceptedMessage | apps/desktop/src/browserUsePipeServer.ts:341-362 | any other takes a slot; what is no request ends there, and a request with the id of one under way is refused |
| PipeOutcomes.HandledRequest | apps/desktop/src/browserUsePipeServer.ts:364-469 | a ping waits; a getInfo with the capability binds a new or the same session; a complete executeTool of the bound session binds a new or the same thread and reaches the host; everything else throws and binds nothing |
| PipeClient.Client.WriteReply | apps/desktop/src/browserUsePipeServer.ts:471-493 | a reply is written, overflows and kills the socket, or finds it closed |
| PipeClient.Client.GetInfo | apps/desktop/src/browserUsePipeServer.ts:406-439 | the in-place getInfo equals the one of the run theorems, of which `PipeOutcomes.HandledRequest` says what it demands |
| PipeClient.Client.ExecuteTool | apps/desktop/src/browserUsePipeServer.ts:441-469 | reaches the host exactly for the bound session and a thread that is new or already bound, and then binds it |
| PipeClient.Client.StartHandler | apps/desktop/src/browserUsePipeServer.ts:349-386 | the handler up to its first await: nothing, one reply, or a registered controller |
| PipeClient.Client.Accept | apps/desktop/src/browserUsePipeServer.ts:328-347 | a message over the limit is refused, any other takes a slot and starts its handler |
| PipeClient.Client.ReceiveData | apps/desktop/src/browserUsePipeServer.ts:320-347 | one data event in place is the step the run theorems speak of |
| PipeClient.Client.ResumeHandler | apps/desktop/src/browserUsePipeServer.ts:364-386 | the rest of a handler writes its reply and drops its controller |
| PipeClient.Client.FinishHandler | apps/desktop/src/browserUsePipeServer.ts:336-346 | the finaliser gives one slot back |
| PipeClient.Client.ReleaseSocket | apps/desktop/src/browserUsePipeServer.ts:310-317 | closing drops every controller |
| BackendSupervision.DelaysDoubleToTheCap | apps/desktop/src/backendSupervisionPolicy.ts:28-31 | 500 ms at first, and each delay twice the one before, up to the cap |
| BackendSupervision.DelaysDouble | apps/desktop/src/backendSupervisionPolicy.ts:28-31 | for attempts 1 to 4 the delay is exactly 500 ms doubled per attempt: the cap does not bite below the breaker |
| BackendSupervision.RunAnswersAsExpected | apps/desktop/src/backendSupervisionPolicy.ts:90-117 | every answer of every run is the one prescribed by the history alone: ignored, the one recovery, the next attempt, or giving up |
| BackendSupervision.RetriesAdvance | apps/desktop/src/backendSupervisionPolicy.ts:90-117 | between resets attempts grow from 1 to at most 4 and the later delay is at least twice the earlier one |
| BackendSupervision.BackoffSpan | apps/desktop/src/backendSupervisionPolicy.ts:28-31 | between resets the delays are the first of 500, 1000, 2000, 4000 ms, in all at most 7500 ms |
| BackendSupervision.GiveUpIsAbsorbing | apps/desktop/src/backendSupervisionPolicy.ts:101-109 | after giving up, every counted failure gives up again until a reset |
| BackendSupervision.RecoversAtMostOnce | apps/desktop/src/backendSupervisionPolicy.ts:95-100 | recovery is answered at most once in the life of the policy, resets or not |
| BackendSupervision.BackendSupervisionPolicy.ResetFailures | apps/desktop/src/backendSupervisionPolicy.ts:80-88 | clears the count and the breaker, never the recovery flag |
| BackendSupervision.BackendSupervisionPolicy.RespondToStartFailure | apps/desktop/src/backendSupervisionPolicy.ts:90-117 | the object answers as its history prescribes |
| BackendSupervision.BackendOutputTailDetector.Push | apps/desktop/src/backendSupervisionPolicy.ts:124-130 | the tail stays the last 8192 characters of all output without carriage returns |
| BackendSupervision.BackendOutputTailDetector.Read | apps/desktop/src/backendSupervisionPolicy.ts:132-134 | returns the last 8192 characters of the stripped output, or all of it |
| BackendSupervision.StripCRMeans | apps/desktop/src/backendSupervisionPolicy.ts:126 | no carriage return is left, every other character as often as before; and stripping a concatenation is concatenating what was stripped |
| BackendShutdown.StartEstablishes | apps/desktop/src/backendShutdown.ts:192-276 | an operation starts with its deadline armed, its force timer armed or force done, or settled |
| BackendShutdown.StartWindowsEstablishes | apps/desktop/src/backendShutdown.ts:306-412 | the same with a request that may throw, kill the child or deliver its exit before it returns |
| BackendShutdown.StepKeeps | apps/desktop/src/backendShutdown.ts:192-412 | settles at most once, succeeds only with the child gone, forces at most once and never after exit, cancels a started request exactly once, and times out only with the child still running |
| BackendShutdown.RunKeeps | apps/desktop/src/backendShutdown.ts:192-412 | the same over every interleaving of exit, force timer, deadline and request outcome |
| BackendShutdown.TimeoutWasForced | apps/desktop/src/backendShutdown.ts:192-412 | on either platform, with valid delays within the range of setTimeout and timers that fire in the order they are due: a shutdown that timed out did so no earlier than its deadline and had made its force attempt |
| BackendShutdown.TimeoutIsADeadline | apps/desktop/src/backendShutdown.ts:254-261 | a timeout is the firing of the deadline, and reports a force attempt exactly if the force timer was spent by then |
| BackendShutdown.DelaysInOrder | apps/desktop/src/backendShutdown.ts:283-291 | accepted delays keep their order as timers, unless the timeout alone is beyond the range of setTimeout |
| BackendShutdown.LongTimeoutIsNotForced | apps/desktop/src/backendShutdown.ts:283-291 | with such a timeout the deadline comes first and nothing was forced |
| BackendShutdown.WorldRunKeeps | apps/desktop/src/backendShutdown.ts:278-304 | the registry holds exactly the unsettled operation of each child over every run of calls, events and settled promises |
| BackendShutdown.OneOperationPerChild | apps/desktop/src/backendShutdown.ts:278-304 | while an operation of a child runs it is the only one, and a further call joins it |
| BackendShutdown.StopStarts | apps/desktop/src/backendShutdown.ts:278-304 | a valid call for a child with no entry starts and registers an operation: already exited if the child had, else with its deadline armed and force tried at once or due, as the delay is zero or not; on Windows with its request |
| BackendShutdown.StopRefuses | apps/desktop/src/backendShutdown.ts:283-291 | delays that are not accepted start nothing; on Windows a running operation is joined all the same |
| BackendShutdown.SettledIsForgotten | apps/desktop/src/backendShutdown.ts:297-301 | a settled operation gives its entry up, on Windows only after a timeout |
| BackendShutdown.ShutdownOperation.SettleWith | apps/desktop/src/backendShutdown.ts:205-219 | the first settlement detaches listener and timers and cancels the request; later ones do nothing |
| BackendShutdown.ShutdownOperation.ForceIfStillRunning | apps/desktop/src/backendShutdown.ts:229-247 | forces once, and only a child still running |
| BackendShutdown.ShutdownOperation.BeginPosix | apps/desktop/src/backendShutdown.ts:192-276 | the start of a POSIX shutdown in place |
| BackendShutdown.ShutdownOperation.BeginWindows | apps/desktop/src/backendShutdown.ts:306-412 | the start of a Windows shutdown in place |
| BackendShutdown.ShutdownOperation.Handle | apps/desktop/src/backendShutdown.ts:221-262 | each event in place is the step the run theorems speak of |
| ProfileRepair.Partition.StageGroup | apps/desktop/src/desktopUserDataProfile.ts:154-169 | stages exactly the source generation of a group, or throws, without touching the target |
| ProfileRepair.Partition.DisplaceSidecars | apps/desktop/src/desktopUserDataProfile.ts:183-188 | moves a prefix of the present sidecars to the backup, all of them unless it throws |
| ProfileRepair.Partition.InstallStaged | apps/desktop/src/desktopUserDataProfile.ts:175-195 | renames sidecars first and the base last: it ends with the source generation, or with the base absent |
| ProfileRepair.Partition.RollBack | apps/desktop/src/desktopUserDataProfile.ts:196-226 | every entry is as at the start but for those of which an own step threw, whatever step had failed; then the base is absent and nothing outside the group changed |
| ProfileRepair.Partition.InstallGroup | apps/desktop/src/desktopUserDataProfile.ts:177-227 | installed whole, rolled back whole, or, with a second throw, left without its base |
| ProfileRepair.Partition.RepairGroup | apps/desktop/src/desktopUserDataProfile.ts:144-231 | an existing base is never overwritten, entries outside the group never change, and in no state of the target seen on the way is a new base present before all its sidecars |
| ProfileRepair.Partition.Repair | apps/desktop/src/desktopUserDataProfile.ts:144-248 | over all groups: the target is the completed one up to the group that threw, the copied list names what was installed, and a failed status means something threw |
| ProfileRepair.EntryGroupsAreGroups | apps/desktop/src/desktopUserDataProfile.ts:10-24 | the twelve entry groups share no name and repeat none |
| ProfileRepair.GroupIsWhole | apps/desktop/src/desktopUserDataProfile.ts:144-231 | each group ends all or nothing: every entry as in the source if its base was missing, every entry as before otherwise |
| ProfileRepair.OutsideIsUntouched | apps/desktop/src/desktopUserDataProfile.ts:144-231 | an entry of no group is never touched |
| ProfileRepair.CopiedIsWhatWasInstalled | apps/desktop/src/desktopUserDataProfile.ts:149-152 | the copied list names exactly the source entries of the groups whose base was missing |
| ProfileRepair.SecondRunCopiesNothing | apps/desktop/src/desktopUserDataProfile.ts:144-239 | after a complete run another copies nothing and changes nothing |
| ProfileRepair.InstallOrderIsTheGeneration | apps/desktop/src/desktopUserDataProfile.ts:175-178 | the install order is the source generation of the group, each entry once |
| ManifestScalars.UndoubleUndoesDouble | scripts/merge-mac-update-manifests.ts:234-236 | doubling the quotes of a single-quoted scalar loses nothing (section 7.3.2 of YAML 1.2.2) |
| ManifestScalars.StripUndoesQuote | scripts/merge-mac-update-manifests.ts:26-31 | what was put in quotes is read back from them |
| ManifestScalars.UnquotedIsItself | scripts/merge-mac-update-manifests.ts:57-68 | a text without a quote at both ends is read as it is, if it is neither a flag nor a number |
| ManifestScalars.ParseUndoesPrintSize | scripts/merge-mac-update-manifests.ts:104-113 | a printed size is read back exactly if it is under 10^21, from where String(number) has an exponent |
| ManifestScalars.ParseUndoesPrintDecimal | scripts/merge-mac-update-manifests.ts:57-68 | a printed number is read back, or is no number any more if it has an exponent |
| ManifestScalars.ParseUndoesPrintScalar | scripts/merge-mac-update-manifests.ts:57-68 | a printed scalar is read back with its type exactly if it is no number that prints with an exponent |
| ManifestScalars.SmallNumberIsReadAsText | scripts/merge-mac-update-manifests.ts:238-243 | 0.0000001 is parsed as a number, printed as 1e-7, and parsed as a text |
| ManifestScalars.PlainTextIsRead | scripts/merge-mac-update-manifests.ts:57-68 | a bare text that is no quoted, boolean or numeric scalar is read as itself |
| TextLines.SplitUndoesJoin | scripts/merge-mac-update-manifests.ts:262-264 | lines without line feeds are what their joined text splits into, unless one but the last ends in a carriage return |
| TextLines.SplitLeavesCr | scripts/lib/mac-update-zip.ts:99 | a carriage return is left inside the lines only by two of them in front of a line feed |
| TextLines.LinesOfCrLf | scripts/lib/mac-update-zip.ts:99 | a line feed ends a line, with one carriage return in front of it or none |
| TextLines.FieldMeans | scripts/merge-mac-update-manifests.ts:81 | a field is captured exactly if its pattern has a match, and it is the shortest of them |
| TextLines.FieldRead | scripts/merge-mac-update-manifests.ts:81-84 | what the pattern of a field captures from the trimmed line that holds a value |
| TextOrder.SortedKeys | scripts/merge-mac-update-manifests.ts:254 | the keys, each once, in ascending order |
| TextOrder.LaterIsTheMaximum | scripts/merge-mac-update-manifests.ts:227-228 | the chosen date is the maximum of the lexicographic order, whatever the grouping |
| MacManifest.Serialize | scripts/merge-mac-update-manifests.ts:245-265 | the loop prints the lines of the specification in order |
| MacManifest.ParseManifest | scripts/merge-mac-update-manifests.ts:70-183 | the loop over local variables returns what `ManifestParseLaws.ParseMeans` characterises for every text |
| MacManifest.FinishManifest | scripts/merge-mac-update-manifests.ts:164-182 | the checks after the last line, in order |
| ManifestRoundTrip.RoundTrip | scripts/merge-mac-update-manifests.ts:70-265 | parsing the printed text gives a manifest back exactly if it is well formed |
| ManifestRoundTrip.ParsedRoundTrip | scripts/merge-mac-update-manifests.ts:70-265 | a parsed manifest survives being printed and parsed again exactly if its version is plain text, its urls and checksums are bare, and no number of it prints with an exponent |
| ManifestRoundTrip.ParsedIsLegible | scripts/merge-mac-update-manifests.ts:70-183 | every parsed manifest has one-line fields, legal extra keys, a version, a date and a file |
| ManifestRoundTrip.PrintedIsRead | scripts/merge-mac-update-manifests.ts:70-265 | what parsing makes of any printed one-line manifest: each field as it is read back, or an error |
| ManifestRoundTrip.BareIsReadBack | scripts/merge-mac-update-manifests.ts:26-31 | an unquoted url or checksum is read back exactly if it is non-empty, trimmed and not in quotes |
| ManifestRoundTrip.PlainTextIsReadBack | scripts/merge-mac-update-manifests.ts:137-145 | an unquoted version is read back exactly if it is also neither boolean nor numeric |
| ManifestRoundTrip.QuotedVersionIsRead | scripts/merge-mac-update-manifests.ts:137-145 | any one-line version can be parsed from quotes, so a parsed manifest need not survive reprinting; it does exactly if its version is plain text |
| ManifestRoundTrip.NumericVersionIsNotPlain | scripts/merge-mac-update-manifests.ts:57-68 | the version 1.0 is not plain text |
| ManifestRoundTrip.TopLevelMeans | scripts/merge-mac-update-manifests.ts:128-134 | a top-level line is one of which the field of some key is captured |
| ManifestParseLaws.ClassifyMeans | scripts/merge-mac-update-manifests.ts:81-134 | the patterns name the kind of a line and exclude each other |
| ManifestParseLaws.KeyCharsMean | scripts/merge-mac-update-manifests.ts:128 | which characters a key has |
| ManifestParseLaws.ParseMeans | scripts/merge-mac-update-manifests.ts:70-183 | for every text, in terms of what its lines are alone: the first refused line and what it is refused for, or what is missing at the end; otherwise the files are those of the entries in order, each with its last checksum and size, and version, date and extras those of the last line of each key |
| ManifestParseLaws.PathAndShaAreDropped | scripts/merge-mac-update-manifests.ts:157-159 | the printed lines of a well-formed manifest with a path and a checksum at the top level after the files still parse to it |
| ManifestParseLaws.BlankLinesDoNotMatter | scripts/merge-mac-update-manifests.ts:78-79 | a blank line anywhere changes nothing but the numbers of lines in errors |
| ManifestParseLaws.TrailingSpacesDoNotMatter | scripts/merge-mac-update-manifests.ts:78 | spaces at the end of a line change nothing |
| ManifestParseLaws.BlockMapSizeIsRefused | scripts/merge-mac-update-manifests.ts:128-134 | a text with a block map size in an entry is refused |
| ManifestMerge.CollectMeans | scripts/merge-mac-update-manifests.ts:214-223 | collecting files succeeds exactly without conflicting entries, and then has every entry once |
| ManifestMerge.CollectKeepsOrder | scripts/merge-mac-update-manifests.ts:214-229 | the collected entries come in the order of their first occurrence |
| ManifestMerge.MergeExtrasLoop | scripts/merge-mac-update-manifests.ts:185-202 | the loop finds a conflict exactly if some key reads a defined different value, inherited properties included, and else the union |
| ManifestMerge.MergeManifests | scripts/merge-mac-update-manifests.ts:204-232 | the method computes the merge, with its errors in order |
| ManifestMerge.MergeIsTheUnion | scripts/merge-mac-update-manifests.ts:204-232 | when merging succeeds, and that it then is the union of files and extras with the later date |
| ManifestMerge.MergeIsSymmetric | scripts/merge-mac-update-manifests.ts:185-232 | where one order succeeds the other does exactly if no key only the first argument has is an inherited property; both results have the same contents |
| ManifestMerge.MergeOrderMatters | scripts/merge-mac-update-manifests.ts:185-202 | two manifests that merge in one order and not in the other |
| ManifestMerge.MergeIsAssociative | scripts/merge-mac-update-manifests.ts:204-232 | where both inner merges succeed, both outer ones do or neither does, with the same contents |
| ManifestMerge.MergeIsIdempotent | scripts/merge-mac-update-manifests.ts:204-232 | a manifest merges with itself exactly if its entries do not conflict; with unique urls the result is itself |
| ManifestMerge.MergedIsReadBack | scripts/merge-mac-update-manifests.ts:267-283 | a merge of well-formed manifests, printed, is read back |
| ManifestZip.UpdateZipEntry | scripts/lib/mac-update-zip.ts:94-163 | the pass with its flags computes the update that `ManifestZipLaws.UpdateEachLine` describes line by line, with its errors in order |
| ManifestZip.KindCases | scripts/lib/mac-update-zip.ts:109-147 | the patterns of the pass exclude each other, so a line is of one kind whatever the flags |
| ManifestZip.HasNumberMeans | scripts/lib/mac-update-zip.ts:123-131 | a size line is one that has a match of its pattern |
| ManifestZipLaws.FlagsMean | scripts/lib/mac-update-zip.ts:100-106 | what each flag stands for: the nearest url line above, the last path line, a checksum or size inside the entry |
| ManifestZipLaws.UpdateSucceeds | scripts/lib/mac-update-zip.ts:152-160 | updating succeeds exactly if the entry has a checksum and a size and a matching path is followed by a top-level checksum; and which of the two errors it is otherwise |
| ManifestZipLaws.UpdateEachLine | scripts/lib/mac-update-zip.ts:108-150 | on any text on which the update succeeds, each line in its place: the new checksum and size in the entry, the new checksum under its path, block map sizes of the entry dropped, every other line itself |
| ManifestZipLaws.RewriteIsStable | scripts/lib/mac-update-zip.ts:108-150 | lines that are not replaced or dropped stay verbatim and in order, and a second pass over the new lines changes nothing |
| ManifestZipLaws.UpdateTwice | scripts/lib/mac-update-zip.ts:99-162 | a second update changes nothing exactly if no line of the input ends in a carriage return above a line that is not dropped; only two carriage returns in front of a line feed leave such a line |
| ManifestZipLaws.UpdateTwiceDiffers | scripts/lib/mac-update-zip.ts:99-162 | a text with two carriage returns in front of a line feed, on which the second update differs |
| ManifestZipLaws.TwoLineChecksumAddsALine | scripts/lib/mac-update-zip.ts:118-121 | with a checksum of two lines the second update differs, so digests have to be of one line |
| ManifestZipLaws.UpdatePrinted | scripts/lib/mac-update-zip.ts:94-163 | updating the printed text of a well-formed manifest is printing the updated manifest, or the error if no file has that name |
| ManifestZipLaws.UpdateThenParse | scripts/lib/mac-update-zip.ts:94-163 | parsing the updated text gives the updated manifest |
| AppSnapStore.BootEstablishes | apps/desktop/src/appSnapManager.ts:528-535 | the invariants hold at a start on any directory whose double captures agree |
| AppSnapStore.StepKeeps | apps/desktop/src/appSnapManager.ts:528-671 | every step of load, save, consume, acknowledge, dispose and crash keeps the invariants of directory and tasks |
| AppSnapStore.StepLosesExactly | apps/desktop/src/appSnapManager.ts:528-671 | of the captures that are not acknowledged or evicted, a step takes one that is safe on disk away exactly if it is the unlink after a failing read of its last good file |
| AppSnapStore.NothingIsLost | apps/desktop/src/appSnapManager.ts:528-671 | over every run with crashes anywhere and any step failing, a capture stays safe unless acknowledged or evicted, as long as no load misreads the last good file of that capture |
| AppSnapStore.LostExactly | apps/desktop/src/appSnapManager.ts:528-671 | a capture that was not acknowledged or evicted is safe at the end of a run exactly if no step of it was such an unlink; otherwise it is not durable any more |
| AppSnapStore.LossIsAMisread | apps/desktop/src/appSnapManager.ts:553-607 | a run without a misread of the last good file of a capture has no such unlink |
| AppSnapStore.MisreadLosesForGood | apps/desktop/src/appSnapManager.ts:553-607 | after such a misread the capture is lost in every run: with a helper file at once if its unlink succeeds, with a pair by the next step of the load that does |
| AppSnapStore.OtherReadsMayFail | apps/desktop/src/appSnapManager.ts:553-607 | any other failing read of a load changes nothing |
| AppSnapStore.NeverDurableAgain | apps/desktop/src/appSnapManager.ts:528-671 | a capture that is not durable any more never is again |
| AppSnapStore.StepReleases | apps/desktop/src/appSnapManager.ts:664-671 | a capture is given up only by the image step of an acknowledgement, of a discard or of an overflow eviction |
| AppSnapStore.GoneForGood | apps/desktop/src/appSnapManager.ts:494-502 | a capture with neither image nor helper file is never durable again |
| AppSnapStore.LoadFindsEverything | apps/desktop/src/appSnapManager.ts:583-644 | a completed load has one record for each capture on disk when it began, ordered; the newest up to the limit become the list |
| AppSnapStore.RunComplete | apps/desktop/src/appSnapManager.ts:528-630 | in every run, each capture found at the start of a load is still to be visited, recorded, or failed to copy |
| AppSnapStore.MisreadLosesACapture | apps/desktop/src/appSnapManager.ts:556-590 | a run in which a failing read makes the load delete a good pair |
| AppSnapStore.MisreadLosesAHelperFile | apps/desktop/src/appSnapManager.ts:592-607 | a run in which a failing read makes the load delete a good helper file |
| AppSnapStore.RunListSafe | apps/desktop/src/appSnapManager.ts:494-502 | every capture in the list is on disk until acknowledged or evicted, and the list stays bounded without double ids |
| AppSnapStore.CaptureStore.LoadNextStep | apps/desktop/src/appSnapManager.ts:528-644 | each await of the load in place is the step the run theorems speak of |
| AppSnapStore.CaptureStore.LoadNextPair | apps/desktop/src/appSnapManager.ts:553-590 | a good pair becomes a record, any other pair is deleted image first |
| AppSnapStore.CaptureStore.LoadNextHelper | apps/desktop/src/appSnapManager.ts:592-626 | a helper file of a recorded capture or an unreadable one is deleted, any other is copied |
| AppSnapStore.CaptureStore.RecoverNextStep | apps/desktop/src/appSnapManager.ts:646-662 | image, then metadata, undone if that fails, then the helper file |
| AppSnapStore.CaptureStore.ConsumeNextStep | apps/desktop/src/appSnapManager.ts:1018-1067 | each await of a consumption in place is the step that `AppSnapOutcomes.ConsumptionAppends` and `AppSnapOutcomes.AppendEvictsTheOldest` speak of |
| AppSnapStore.CaptureStore.AcknowledgeNextStep | apps/desktop/src/appSnapManager.ts:494-502 | each await of an acknowledgement in place |
| AppSnapStore.CaptureStore.Restart | apps/desktop/src/appSnapManager.ts:347-368 | a crash leaves the directory only |
| AppSnapStore.CaptureStore.DisposeStore | apps/desktop/src/appSnapManager.ts:504-511 | disposing empties the list, and what is under way goes on |
| AppSnapOutcomes.AppendEvictsTheOldest | apps/desktop/src/appSnapManager.ts:1043-1059 | the record to discard, if any, followed by the new list is the old list without this id and with the record last; something is discarded exactly if there was no room |
| AppSnapOutcomes.CrashLeavesTheDirectory | apps/desktop/src/appSnapManager.ts:528-546 | a crash leaves the directory only, and the next load begins with what it finds there |
| AppSnapOutcomes.RunDiscardsUnlisted | apps/desktop/src/appSnapManager.ts:1048-1059 | over every run, the capture whose files are being discarded is not in the list |
| AppSnapOutcomes.ConsumptionAppends | apps/desktop/src/appSnapManager.ts:1018-1051 | a consumption of a good helper file with no failing step ends with its record last in the list, its pair with its time on disk and the helper file gone |
| AppSnapOutcomes.DiscardDeletes | apps/desktop/src/appSnapManager.ts:664-671 | discarding deletes exactly the pair of that record |
| AppSnapOutcomes.FailedConsumption | apps/desktop/src/appSnapManager.ts:1025-1042 | a read or an image write that fails leaves everything as it was |
| AppSnapOutcomes.FailedMetadata | apps/desktop/src/appSnapManager.ts:652-660 | metadata that cannot be written costs the image just written and nothing else |
| AppSnapOutcomes.RecoveryCompletes | apps/desktop/src/appSnapManager.ts:592-626 | a good helper file with no record is recorded with the time of the load and becomes a pair |
| AppSnapOutcomes.AcknowledgementCompletes | apps/desktop/src/appSnapManager.ts:494-502 | acknowledging a listed capture deletes its pair and takes it off the list; one that is not listed costs no file |
| AppSnapOutcomes.FailedAcknowledgement | apps/desktop/src/appSnapManager.ts:498-500 | an unlink that fails ends the acknowledgement and changes nothing |
| AppSnapOutcomes.LoadLeavesTheList | apps/desktop/src/appSnapManager.ts:528-644 | a load none of whose file steps fails ends with exactly the pairs of its list on disk, with their times, and no helper file that was there when it began |
| AppSnapOutcomes.LoadAdvances | apps/desktop/src/appSnapManager.ts:528-644 | every step of a load, whatever fails, brings it closer to its end |
| AppSnapPending.PendingList.Append | apps/desktop/src/appSnapManager.ts:1043-1051 | the record is last, its earlier one gone, and the one reported as discarded is exactly the one dropped |
| AppSnapPending.PendingList.Acknowledge | apps/desktop/src/appSnapManager.ts:494-502 | takes out that id and nothing else, from the list as it is then |
| AppSnapPending.AppendReflects | apps/desktop/src/appSnapManager.ts:1043-1048 | after an append the list still is what its history makes it: present exactly if nothing about the id followed its append, in the order of appends |
| AppSnapPending.RemoveReflects | apps/desktop/src/appSnapManager.ts:501 | the same after an acknowledgement or a drop |
| AppSnapPending.SortMeans | apps/desktop/src/appSnapManager.ts:632-636 | the records, each once, by time and id |
| AppSnapPending.BeforeTotal | apps/desktop/src/appSnapManager.ts:632-636 | the order is total and transitive, goes by time, and tells any two ids apart |
| AppSnapReconcile.RunKeeps | apps/desktop/src/appSnapManager.ts:684-766 | flag, waiting callers, passes and shortcut reservation agree after every run |
| AppSnapReconcile.RequestsAreNeverLost | apps/desktop/src/appSnapManager.ts:684-710 | when everything is at rest the flag is clear and a pass has begun after the last request; at most one pass runs at a time |
| AppSnapReconcile.PendingRequestHasACaller | apps/desktop/src/appSnapManager.ts:684-710 | while a request is open some caller still waits or has still to look |
| AppSnapReconcile.OneAcceleratorAtMost | apps/desktop/src/appSnapManager.ts:825-857 | at most one accelerator is held, it is that of the current shortcut, and the manager is enabled and not disposed |
| AppSnapReconcile.PassMeans | apps/desktop/src/appSnapManager.ts:712-766 | a whole pass ends with the helper running exactly if the manager is enabled and permitted, the helper is there, the shortcut is or can be reserved, and the helper was running or can be started; and with the accelerator of the shortcut exactly if it runs |
| AppSnapReconcile.RunWatchesEnabled | apps/desktop/src/appSnapManager.ts:712-766 | over every run the helper runs only for an enabled manager that is not disposed |
| AppSnapReconcile.EventsRelease | apps/desktop/src/appSnapManager.ts:402-414 | disabling, disposing, losing the helper or a permission leave neither helper nor accelerator |
| AppSnapReconcile.ChangesReconcile | apps/desktop/src/appSnapManager.ts:461-477 | a new shortcut stops the helper, gives the old accelerator back and asks for a pass |
| AppSnapReconcile.OpenRequestIsServed | apps/desktop/src/appSnapManager.ts:684-710 | wherever the loop is while a request is open, its next step leads to a pass that serves it |
| AppSnapReconcile.Reconciler.ReconcileOnceBegins | apps/desktop/src/appSnapManager.ts:712-746 | the pass up to its await in place |
| AppSnapReconcile.Reconciler.ReconcileOnceResumes | apps/desktop/src/appSnapManager.ts:747-766 | the rest of the pass in place |
| AppSnapReconcile.Reconciler.ReconcileWatchProcess | apps/desktop/src/appSnapManager.ts:684-710 | a call in place is the step the run theorems speak of |
| AppSnapReconcile.Reconciler.ReserveShortcut | apps/desktop/src/appSnapManager.ts:825-837 | registers unless it is registered already, and reports whether it is |
| AppSnapReconcile.Reconciler.ChangeShortcut | apps/desktop/src/appSnapManager.ts:461-477 | releases the old accelerator before the new shortcut is set |
| AppSnapReconcile.Reconciler.Enable | apps/desktop/src/appSnapManager.ts:402-414 | disabling stops the helper and releases the accelerator |
| AppSnapReconcile.Reconciler.DisposeManager | apps/desktop/src/appSnapManager.ts:504-511 | disposing does too |
| AppSnapReconcile.Reconciler.OnHelperExit | apps/desktop/src/appSnapManager.ts:802-812 | an unexpected exit releases the accelerator |
| BrowserTypes.RuntimeKeyInjective | apps/desktop/src/browserManager.ts:329-331 | tab ids have no colon, so different pairs have different keys whatever the thread ids are |
| BrowserDownloads.AttributedNext | apps/desktop/src/browserManager.ts:596-626 | how each event changes the attribution of a page, defined on the history alone |
| BrowserDownloads.AutomationDownloads.Track | apps/desktop/src/browserManager.ts:596-617 | marks the page with the current epoch and adds the lease |
| BrowserDownloads.AutomationDownloads.Release | apps/desktop/src/browserManager.ts:618-625 | ends one lease once, and leaves the provenance |
| BrowserDownloads.AutomationDownloads.MarkHumanControl | apps/desktop/src/browserManager.ts:2817-2834 | advances the epoch and drops exactly the markers of that thread |
| BrowserDownloads.AutomationDownloads.TearDown | apps/desktop/src/browserManager.ts:2707-2722 | drops the marker unless it is to be preserved |
| BrowserDownloads.AutomationDownloads.Download | apps/desktop/src/browserManager.ts:2892-2904 | cancelled exactly if attributed by the history; only leases of the current epoch are told, and all of those in the set |
| BrowserInputs.AutomationInputs.Expect | apps/desktop/src/browserManager.ts:2836-2850 | the signal is last in the queue of its page, for a second, behind at most 63 unexpired ones; other queues are untouched |
| BrowserInputs.AutomationInputs.Release | apps/desktop/src/browserManager.ts:2851-2874 | the first release drops what is expired from the queue of the page, leaves this signal at most 100 ms, touches no other, and ends its gesture; later ones change nothing |
| BrowserInputs.AutomationInputs.Consume | apps/desktop/src/browserManager.ts:2906-2928 | an input is swallowed exactly if an unexpired signal of the page matches; the first such leaves the queue; every swallowed input has a registration of its own, within a second of it and 100 ms of its release |
| BrowserInputs.AutomationInputs.BeginGesture | apps/desktop/src/browserManager.ts:628-633 | one deeper, for a new lease |
| BrowserInputs.AutomationInputs.EndGesture | apps/desktop/src/browserManager.ts:635-642 | the depth never exceeds the unreleased leases, and equals them on pages never torn down |
| BrowserInputs.ReleaseBacked | apps/desktop/src/browserManager.ts:2854-2870 | after a release no queue entry outlives its new limit |
| BrowserInputs.MatchesMeans | apps/desktop/src/browserManager.ts:361-382 | which inputs an expected signal matches |
| BrowserWindowOpens.WindowOpens.Schedule | apps/desktop/src/browserManager.ts:791-806 | while a task or a commit is pending for the page nothing is added |
| BrowserWindowOpens.WindowOpens.TakeTask | apps/desktop/src/browserManager.ts:808-811 | a cleared or replaced task does nothing |
| BrowserWindowOpens.WindowOpens.AnnounceTab | apps/desktop/src/browserManager.ts:824-842 | the pending commit is of the announced tab, and never beside a task |
| BrowserWindowOpens.WindowOpens.TakeCommit | apps/desktop/src/browserManager.ts:883-888 | a commit is taken once: no tab is committed twice, and only after it was announced for its page |
| BrowserWindowOpens.WindowOpens.Release | apps/desktop/src/browserManager.ts:580-588 | ends one lease once, and tells whether the observer set is empty |
| BrowserEviction.RecencyDescending | apps/desktop/src/browserManager.ts:2067-2078 | the sort ranks tabs by stamp, ties in tab order |
| BrowserEviction.WarmOutlasts | apps/desktop/src/browserManager.ts:2079-2083 | every kept tab is more recently active than every evicted one, or as recent and earlier |
| BrowserManager.DesktopBrowserManager.DestroyRuntime | apps/desktop/src/browserManager.ts:2698-2776 | removes that runtime only, detaches it if attached, clears its pending windows, and keeps the download marker only if asked; the invariants of workspace, downloads, inputs and windows stay |
| BrowserManager.DesktopBrowserManager.MarkHumanControl | apps/desktop/src/browserManager.ts:2817-2834 | no page of the thread is attributed any more |
| BrowserManager.DesktopBrowserManager.EnsureWorkspace | apps/desktop/src/browserManager.ts:3004-3018 | changes nothing in a thread with tabs, else gives it one active tab |
| BrowserManager.DesktopBrowserManager.EnsureLiveRuntime | apps/desktop/src/browserManager.ts:2312-2342 | a runtime that is there and not destroyed, or a new one of our own, or the refusal of a tab that waits for its renderer; no other runtime changes |
| BrowserManager.DesktopBrowserManager.SuspendInactiveTabs | apps/desktop/src/browserManager.ts:2060-2107 | inactive runtimes left are exactly the warm tabs, at most the limit; the others and all tabs without one are suspended; the active tab and other threads are untouched |
| BrowserManager.DesktopBrowserManager.ResumeThread | apps/desktop/src/browserManager.ts:2017-2058 | the active tab of an open thread has its runtime or waits for its renderer; of the inactive ones exactly the most recently active keep theirs; no tab changes |
| BrowserManager.DesktopBrowserManager.AttachActiveTab | apps/desktop/src/browserManager.ts:2191-2223 | the active tab is attached, or its thread is the active one waiting for the renderer; of the inactive ones exactly the most recently active keep their runtimes |
| BrowserManager.DesktopBrowserManager.ActivateThread | apps/desktop/src/browserManager.ts:1964-1981 | the thread is active with its bounds and its tab is shown; no suspension is scheduled for the one that loses its place |
| BrowserManager.DesktopBrowserManager.ActivateForPendingRenderer | apps/desktop/src/browserManager.ts:1983-1994 | the thread is active with its bounds; for the thread that loses its place no suspension is scheduled, since it still is the active one when that is asked for |
| BrowserManager.DesktopBrowserManager.AttachRuntime | apps/desktop/src/browserManager.ts:2225-2269 | with a window, that runtime is the attached one |
| BrowserManager.DesktopBrowserManager.SetWindow | apps/desktop/src/browserManager.ts:475-494 | a lost or replaced window takes all runtimes and popups with it; with the same or a new window the visible active tab is shown |
| BrowserManager.DesktopBrowserManager.OpenBrowser | apps/desktop/src/browserManager.ts:1439-1484 | the thread is open with its tabs, or a new one, and shown if it has bounds and nothing else is; opening a closed one ends the attribution unless it navigates, and that does too |
| BrowserManager.DesktopBrowserManager.CloseBrowser | apps/desktop/src/browserManager.ts:1486-1513 | the thread has no tabs and no runtimes, other threads keep theirs |
| BrowserManager.DesktopBrowserManager.HideBrowser | apps/desktop/src/browserManager.ts:1515-1528 | the thread is not active any more, its tabs and runtimes stay |
| BrowserManager.DesktopBrowserManager.SetPanelBounds | apps/desktop/src/browserManager.ts:1534-1606 | with bounds an open thread becomes the active one, and its tab is shown unless it is attached already or waits for the renderer; otherwise it is not active, and no runtime changes |
| BrowserManager.DesktopBrowserManager.Navigate | apps/desktop/src/browserManager.ts:1724-1760 | ends the attribution of the thread and changes no tab of it; the tab gets its runtime, attached if it is the visible one, unless its thread is not active or it waits for its renderer |
| BrowserManager.DesktopBrowserManager.NewTab | apps/desktop/src/browserManager.ts:1794-1817 | the new tab is last, and active and shown if asked |
| BrowserManager.DesktopBrowserManager.CloseTab | apps/desktop/src/browserManager.ts:1819-1860 | the tab goes alone, the others stay in order, the active one stays or is the last one left; a new blank tab comes for the last one; an unknown tab changes nothing; the active thread shows its tab; nothing of other threads changes |
| BrowserManager.DesktopBrowserManager.DropTab | apps/desktop/src/browserManager.ts:1827-1849 | the popups, the runtime and the tab go, and nothing else |
| BrowserManager.DesktopBrowserManager.SelectTab | apps/desktop/src/browserManager.ts:1862-1877 | the tab is active, and shown if its thread is |
| BrowserManager.DesktopBrowserManager.ShowTab | apps/desktop/src/browserManager.ts:1879-1911 | the tab is active, and shown if its thread has bounds; the human form ends the attribution of the thread |
| BrowserManager.DesktopBrowserManager.AttachWebview | apps/desktop/src/browserManager.ts:1610-1700 | the guest is the runtime of this tab alone; a live guest of its own is never replaced; no other page loses its runtime |
| BrowserManager.DesktopBrowserManager.FindGuest | apps/desktop/src/browserManager.ts:2778-2785 | the runtime of a guest, unique if there is one |
| BrowserManager.DesktopBrowserManager.DetachWebview | apps/desktop/src/browserManager.ts:1704-1722 | the runtime of that guest is gone; a stale detach changes nothing at all |
| BrowserManager.DesktopBrowserManager.RuntimeLost | apps/desktop/src/browserManager.ts:2543-2574 | a loss event of a replaced or removed runtime changes nothing at all; otherwise the active tab is shown again; no tab changes |
| BrowserManager.DesktopBrowserManager.ThreadSuspendFires | apps/desktop/src/browserManager.ts:2109-2141 | an inactive thread loses all its runtimes, the active one none |
| BrowserManager.DesktopBrowserManager.TabSuspendFires | apps/desktop/src/browserManager.ts:2152-2177 | that runtime is gone, no tab is |
| BrowserManager.DesktopBrowserManager.PrepareAutomationTab | apps/desktop/src/browserManager.ts:1193-1221 | the active tab, or a new last one, is active in the open thread and waits for its renderer |
| BrowserManager.DesktopBrowserManager.SelectAutomationTab | apps/desktop/src/browserManager.ts:1224-1251 | throws exactly for an unavailable tab; else it is active without a runtime of our own, the attribution and all other runtimes stay |
| BrowserManager.DesktopBrowserManager.PrepareAutomationNavigation | apps/desktop/src/browserManager.ts:1254-1271 | throws exactly for an unavailable tab; else it is active and waits for its renderer |
| BrowserManager.DesktopBrowserManager.GetAutomationRuntime | apps/desktop/src/browserManager.ts:1322-1367 | throws exactly for an unavailable tab; else it keeps its own runtime or a visible guest, or gets a new runtime, and the attribution stays |
| BrowserManager.DesktopBrowserManager.CloseAutomationTab | apps/desktop/src/browserManager.ts:1395-1437 | throws exactly for an unavailable tab and then changes nothing; else that tab and its runtime are gone, the others stay in order, and the active one stays or is the last one left |
| BrowserManager.DesktopBrowserManager.TrackDownload | apps/desktop/src/browserManager.ts:596-617 | tracks the page, adds the lease to its listeners and begins its gesture |
| BrowserManager.DesktopBrowserManager.FindContext | apps/desktop/src/browserManager.ts:752-764 | the tab of a page: by its runtime, or by its popup |
| BrowserManager.DesktopBrowserManager.HandleDownload | apps/desktop/src/browserManager.ts:766-789 | a download is cancelled exactly if its page belongs to a tab and is attributed to the agent there; then exactly the leases of the current epoch listening there are told of it |
| BrowserManager.DesktopBrowserManager.NativeInput | apps/desktop/src/browserManager.ts:2375-2426 | an input is swallowed exactly if it is expected, else it is human control of the thread |
| BrowserManager.DesktopBrowserManager.ScheduleWindowOpen | apps/desktop/src/browserManager.ts:791-861 | a task with the gesture of that moment, unless one is pending for the page |
| BrowserManager.DesktopBrowserManager.WindowOpenTaskRuns | apps/desktop/src/browserManager.ts:808-856 | a stale task changes nothing at all; a task whose page may not open the tab any more only disappears; else an automation task announces a tab, and a human one appends an active tab and ends the attribution |
| BrowserManager.DesktopBrowserManager.AnnounceTab | apps/desktop/src/browserManager.ts:824-842 | announces a tab id that is nowhere and will not be given again |
| BrowserManager.DesktopBrowserManager.CommitWindowOpen | apps/desktop/src/browserManager.ts:883-917 | exactly if its page may still open it, the announced tab is appended last and becomes active; and no commit is left |
| BrowserManager.DesktopBrowserManager.FallbackFires | apps/desktop/src/browserManager.ts:826-829 | commits what is pending; a cleared timer changes nothing at all |
| BrowserManager.DesktopBrowserManager.ReleaseWindowOpen | apps/desktop/src/browserManager.ts:580-588 | ends the gesture once; the last observer commits what is pending, any other release commits nothing |
| BrowserManager.DesktopBrowserManager.Dispose | apps/desktop/src/browserManager.ts:1124-1162 | nothing is left, and the invariants stay |
| BrowserManager.FewerThan | apps/desktop/src/browserManager.ts:2079-2083 | distinct tabs out of the warm ones are no more than these |

## Left out

- Electron, the Swift helper, sockets, HTTP, timers and child processes: their decisions are arguments or events.
- JSON, UTF-8 and sha256: requests arrive parsed, chunks arrive decoded, and storage keys are the capture ids (sha256 is
  taken to be injective, and the helper to name its file after the id of its message).
- Numbers of a manifest are exact decimals: that Number rounds a text to the nearest double is not modelled, and minus
  zero is zero, which `===` and printing do not tell apart. The size given to `updateMacUpdateManifestZipEntry` is
  that of a file, far below 10^21. Strings are sequences of characters, not of UTF-16 code units; keys of single
  characters are lower-cased for ASCII letters only.
- ManifestZipLaws.UpdateTwice: needs a checksum without line terminators, which a base64 digest is; see
  `ManifestZipLaws.TwoLineChecksumAddsALine`.
- AppSnapStore.NothingIsLost: a file is written in one atomic step under its final name; leftover temporary files, which
  no load reads, are not in the model, and a crash is the death of the process.
- AppSnapStore.GoneForGood: speaks of the directory; a consumption under way may still put an acknowledged capture into
  the list in memory.
- AppSnapStore.CaptureStore.DisposeStore: that a disposed manager ignores new messages of the helper is not modelled; the
  theorems hold whether they are consumed or not.
- AppSnapStore.RunComplete: is stated for runs in which no read of a good file fails; a failing read of a broken or
  unwanted file is allowed.
- AppSnapStore.LoadFindsEverything: ids are ordered by code points, where the source uses the locale order.
- AppSnapReconcile.OneAcceleratorAtMost: the availability probe of `checkShortcut`, which registers and unregisters an
  accelerator within one synchronous call, is not a step; unregistering is taken to succeed, the state listener not to
  call back into the manager, and passes not to throw.
- ProfileRepair.Partition.Repair: its account of all groups together assumes that no other startup changes the target
  meanwhile; `ProfileRepair.Partition.RepairGroup` allows that between staging and installing, but not after the second
  look at the base. Finding the source partition, and a file operation that throws half-way, are not modelled.
- PipeOutcomes.RepliesFitTheirRequests: a reply is too many requests, a duplicate id, a throw or the end of the handler;
  its error code, and its text, are not modelled.
- PipeClient.RunKeeps: accepting connections, the limit on their number and pausing the socket under backpressure are
  not in the model.
- BackendShutdown.RunKeeps: what the shutdown request sends, and unreferencing timers, are not modelled. That the outcome
  of the request settles nothing is how the model is built: the source has no branch that looks at it.
- BackendShutdown.TimeoutWasForced: both timers are taken to be armed at the same time of the event loop; delays are taken
  as setTimeout does, without their fractions, and as 1 ms under 1 ms or over 2147483647 ms.
- `summarizeBackendFailureOutput`, `resolveSingleTopLevelMacAppBundle`, and the checks of zip metadata, zip listings and
  symlinks: each is a filter over lines or entries with no state that outlives the call.
- Urls, titles, favicons, load errors, versions, snapshots and emitted states of tabs; popup geometry and view order;
  annotations; performance counters: presentation. The status of a tab is kept, as membership in a set.
- BrowserManager.DesktopBrowserManager.SetPanelBounds: bounds are known or not; their numbers are not modelled.
- BrowserManager.DesktopBrowserManager.OpenBrowser: whether the url differs from the page is an argument.
- BrowserManager.DesktopBrowserManager.ShowTab: of a screenshot only the part before its first await is modelled.
- `getVisibleAutomationRuntime` and the runtime surface: they read the state and change nothing modelled here.
- BrowserDownloads.AutomationDownloads.Download: delivery to listeners of a page that was torn down and tracked again is
  stated only for the listener set the page has then.
