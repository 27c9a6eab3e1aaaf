# AgentClash: delivery and command line, verified

A Dafny model of the parts of this repository where the order of steps, a crash or a concurrent
actor can go wrong, and proofs of what those parts keep. `dafny verify dfyconfig.toml` checks it.

**The live host.** `Host.dfy` is the state directory, the public fence, the installed tree and the
settings that `delivery/release.py` and `delivery/platform_update.py` change. It is a class with one
field for each file and for the shadows of interrupted writes. Every primitive is adversarial: it may finish, raise, or
be cut off by the death of the process, in any intermediate state of its statements. On a faultless host
every primitive that finds nothing in its way finishes. `Release.dfy`
and `PlatformUpdate.dfy` are the two programs on it, `Bootstrap.dfy` decides which bundles an update
accepts, and `InstalledTree.dfy` is the recovery overlay. `Delivery.dfy` states what any sequence of
calls to both programs keeps. Each primitive demands of its caller that the plan of the transaction
puts it next, that the journal on disk names this transaction and the stage of the step, and that every step
before it ended well (`Due`), and records its step with the outcome it returns. A ghost log keeps these attempts for every transaction, so the lemmas about the log speak of
steps that succeeded, in every crash prefix of every run. Only the emergency fence may follow a failed
step, and nothing may follow the emergency fence. The routes themselves are tied to the log: they open only
in the recorded step `Open`, every other use of the fence closes it, and the invariant says which logged
promotion open routes go back to (`Delivery.RoutesAreGuarded`).

**The artifact store.** `Publication.dfy` is a state machine of any number of publishers that
interleave, lose answers, die and retry, with requests that may arrive late. Bytes, the canonical
JSON form and the hash are abstract: the form can be read back, and the hash is injective.
`Cloud.dfy` is `put`, `release` and the writing tail of `publish` as methods on the shared bucket.

**The command line.** `Baseline.dfy`, `StableSort.dfy` and `Listing.dfy` resolve a baseline run;
`EventStream.dfy` resumes a live tail, with every connection, look for cancellation, probe and pause on a trace;
`EvalsetLogs.dfy` is the fan-in of many tails under every
schedule; `Regressions.dfy` promotes failures; `Transcript.dfy` and `Inline.dfy` are Markdown
printers against CommonMark readers; `Series.dfy` builds the lineup × seed matrix; `Polling.dfy` is
the poll loop with a deadline, with every probe, clock reading and sleep on a trace. `Text.dfy` holds Go's string order, white space and numbers.

## Findings

- A raise or crash after a marker is on disk leaves the marker, except when only the very last
  unlink was interrupted after it took effect. Then everything the transaction promises is complete,
  which is what `Release.Execute` and `PlatformUpdate.Execute` state.
- The first journal write of `delivery/release.py:293` is outside the exception handler. When it
  raises after the rename, the marker stands but no emergency fence is attempted (`Release.Handled`).
- A pending candidate's predecessor is the deployed release, with one exception: a promotion cut off
  between its deployed record and the removal of the candidate (`delivery/release.py:337-338`). The marker
  then stands, and the two differ unless the release replaces itself (`Delivery.PredecessorIsDeployed`,
  `Delivery.CutPromotionExample`).
- `publish` takes the digest of the bundle from the build's metadata (`delivery/build.py:477-480`, `:488`) and
  never hashes the file again. A visible release is complete if and only if that digest is right
  (`Publication.SuccessIsCompleteIffTruthful`); with a wrong one the publication succeeds all the same
  (`Publication.UntruthfulExample`). Everything else in the chain matches its name without that condition.
- The overlay of an update's snapshot gives back exactly the old tree if and only if no interrupted
  replacement left its shadow file (`InstalledTree.RecoveryIsExactWithoutShadow`); otherwise that one
  shadow is the only difference (`InstalledTree.LeftoverShadowExample`).
- The early exit of the baseline search never changes the chosen run or the outcome. It can only
  shorten the list of rejections in the error message (`Baseline.Agrees`).
- `max_age_days` means that many days for every pair of times if and only if it is at most 106751. Beyond that the
  product of nanoseconds wraps, and some runs within the limit are rejected (`Baseline.FreshIsYoung`).
- The two paging loops are complete exactly under `Listing.RunsComplete` and
  `Listing.ObjectsComplete`; the second stops after one page when no total is reported
  (`Listing.IncompleteExamples`).
- `cli/internal/api/sse.go:28` says that an empty last event ID starts at the live tail; the server in
  `backend/internal/api/run_events_sse.go:418-428` replays from the beginning. The model allows any start.
- `markdownInline` does not escape `&`: text with a named character reference does not survive, and
  that is the only text that does not (`Inline.InlineRoundTrip`, `Inline.AmpersandExample`).

## Model

| member | source | states |
|---|---|---|
| InstalledTree.InstallAllAt | delivery/platform_update.py:386-389 | After replacing a list of files, exactly those paths hold the staged bytes and every other path is as before |
| InstalledTree.RestoreUndoesInstall | delivery/platform_update.py:328-331 | Whatever part of the install loop ran, overlaying the saved files and deleting the additions gives back exactly the old tree |
| InstalledTree.RestoreKeepsShadow | delivery/platform_update.py:100-110 | A replacement cut off between shadow and rename leaves that shadow as the only difference after recovery |
| InstalledTree.ReplaceOneMore | delivery/platform_update.py:386-389 | One more replacement, finished or interrupted anywhere, keeps the old tree recoverable |
| InstalledTree.RecoveryIsExactWithoutShadow | delivery/platform_update.py:103-109 | Recovery is exact if and only if no shadow of an installed file is left |
| InstalledTree.LeftoverShadowExample | delivery/platform_update.py:103-109 | A tree with the shadow of one cut-off replacement, which recovery does not give back exactly |
| InstalledTree.DeltaInstallIsFullInstall | delivery/platform_update.py:163-171 | For a bundle that differs from the tree in the reviewed delta only, installing the delta equals unpacking the whole bundle |
| Bootstrap.StagedOnce | delivery/platform_update.py:139-161 | Each accepted member is written once, no other member has its name, and its own bytes are staged |
| Bootstrap.Stage | delivery/platform_update.py:139-161 | The member loop succeeds exactly on writable archives, and whatever it staged never exceeds 512 MiB |
| Bootstrap.CompareDelta | delivery/platform_update.py:163-171 | The set comparison accepts exactly when the inventory is installed except for the additions and differs exactly in the reviewed delta |
| Bootstrap.Unpack | delivery/platform_update.py:113-176 | Accepts a genuine bundle if and only if the additions are absent, every member is safe, the inventory is complete and the delta is the reviewed one |
| Bootstrap.AcceptedIsReviewed | delivery/platform_update.py:163-171 | An accepted bundle can be installed by its delta with the effect of a full install |
| Bootstrap.WritableMeans | delivery/platform_update.py:139-161 | The member checks accept exactly archives of regular files of at most 256 MiB with distinct names of the inventory, without empty, `.` or `..` components, and 512 MiB together |
| Bootstrap.ComponentsJoin | delivery/platform_update.py:145-149 | The components checked are those of the path, and none holds a slash |
| Bootstrap.AcceptedMembers | delivery/platform_update.py:123-171 | An accepted bundle holds every listed and every delta file and nothing else but the two tool files; additions are not installed yet, and the other bytes differ from the installed ones exactly in the delta |
| HostModel.WithImages | delivery/release.py:111-127 | The rewritten environment has the same keys; image lines in the manifest get its references and all other lines keep their values |
| HostModel.PreparedEnv | deploy/aws/scripts/host.py:212-227 | The environment rendered by `prepare` selects exactly the manifest's application images |
| HostModel.Host.constructor | delivery/release.py:210-220 | A closed host without markers satisfies the invariant |
| HostModel.Host.OpenShadow | delivery/release.py:33-35 | A shadow left by an interrupted write makes every later write of that file raise |
| HostModel.Host.Record | delivery/release.py:293-339 | A step that is due and its outcome extend the plan's prefix; only after a successful outcome can another step be due |
| HostModel.Host.WriteJournal | delivery/release.py:32-45 | The journal is the old one or the new one after any outcome, the new one after success, and no shadow is left then |
| HostModel.Host.WriteDeployed | delivery/release.py:32-45 | The deployed record and the list of promotions change together or not at all, and success changed them |
| HostModel.Host.Fence | deploy/aws/scripts/host.py:134-163 | A successful fence step leaves the routes as asked, an unsuccessful one as asked or as before |
| HostModel.Host.EmergencyFence | delivery/release.py:76-88 | Its outcome is on record, no step can follow it, success means closed routes, and no outcome opens them |
| HostModel.Host.StopApplications | deploy/aws/scripts/host.py:237-258 | Success closes the fence and leaves no new cleanup marker; a failed stop may leave it |
| HostModel.Host.TakeBackup | delivery/release.py:102-106 | The digest returned by a successful backup is the one of the receipt on disk |
| HostModel.Host.SelectImages | delivery/release.py:108-144 | Success rewrites exactly the existing image lines to the release's images |
| HostModel.Host.Mark | delivery/platform_update.py:362-367 | The update's marker is created exclusively, and the tree and settings of that moment are what recovery must give back |
| HostModel.Host.ReplaceUpdate | delivery/platform_update.py:100-110 | The update journal is the old or the new one after any outcome, and an existing shadow refuses the write |
| HostModel.Host.InstallFile | delivery/platform_update.py:386-389 | A replaced file is unchanged, shadowed or replaced after any outcome, and success replaced it |
| HostModel.Host.Prepare | deploy/aws/scripts/host.py:173-234 | Success leaves a closed fence, the release's images in the environment and its manifest as the current one |
| Release.RunStage | delivery/release.py:306-318 | One journalled stage moves the transaction to the next step of the plan and keeps environment, backup and start time as the stage promises |
| Release.RunStages | delivery/release.py:297-318 | The seven stages run in order behind the closed fence; a finished loop has done all sixteen steps without failure, backed up, selected and started |
| Release.DeployCandidate | delivery/release.py:294-339 | The marker is gone only after the whole deploy: images selected, current manifest and candidate record written; it never opens the routes, and without faults it completes exactly if no shadow and no missing image line is in its way |
| Release.PromoteCandidate | delivery/release.py:321-339 | The marker is gone only after the whole promotion: deployed record written, candidate removed, one promotion more; routes that were closed are open only if the opening step was attempted, a promotion is recorded only at its eleventh step, and without faults it completes exactly if no shadow is in its way |
| Release.ExtendLog | delivery/release.py:248-259 | Appending a transaction that followed its plan keeps the log well formed |
| Release.ExtendPromotions | delivery/release.py:331-337 | A record whose predecessor is the last promoted release extends the promotion chain |
| Release.RunDeploy | delivery/release.py:286-344 | Either the marker never reached the disk and nothing changed, or the attempted steps have the stated effects, and exactly a raise after the first journal write attempted the emergency fence last |
| Release.TransactDeploy | delivery/release.py:286-344 | A deploy transaction keeps the invariant whichever step ends it, and logs exactly one entry if its marker was written |
| Release.TransactPromote | delivery/release.py:286-344 | A promote transaction keeps the invariant whichever step ends it, and promotes exactly the pending candidate |
| Release.Execute | delivery/release.py:210-344 | One call keeps the invariant; a standing marker or a finished request changes nothing; success leaves the release as the pending candidate, or deployed with nothing pending, and without a new transaction it already was one of the two; a new transaction starts only on the matching candidate state, has one log entry, its effects, and the emergency fence exactly when it raised inside the handler; success implies that the call was admitted, and on a faultless host an admitted call succeeds, a new one with every step of its plan done |
| PlatformUpdate.TakeSnapshot | delivery/platform_update.py:325-344 | Success saved the bytes of every file the update overwrites, the control files and the settings, under an approval not used before; without faults it succeeds exactly if the approval is unused and the files are there |
| PlatformUpdate.InstallFiles | delivery/platform_update.py:384-389 | Whatever interrupts the loop, the snapshot restores the old tree; a finished loop has installed the whole bundle |
| PlatformUpdate.RecordCompletion | delivery/platform_update.py:410-428 | The journal is never left without the marker, and the marker is gone only after the completion record |
| PlatformUpdate.RunMarked | delivery/platform_update.py:368-428 | From the marker on, the old tree and settings stay recoverable until the marker is removed, and then everything is updated |
| PlatformUpdate.Preflight | delivery/platform_update.py:209-324 | Passes only on a host without candidate, marker, journal or interrupted write, with all control files, the deployed manifest prepared, a fitting approval and an acceptable genuine bundle; without faults it passes exactly then |
| PlatformUpdate.Transact | delivery/platform_update.py:345-431 | A marked update keeps the invariant whichever step ends it |
| PlatformUpdate.Execute | delivery/platform_update.py:206-431 | One call keeps the invariant and never opens the fence; a call changes nothing unless the host has no marker, candidate, journal or interrupted write and all its control files, and the bundle and approval are acceptable; a marked one is complete, or blocked and recoverable, and the emergency fence was attempted exactly when it raised; on a faultless host an acceptable call with an unused approval succeeds |
| Delivery.Operate | delivery/release.py:210-344 | Over any calls of both programs with any failures: without marker an open fence shows exactly the deployed release, an unfinished transaction of either program blocks both, the two markers never coexist, and the deployed record is always the last promoted one |
| Delivery.FromClosedHost | delivery/platform_update.py:206-431 | The same for every history that starts on a closed host, with recovery of the old tree and settings while an update is unfinished |
| Delivery.Repeat | delivery/release.py:235-246 | Repeating a deploy whose candidate is pending, or a promotion of the deployed release with nothing pending, changes nothing, however often |
| Delivery.Retry | delivery/release.py:235-246 | A successful deploy or promote leaves that state after at most one transaction and one promotion, and without a transaction the release was already candidate or deployed |
| Delivery.PredecessorIsDeployed | delivery/release.py:252-259 | The candidate's predecessor is the deployed release if and only if no promotion was cut off after its record, or the release replaces itself; a cut-off promotion has left its marker |
| Delivery.CutPromotionExample | delivery/release.py:337-338 | A host that satisfies the invariant, with the log and the records of a cut-off promotion: its candidate is not preceded by the deployed release |
| Delivery.ApprovalsFit | deploy/aws/scripts/release_contract.py:141-153 | Every logged transaction ran under an approval of its operation, release and predecessor, inside a window of at most an hour |
| Delivery.WindowEdges | deploy/aws/scripts/release_contract.py:141-153 | An approval issued up to a minute ahead and valid for up to an hour is accepted until its end, and not at its end |
| Delivery.OneApprovalOnePurpose | deploy/aws/scripts/release_contract.py:141-153 | Two transactions under one approval are of the same operation, release and predecessor and less than 61 minutes apart |
| Delivery.MigrationIsGuarded | delivery/release.py:294-318 | Every migration attempted in any run follows fence, drain, stop, backup and select of its own transaction, all successful and in that order, with no start before |
| Delivery.CandidateIsStartedAndReady | delivery/release.py:310-320 | The candidate record is attempted only after migration, start and readiness of that candidate succeeded |
| Delivery.OpeningIsGuarded | delivery/release.py:321-328 | Opening the fence is attempted only inside a promotion, after the closed fence and the readiness of that release succeeded |
| Delivery.OpenerWasReady | delivery/release.py:321-325 | A promotion that got as far as opening has the successful readiness of its release at its place in the plan |
| Delivery.OpeningFollowsDeploy | delivery/release.py:254-259 | The transaction directly before an opening is the deploy of the same release, with every step up to its candidate record successful |
| Delivery.RoutesAreGuarded | delivery/release.py:321-328 | In every reachable state, open routes go back to the newest transaction or the one before it: a promotion that confirmed readiness behind the closed fence, directly after the whole deploy of its release, which is the deployed release when no deployment marker stands |
| Delivery.RecordingIsGuarded | delivery/release.py:327-338 | The private record, its upload, the deployed record and the removal of the candidate are attempted only after closed fence, readiness, opening and public readiness of that release succeeded in this order; the last two also after record and upload |
| Delivery.MarkerGoesLast | delivery/release.py:319-339 | The marker is removed only after both records of a deploy, or after the deployed record and the removal of the candidate, and everything before them, succeeded |
| Delivery.PromotedIsGuarded | delivery/release.py:321-338 | Every release ever recorded as deployed was promoted by a logged transaction that was ready, opened, publicly ready and recorded, directly after its whole deploy |
| Delivery.Rollout | delivery/release.py:210-344 | On a faultless host without marker, candidate or interrupted write and with every image line, a deploy and a promotion with fitting approvals both complete: the routes are open, the release is the deployed one and its images are selected |
| Delivery.Maintain | delivery/platform_update.py:206-431 | On a faultless host that can be maintained, an update with a fitting, unused approval and an acceptable bundle completes: the whole bundle is installed, the new settings and runtime are in place, the routes are closed and the marker is gone |
| Delivery.InstallIsGuarded | delivery/platform_update.py:362-389 | Replacing an installed file is attempted only after mark, fence, drain, stop, backup, stop-all and the second approval check succeeded |
| Delivery.CompletionIsGuarded | delivery/platform_update.py:386-428 | Completion record, journal removal and marker removal are attempted only after every file was installed, the settings replaced, the runtime prepared and checked, the platform started and checked again and both records kept; the marker goes last |
| Delivery.EffectsOnce | delivery/release.py:297-338 | No transaction migrates, backs up, starts, opens or records twice |
| Delivery.PromotionChain | delivery/release.py:233-259 | Each promoted record names the one before it as predecessor, the first the release deployed at the start |
| Publication.ReportDigests | delivery/build.py:469-472 | The evidence names every report that is put and no other, each with the hash of a report of that name |
| Publication.LastReportWins | delivery/build.py:472 | Of several reports with one name the evidence has the hash of the last |
| Publication.PathsAreDistinct | delivery/build.py:471-504 | The object names of different kinds never collide although two folders contain others |
| Publication.PathsAreNamed | delivery/build.py:469-504 | The object names of reports, evidence, bundle, manifest and index |
| Publication.NextIsSound | delivery/build.py:469-504 | Once everything before it is stored, the next object of a publication refers only to stored objects, and unless it is the bundle it matches its name |
| Publication.CreatedIsClosed | delivery/cloud.py:317-341 | A conditional write keeps the store closed whenever it arrives, even after its publisher failed |
| Publication.RunInv | delivery/build.py:469-504 | Every interleaving of publishers with crashes, lost answers, late requests and retries leaves a closed store in which every bundle is one that some publisher put under the digest it was given |
| Publication.BundlesMatchIffTruthful | delivery/build.py:477-480 | All bundles of a reachable store match their names if and only if every publisher whose bundle is stored was given the right digest |
| Publication.PassedBundleMatches | delivery/build.py:477-480 | A publisher that passed its bundle left a matching one if and only if it was given the right digest |
| Publication.ObjectsNeverChange | delivery/cloud.py:317-341 | No object ever changes or disappears |
| Publication.IndexImpliesComplete | delivery/cloud.py:343-359 | A present index leads to a release with its evidence and reports, all with matching hashes, and its bundle; a lookup fails only for an absent index or another destination |
| Publication.LookupIsForever | delivery/cloud.py:343-359 | A revision that resolved once resolves to the same release after any further actions |
| Publication.LookupIffDestination | delivery/cloud.py:343-359 | With an index entry in a closed store, the lookup succeeds exactly if the manifest it leads to names this account and region, returns that manifest, and otherwise reports the destination |
| Publication.SuccessIsVisible | delivery/build.py:499-504 | A successful publication resolves by revision to its own manifest, with every report stored |
| Publication.SuccessIsCompleteIffTruthful | delivery/build.py:477-504 | The release a successful publication made visible is complete if and only if the digest it was given is that of its bundle |
| Publication.SuccessMeans | delivery/build.py:443-504 | A success was admitted from the start, and its revision resolves to a manifest and evidence that say of revision, destination, bundle digest, provenance and reports exactly what the build said |
| Publication.UntruthfulExample | delivery/build.py:477-480 | A build with a well-formed revision and the wrong bundle digest: its publication succeeds, and its revision resolves to a linked release that is not complete |
| Publication.SuccessesAgree | delivery/cloud.py:337-341 | Two successful publications of one revision have the same release, manifest, evidence and bundle |
| Publication.RetryOutcome | delivery/cloud.py:335-341 | From any reachable store, a publication without faults succeeds if and only if its index and its bundle's name are free or already hold its own |
| Publication.TruthfulBundleIsFree | delivery/cloud.py:335-341 | With right digests only, the index alone decides that |
| CloudStore.Cloud.Send | delivery/cloud.py:317-341 | `put` succeeds only with its exact bytes stored, whatever other publishers do between its requests |
| CloudStore.Cloud.Release | delivery/cloud.py:343-359 | The two reads of `release` return a linked release whose manifest names the revision, account and region asked for and that agrees with the final store, whatever happens between them; exactly a malformed revision is refused as such |
| CloudStore.Cloud.SendReports | delivery/build.py:469-472 | The loop over the reports puts each and collects exactly the digests the evidence needs |
| CloudStore.Cloud.Publish | delivery/build.py:469-504 | A successful publication is visible by its revision with the contents of the build, and complete if and only if its bundle digest was right; a conflicting index or bundle makes it fail |
| StableSort.SortPermutes | cli/cmd/ci.go:1026 | Sorting keeps every run exactly as often as it was listed |
| StableSort.SortSorts | cli/cmd/ci.go:1026 | No run sorts in front of a newer one |
| StableSort.SortIsStable | cli/cmd/ci.go:1026 | Elements the comparison does not order keep their order |
| StableSort.SortedIsUnique | cli/cmd/ci.go:1026 | Where the comparison decides every pair, the sorted arrangement is unique |
| Text.LessIsTotal | cli/cmd/ci.go:1079-1082 | The string comparison is asymmetric and total |
| Text.LessIsTransitive | cli/cmd/ci.go:1079-1082 | The string comparison is transitive |
| Text.LessIsFirstDifference | cli/cmd/ci.go:1079-1082 | The smaller string ends first or has the smaller character at the first difference |
| Baseline.NewerIsStrictAndTotal | cli/cmd/ci.go:1070-1083 | The four-level comparison is asymmetric, and total on runs with distinct IDs |
| Baseline.NewerIsLater | cli/cmd/ci.go:1070-1083 | Later times are newer, known times are newer than unknown ones, and among equal times the larger creation text and then the larger ID |
| Baseline.TimestampIsFinishedFirst | cli/cmd/ci.go:1177-1188 | A finishing time that can be read counts, or else the creation time; blank fields are not read |
| Baseline.NewerIsTransitive | cli/cmd/ci.go:1070-1083 | The four-level comparison is transitive |
| Baseline.NotNewerIsTransitive | cli/cmd/ci.go:1070-1083 | Not being newer is transitive, so the comparison is fit for sorting |
| Baseline.ExhaustedStaysExhausted | cli/cmd/ci.go:1144-1167 | Whatever sorts behind a run that exhausts the window fails the age check too, with saturating and wrapping int64 arithmetic |
| Baseline.FreshIsYoung | cli/cmd/ci.go:1144-1155 | The age limit is the comparison with that many days for every time if and only if it is at most 106751 days |
| Baseline.CompletedAgent | cli/cmd/ci.go:1048-1059 | An agent is found exactly when a completed one of the deployment exists |
| Baseline.SearchAgents | cli/cmd/ci.go:1047-1062 | The inner loop finds the first completed agent or records every mismatch, up to three |
| Baseline.BreakIsLossless | cli/cmd/ci.go:1037-1043 | Stopping at a run that exhausts the window gives the outcome of the full scan, and a prefix of its rejections |
| Baseline.Resolve | cli/cmd/ci.go:1021-1068 | The search with early exit agrees with a scan of every listed run, and the answer is the newest run that is completed, fits workspace, pack version, input set and age, and has a completed agent of the deployment; without such a run each reason given is true of a listed run |
| Baseline.NewestDecides | cli/cmd/ci.go:1021-1068 | The answer is that of the newest run that ends the search, and there is none exactly when no listed run ends it |
| Baseline.EqualStampsKeepListingOrder | cli/cmd/ci.go:1026 | Runs with equal times and IDs are tried in the order of the listing |
| Baseline.ListingOrderIsIrrelevant | cli/cmd/ci.go:1026 | With distinct IDs the baseline does not depend on the order of the listing |
| Listing.ListRuns | cli/cmd/ci.go:1085-1123 | The loop ends, returns a prefix of the server's list without repeats, and the whole list if and only if the stated condition on page cap and total holds |
| Listing.ListObjects | cli/cmd/ci.go:734-760 | The same for remote objects, where completeness beyond one page needs a reported total |
| Listing.TruthfulServer | backend/internal/api/list_pagination.go:9-34 | With this server's page cap and a truthful or omitted total, the runs listing is complete |
| Listing.IncompleteExamples | cli/cmd/ci.go:757 | A list of 150 that both loops miss part of behind a page cap of 50, and the object loop without a total |
| EventStream.PositionIsUnique | cli/cmd/run.go:883-895 | With distinct IDs the last received ID identifies the place to resume |
| EventStream.MatchingKeeps | cli/cmd/run.go:896-898 | Exactly the matching events are kept, each as often as it came |
| EventStream.Receive | cli/cmd/run.go:888-940 | One connection renders the matching events of one contiguous stretch and keeps the last ID |
| EventStream.Wire.Connect | cli/cmd/run.go:882-940 | A connection is on the trace with the stretch it received, starts after a known last ID, and renders the matching events of that stretch |
| EventStream.DeliveredIsSegment | cli/cmd/run.go:888-892 | What a contiguous trace received is one segment of the log without gap or repeat, from the position after a known `--since` |
| EventStream.ReconnectBound | cli/cmd/run.go:782-854 | A run that received n events has made at most 5(n + 1) connections |
| EventStream.NothingAfterExhaustion | cli/cmd/run.go:833-845 | After the fifth eventless live connection in a row no connection, probe or pause follows |
| EventStream.RestBound | cli/cmd/run.go:846-853 | The pauses since the last event never exceed 1 + 2 + 4 + 8 = 15 seconds |
| EventStream.Follow | cli/cmd/run.go:798-803 | One more connection extends what was received, wherever the last one dropped |
| EventStream.StreamRunEvents | cli/cmd/run.go:787-860 | Every run has an orderly and contiguous trace, prints exactly the matching events received, and its end is the one its last contact shows: cancelled exactly after a look that saw the cancellation or a pause cut short, exhausted exactly after the fifth eventless live connection in a row |
| EvalsetLogs.AdvanceKeeps | cli/cmd/evalset_logs.go:165-211 | Every step of a goroutine sends only its own lines and keeps its log's order |
| EvalsetLogs.RunInv | cli/cmd/evalset_logs.go:46-62 | Every schedule keeps the channel within 64 lines and accounts for every line sent |
| EvalsetLogs.MergeKeepsOrder | cli/cmd/evalset_logs.go:46-110 | The consumed lines of each run are its log segment in order, followed by at most one error or end |
| EvalsetLogs.NoDeadlock | cli/cmd/evalset_logs.go:49-62 | Until all goroutines are closed and the channel is drained, some step is possible without cancelling |
| EvalsetLogs.FailsOnce | cli/cmd/evalset_logs.go:171-198 | Each goroutine sends at most one error, as its last line |
| EvalsetLogs.RunExplained | cli/cmd/evalset_logs.go:165-211 | In every schedule each goroutine is where its past leads: its closing line is an error exactly if its last move was a refused connection or an unreadable probe, and an end exactly if that was an unfollowed drop or a terminal probe; without one it was cancelled |
| EvalsetLogs.ConnectionsArePaced | cli/cmd/evalset_logs.go:203-209 | A goroutine connects first, after its pause, or at once after a connection that brought an event, and pauses only after one that brought none |
| EvalsetLogs.CancelledCanQuit | cli/cmd/evalset_logs.go:167-170 | A cancelled goroutine that is about to connect or pauses can give up without a line |
| EvalsetLogs.EndedByLastMove | cli/cmd/evalset_logs.go:171-198 | The same of the consumed lines once the channel is drained |
| EvalsetLogs.PrintedAt | cli/cmd/evalset_logs.go:73-109 | Every event line is printed once, in its order, under the key of its target, or under the run ID where that is empty |
| EvalsetLogs.FailuresAreFailed | cli/cmd/evalset_logs.go:64-72 | Counting errors by line equals counting them by goroutine |
| EvalsetLogs.Consume | cli/cmd/evalset_logs.go:64-113 | The all-failed error is returned exactly when every goroutine's last move was a refused connection or an unreadable probe, and every event is printed once under its key or run ID |
| Regressions.LastLive | cli/cmd/ci_regressions.go:238-254 | A case is found exactly when a live one has the trimmed key |
| Regressions.LastLiveIsLast | cli/cmd/ci_regressions.go:238-254 | The case found is the last one with the key that is neither archived nor rejected |
| Regressions.ExistingCaseIndexes | cli/cmd/ci_regressions.go:238-254 | Both indexes hold exactly the non-blank keys of live cases, each with its last live case |
| Regressions.FoundIsMatch | cli/cmd/ci_regressions.go:256-267 | The lookup through the maps is the search through the cases |
| Regressions.MatchIffShared | cli/cmd/ci_regressions.go:256-267 | A match is found exactly when a live case shares the cluster key or the challenge identity |
| Regressions.ClusterWins | cli/cmd/ci_regressions.go:257-261 | A live case with the same cluster key wins over one with the same challenge |
| Regressions.MatchIsLast | cli/cmd/ci_regressions.go:256-267 | An existing entry names the last live case of the failure's cluster, or else the last of its challenge |
| Regressions.FitsMeans | cli/cmd/ci_regressions.go:119-161 | Which of the entries a failure gets, as an equivalence in its own fields and the cases of the suite |
| Regressions.PreferredIsBest | cli/cmd/ci_regressions.go:281-290 | The mode is one of the failure's, a full executable if it has one, and missing exactly if it has neither |
| Regressions.Summary.Handle | cli/cmd/ci_regressions.go:119-161 | Each failure adds exactly the one entry its checks call for |
| Regressions.Summary.PromoteSuite | cli/cmd/ci_regressions.go:112-162 | A suite adds one error if its cases cannot be listed, and otherwise one fitting entry for each failure in order |
| Regressions.Conservation | cli/cmd/ci_regressions.go:110-165 | The four lists of a result together hold one entry for each suite and failure and one error for each unlistable suite |
| Regressions.PostsAreNeeded | cli/cmd/ci_regressions.go:131-150 | Every promotion request is for a promotable failure with a challenge, in its best mode, that no case of its suite covers which is neither archived nor rejected |
| Regressions.UnblockedIffDefaultBranch | cli/cmd/ci_regressions.go:169-197 | Automatic promotion is unblocked exactly on a build of the default branch without any trace of a pull request |
| Regressions.PromoteFailures | cli/cmd/ci_regressions.go:64-167 | Promotion runs exactly for a failed gate with an enabled policy, suites and failures, creates active cases only on the default branch, and every other result has its own condition |
| Transcript.MaxBacktickRun | cli/cmd/run_transcript.go:426-440 | The loop computes the longest run of backticks |
| Transcript.MaxRunBounds | cli/cmd/run_transcript.go:426-440 | No stretch of backticks is longer than the result |
| Transcript.MaxRunReached | cli/cmd/run_transcript.go:426-440 | Some stretch of backticks is as long as the result |
| Transcript.CleanHasNoReturn | cli/internal/output/sanitize.go:13-34 | Cleaned text has no carriage return, so newline is its only line end |
| Transcript.ControlsGo | cli/internal/output/sanitize.go:13-34 | Every control character but tab and newline goes, everything else stays as often as it came |
| Transcript.SanitizeJoins | cli/internal/output/sanitize.go:13-34 | Text is sanitized piece by piece, so what stays keeps its order |
| Transcript.CleanEndsInText | cli/cmd/run_transcript.go:414-418 | Cleaning takes exactly the line ends from the end of the sanitized text |
| Transcript.MarkdownFence | cli/cmd/run_transcript.go:414-424 | Blank text prints nothing; other text prints between two fences longer than any run in it |
| Transcript.FenceIsShort | cli/cmd/run_transcript.go:418-422 | The fence has three backticks, or one more than some run in the text |
| Transcript.FenceRoundTrip | cli/cmd/run_transcript.go:414-424 | The printed block reads as exactly one closed fenced block without info string whose content is the text, and nothing after it |
| Inline.NamedSurvives | cli/cmd/run_transcript.go:395-412 | A named character reference survives escaping and escaping makes no new one |
| Inline.InlineRoundTrip | cli/cmd/run_transcript.go:395-412 | Reading the escaped line gives it back if and only if it holds no named character reference, and never lengthens it |
| Inline.EscapedIsInert | cli/cmd/run_transcript.go:395-412 | Every character that CommonMark gives a meaning to inside a line, and the table bar and heading mark, stands behind an escaping backslash or is a reference |
| Inline.InlineReadsBack | cli/cmd/run_transcript.go:395-412 | The printed text is one line without active characters and reads as the sanitized value if and only if that holds no named reference |
| Inline.AmpersandExample | cli/cmd/run_transcript.go:397-410 | The text `&amp;` does not survive |
| Series.CompactedIsDistinct | cli/cmd/run_create_helpers.go:425-440 | The compacted values are distinct and are exactly the trimmed non-blank ones |
| Series.CompactedGrows | cli/cmd/run_create_helpers.go:425-440 | Values are only appended, so each stands where it first appears |
| Series.CompactNonEmptyStrings | cli/cmd/run_create_helpers.go:425-440 | The loop keeps each trimmed non-blank value where it first appears |
| Series.KeyIsInjective | cli/cmd/run_create_helpers.go:321-322 | Row keys determine lineup name and seed, even for names that contain `:seed-` |
| Series.LabelsAreDistinct | cli/cmd/run_create_helpers.go:351-363 | The participants of one row have distinct labels |
| Series.LabelMeans | cli/cmd/run_create_helpers.go:351-363 | A single participant has the lineup name; of several, the first is the primary and the others are numbered |
| Series.MatrixAt | cli/cmd/run_create_helpers.go:306-328 | The matrix holds each lineup and seed once, in lineup-major order |
| Series.RowMeans | cli/cmd/run_create_helpers.go:313-326 | The row of a lineup and a seed names both, has the key of both, and one participant for each deployment in order |
| Series.ResolvedNamesAreDistinct | cli/cmd/run_create_interactive.go:301-329 | Lineups resolved from the compacted flag have distinct names |
| Series.KeysAreDistinct | cli/cmd/run_create_helpers.go:320-326 | For distinct names all keys of a matrix are distinct |
| Series.BuildRows | cli/cmd/run_create_helpers.go:306-328 | The loops build the matrix, or refuse the first lineup that is empty or of another mode |
| Series.BuildSeriesBody | cli/cmd/run_create_helpers.go:240-330 | Succeeds exactly when every field is in its range and no lineup is empty or of another kind, with lineups × seeds rows, at most 100, and the mode of the lineups; every refusal is true of the request |
| Polling.StatusIgnoresCaseAndSpace | cli/cmd/ci_run.go:561-570 | Surrounding white space and letter case do not change whether a status is terminal or a success |
| Polling.ListsAreDisjoint | cli/cmd/ci_run.go:561-570 | No word is both a success and a failure |
| Polling.TerminalWords | cli/cmd/ci_run.go:561-570 | A status is a success or a failure exactly if its trimmed small letters are one of the three or nine words |
| Text.LowerLetters | cli/cmd/ci_run.go:561-570 | Capital letters get their small ones and other ASCII characters stay |
| Text.TrimSplits | cli/cmd/ci_run.go:561-570 | Trimming takes the white space from both ends and nothing else |
| Text.SpacesAreWhite | cli/cmd/ci_run.go:561-570 | White space is the characters with the Unicode property White_Space |
| Polling.SleepsEndInTime | cli/cmd/ci_run.go:519-531 | Every sleep on the trace is positive, no longer than the interval, and from the clock reading just before it does not pass the deadline |
| Polling.Pause | cli/cmd/ci_run.go:519-531 | The pause requests the interval or what a fresh reading leaves until the deadline, and nothing if that is not positive |
| Polling.Overdue | cli/cmd/ci_run.go:516-518 | The wait is over exactly when a reading after a live answer is at or past the deadline |
| Polling.WaitForCompletion | cli/cmd/ci_run.go:500-533 | Only live answers are polled past; success, failure and read error are returned exactly for such a last answer, a timeout exactly when the trace ends with a live answer and a reading at or past the deadline, an interruption exactly when it ends with an interrupted sleep; all sleeps are bounded, and at most ceil(timeout / interval) + 1 probes are made |

## Left out

- HostModel.Host.Perform: drain, migrate, start, the checks and the history upload have no tracked effect; their order and their outcome are modelled.
- HostModel.Approves: the approval is modelled by operation, release, predecessor and time window; its destination, operator, acknowledgements and evidence names are one adversarial answer.
- Release.Execute: what manifests and evidence contain is one outside answer, so completion on a faultless host assumes a favourable one.
- HostModel.Host.CloseFence: the fence file and the routes the listener has loaded are one boolean, so a reboot that loads a newer fence file is not modelled.
- Publication.Coding: SHA-256 is an injective function and canonical JSON is a form that can be read back; other fields of evidence and manifest are one string each.
- Listing.Server: the server's list does not change between two pages.
- EventStream.StreamRunEvents: a drop followed by a terminal or unreadable probe ends the tail by design, so contiguity is proved and completeness is not; event IDs are distinct and not empty.
- Polling.WaitForCompletion: the run's answers are a finite list, because without a timeout the loop may never end.
- Series.Preflight: machine integers are unbounded; seeds are at most 100 before the product is formed.
- Operator commands that clear markers, reconcile candidates or restore a snapshot are not part of this model; it covers the two programs between such interventions.
- Losing power: file operations that finished are durable in program order, so a reordered unlink after a power failure is not modelled.
- File modes, symbolic links, directory contents other than the named files, and shadows inside a snapshot directory.
- Docker, AWS, SSM, GitHub and HTTP calls: each is an adversarial outcome.
- Building, scanning and pushing images before the writing tail of `publish`.
- Bytes that are not valid UTF-8 in Go strings; text is a sequence of characters.
- Rendering of events, JSON and YAML encoding, run ages in the baseline result, titles and metadata of promoted cases.
- CRUD commands, configuration and the web application: plumbing without a deep property.
