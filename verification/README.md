# Verified model of ployz

Dafny models of the parts of ployz whose promises span many steps, with proofs of those promises for all
inputs and all runs. `dafny verify dfyconfig.toml` checks the whole project.

| area | modules | source |
|---|---|---|
| Build slots: ownership, quarantine, staging, errors | `SlotProtocol`, `SlotSafety`, `SlotLimits`, `SlotQuarantine`, `SlotRefinement`, `BuildErrors`, `BuilderObject` | `core/crates/ployz-build/src` (builder, execution, lib, upload, policy, railpack) |
| Captured uploads: links, receiver, sender, round trip | `PathSyntax`, `LinkWalk`, `UploadReceiver`, `UploadObject`, `UploadRoundTrip`, `UploadTheorem` | `core/crates/ployz-build/src/upload.rs` |
| Streaming build progress: lines, streams, steps, rendering | `Utf8`, `Utf8Text`, `ProgressLines`, `SolveParser`, `StepStreams`, `StepOrder`, `StepReports`, `ProgressParser`, `PlainRenderer`, `RenderedText` | `core/crates/ployz-build/src/solve.rs` |
| Evidence about build targets | `TargetEvidence` | `core/crates/ployz-build/src` (lib, index, execution) |
| Following log sources | `RuntimeLogs`, `LogsExactlyOnce`, `LogsFollowed`, `LogFollower` | `core/crates/ployz-sdk/runtime-logs.js` |
| Change log and incremental cache | `ChangeLog`, `ChangeCache` | `dashboard/src/modules/organization`, `dashboard/src/collections` |
| Post-commit effects | `Transactions`, `DatabaseService` | `dashboard/src/server` |
| Subnet enrollment | `Enrollment`, `EnrollmentStore` | `core/crates/ployz-core/src/enrollment.rs`, `core/crates/ployz/src/enrollment/local.rs` |
| gRPC framing | `Framing` | `core/crates/ployz-core/src/framing.rs` |

Pure code is modelled by datatypes and functions. Code that mutates state is modelled by classes and by methods
with loops, each proved against a function of its inputs or of the old state; the theorems are about those
functions. Protocols are transition systems; a run is any finite sequence of enabled steps.

## What was found not to hold

Each of these is proved by a concrete run or input, and beside it stands the exact condition under which the
property does hold.

- *The marker protects all possibly alive work* holds of exactly the hosts that have a garbage-collection target
  configured and on which `clear_cache` never meets a failing marker write (`SlotLimits.MarkerProtectsIff`). Without a
  target, `collect_cache` treats a lost `docker info` command as "size unknown", and `finish` then clears the marker.
  When `acquire` in `clear_slot_cache` cannot write the marker, dropping the builder still runs a removal command.
- *Staging outlives the work that reads it* holds of exactly the hosts with a target configured, a marker write that
  never fails, and no Railpack recipes in received builds (`SlotLimits.StagingProtectsIff`). A removal command lost while
  a builder is dropped is reported nowhere, and then the root goes: it stays in all runs exactly on the hosts with a
  target and no failing marker write, whatever is built (`SlotLimits.RootProtectsIff`). But what `railpack::prepare`
  generates inside it goes with `Preparation`, which does not look at the result: a received Railpack build that loses a
  command keeps its root and its marker and still removes these inputs under the command (`SlotLimits.PreparedLeak`). On
  hosts that keep the root this is the only way (`SlotSafety.StagingOutlivesWork`).
- *Accepted links stay inside `source`* holds exactly when `source` itself is not a link
  (`LinkWalk.ContainedIffSourceIsNoLink`); an upload of just the link `source -> .` is
  accepted and finished (`UploadReceiver.SourceLinkFinishes`).
- *Listed paths are closed under parents* holds of a failed receiver exactly when the rejected entry's parent is a
  directory (`UploadReceiver.RejectionLeavesOrphanIff`).
- *Byte totals are what the accepted headers declared* fails by exactly the size of a file that passed every check and
  then could not be created, which is counted before it is opened (`UploadReceiver.TotalsAreDeclared`); so it holds
  exactly when there is no such nonempty file (`UploadReceiver.TotalsAgreeIff`).
- *A left marker is reported as unknown* does not hold: a failed truncation leaves the marker and is a known error. What
  is unknown is exactly what was not tried to be cleared (`BuildErrors.FinishKeeps`), and the marker stays exactly if the
  outcome is unknown or the truncation failed (`BuilderObject.Builder.Finish`).
- *Splitting a feed is invisible* holds exactly when the first part leaves no oversized unterminated tail
  (`ProgressLines.SplitFeedIff`).
- *A reopened log continues where it stopped* holds exactly when the first record did not begin strictly inside the
  timestamp group of the last one (`LogsExactlyOnce.ReopenIsExactIff`); a run from nothing emits a row twice
  (`LogsExactlyOnce.UnalignedRepeats`).
- *Saved assignments of one scope share nothing* holds of all scopes exactly when no save of the run merged histories
  that clash (`EnrollmentStore.StoresSoundIff`): an observation that meets several scopes merges them, and saved
  entries are not compared with each other. Two Clusters with one pool, observed separately and then together, end in
  one scope that gave a subnet away twice (`EnrollmentStore.MergingClashes`).
- *Evidence is proven targets, one in doubt, then unattempted ones* holds for every output kind except filling the cache
  (`TargetEvidence.AlwaysShapedIff`).

## Hypotheses

- Slots: `flock` is exclusive and released with its last handle or on a crash. The operator clears a marker only when
  nobody holds the slot and nothing runs on it. Work is the Docker commands started after quarantine and the worker and
  helper containers; the `docker context show` that `clear_slot_cache` runs before quarantine is not work. A confirmed
  removal means the builder's containers are gone. A command seen to exit has left no process behind: plugins that
  survive a killed Docker command are not modelled. Commands and helpers read the inputs prepared for Railpack; the
  worker is sent them by a command.
- Logs: append-only, nondecreasing and nonnegative timestamps; a reader opened at a second starts at the first row at or
  after it; every row belongs to the source it is read from. `ExactlyOnce`, `IdsAreDistinct` and the object's `OnRow` assume that the first record
  ever emitted starts a timestamp group.
- Change log: the key the trigger logs is the key of the collection's row; a statement's rows are those of its
  transition tables.
- Step streams: text results assume that a stream's data is well-formed as a whole and that no log follows its
  step's completion.

## Model

| member | source | states |
|---|---|---|
| SlotProtocol.ChangeKeepsOwnership | core/crates/ployz-build/src/builder.rs:419-456 | every step of an attempt is taken with a lock handle in hand, and keeps handles, lock and staging consistent |
| SlotProtocol.StepKeepsLocks | core/crates/ployz-build/src/builder.rs:419-479 | every step of the system, crashes included, keeps: a handle means the lock is held by that attempt, and a held lock means a handle |
| SlotProtocol.RunKeepsLocks | core/crates/ployz-build/src/builder.rs:419-479 | the same over whole runs of any number of attempts and slots |
| SlotProtocol.OneOwner | core/crates/ployz-build/src/builder.rs:346-355 | in every reachable state, on every host, two attempts with handles on one slot are the same attempt |
| SlotProtocol.StagingChangesUnderLock | core/crates/ployz-build/src/upload.rs:61-95 | staging, and what is prepared in it, is created or removed only by the attempt that holds the slot's lock, the tail after `finish` gave up its handle included |
| SlotSafety.NothingAlive | core/crates/ployz-build/src/builder.rs:201-213 | wherever an attempt may clear the marker, read it as clear, or sweep staging, no work is alive on the slot |
| SlotSafety.ChangeKeepsAccount | core/crates/ployz-build/src/lib.rs:910-1022 | all work alive on the slot stays tracked by the attempt or reported as unknown |
| SlotSafety.StepKeepsWork | core/crates/ployz-build/src/builder.rs:35-55 | every step keeps: alive work implies the marker, and the holder accounts for all of it |
| SlotSafety.AliveIsMarked | core/crates/ployz-build/src/builder.rs:47-49 | in every reachable state work that may be alive implies the slot's marker |
| SlotSafety.AdmittedAlone | core/crates/ployz-build/src/builder.rs:346-355 | an admission is granted only to the lock holder and only when nothing is alive on the slot |
| SlotSafety.MarkerClearedWhenDone | core/crates/ployz-build/src/builder.rs:388-417 | a marker disappears only when nothing is alive: by the operator or by a holder with a known result, never by restart cleanup or an unknown outcome |
| SlotSafety.StagingOutlivesWork | core/crates/ployz-build/src/upload.rs:356-379 | where a target is configured and marking never fails: the staging root is removed only when no work is alive, and inputs prepared in it are removed under something that could read them only by dropping the preparation of a received Railpack build whose result is unknown |
| SlotLimits.MarkerProtectsIff | core/crates/ployz-build/src/policy.rs:138-160 | the marker protects all work in all runs if and only if a garbage-collection target is configured and clearing the cache never meets a failing marker write |
| SlotLimits.StagingProtectsIff | core/crates/ployz-build/src/railpack.rs:43-47 | in all runs nothing in staging, root or prepared inputs, is removed under work that could read it if and only if a target is configured, the marker write never fails and received builds carry no Railpack recipes |
| SlotLimits.RootProtectsIff | core/crates/ployz-build/src/builder.rs:243-253 | the staging root outlives work in all runs if and only if a target is configured and the marker write never fails |
| SlotLimits.PreparedLeak | core/crates/ployz-build/src/railpack.rs:43-47 | on every host that receives Railpack builds a concrete run loses a command, keeps the marker and the root, and removes the prepared inputs under that command |
| SlotLimits.UnmarkedWork | core/crates/ployz-build/src/policy.rs:202-212 | on every host that fails the condition of `MarkerProtectsIff` a concrete run leaves a command alive on an unmarked slot |
| SlotLimits.StagedLeak | core/crates/ployz-build/src/builder.rs:243-253 | on every host that fails the condition of `RootProtectsIff` a concrete run removes the staging root under a live command |
| SlotQuarantine.QuarantineIsExact | core/crates/ployz-build/src/lib.rs:375-393 | on every host, once a slot has neither marker nor staging and as long as no attempt on it crashes over them, loses work or meets a failing marker write or truncation: a free slot has neither again, and whoever reads its marker next is admitted, however many attempts failed on it |
| SlotQuarantine.AlwaysAWayOut | core/crates/ployz-build/src/builder.rs:201-253 | wherever an attempt stands, steps of its own lead it to give up every handle on the slot's lock |
| SlotQuarantine.CrashFreesSlot | core/crates/ployz-build/src/builder.rs:419-456 | after a crash the slot can be taken at once, with marker, staging and work as they were |
| SlotQuarantine.RestartSweepsUnmarked | core/crates/ployz-build/src/builder.rs:388-417 | restart cleanup of a free slot removes abandoned staging and nothing else, and of a marked slot changes nothing |
| BuildErrors.LaterFailureKeeps | core/crates/ployz-build/src/lib.rs:247-253 | a later failure never changes the first one's stage, and the result is unknown exactly if either is |
| BuildErrors.AllFailuresKeep | core/crates/ployz-build/src/lib.rs:247-253 | the same for any number of later failures |
| BuildErrors.RemoveContainer | core/crates/ployz-build/src/lib.rs:881-895 | a removal is confirmed exactly if the command succeeded or Docker said the container is absent; anything else is unknown, at cleanup |
| BuildErrors.ContainerIsConfirmed | core/crates/ployz-build/src/lib.rs:859-879 | a helper's end is known exactly when both removals were confirmed and nothing inside was left unknown; the first failure keeps its stage |
| BuildErrors.FinishKeeps | core/crates/ployz-build/src/builder.rs:201-240 | `finish` reports unknown exactly when it does not try to clear the marker, keeps the first failure's stage, returns a value only when all was confirmed, and passes a known failure on as it is; a failed attempt to clear is a known error, at cleanup if nothing failed before |
| BuildErrors.FailedClearIsKnown | core/crates/ployz-build/src/builder.rs:214-220 | a build that went well but whose marker could not be cleared ends in a known error at cleanup |
| BuildErrors.StageTells | core/crates/ployz-build/src/lib.rs:222-231 | the stage of an error nobody gave one says exactly which kind of error it is; cleanup means unknown termination |
| BuildErrors.WaitControlled | core/crates/ployz-build/src/lib.rs:1035-1068 | the status of the first round that stops the loop if the child had exited there; else that round's cause exactly when the first news after the kill is an exit, and unknown in every other case |
| BuildErrors.WaitedForExit | core/crates/ployz-build/src/lib.rs:1035-1068 | success or a known error only if one of the polls given saw the child exit; a known error is cancellation or expiry |
| SlotRefinement.FinishIsSteps | core/crates/ployz-build/src/builder.rs:201-240 | `finish` and the protocol's removal and settling steps leave the same marker, and the attempt ends unknown exactly when `finish` returns an unknown outcome |
| BuilderObject.LockFile.Clear | core/crates/ployz-build/src/builder.rs:458-461 | a failed truncation leaves the marker, a failed sync does not |
| BuilderObject.LockFile.Quarantine | core/crates/ployz-build/src/builder.rs:464-471 | success means marked, and a marker once written stays |
| BuilderObject.Builder.Finish | core/crates/ployz-build/src/builder.rs:201-240 | the handle is given up in every case and the marker stays exactly if the outcome is unknown or truncation failed |
| BuilderObject.TryAcquireWithin | core/crates/ployz-build/src/execution.rs:222-238 | the first slot that is neither busy nor quarantined decides; else the first quarantined one is reported, and busy only when none is |
| PathSyntax.ComponentsOfJoin | core/crates/ployz-build/src/upload.rs:391-404 | splitting a joined path of proper names gives back exactly those names |
| PathSyntax.PrintedIsRead | core/crates/ployz-build/src/upload.rs:391-424 | any ways up and names, printed with slashes, empty pieces and `.` in between, are read back in order; a leading slash gives the root in front, a leading `.` the current directory, nothing else anything |
| PathSyntax.EveryTextIsPrinted | core/crates/ployz-build/src/upload.rs:391-424 | every byte string is such a print, so the law says what is read of every path |
| PathSyntax.NamesAreListable | core/crates/ployz-build/src/upload.rs:391-404 | every name read is one a directory can list, made of bytes of the text |
| LinkWalk.ValidateLink | core/crates/ployz-build/src/upload.rs:408-441 | the deque loop ends on every link map, cyclic ones included, and accepts exactly the links whose walk stays inside within 40 hops |
| LinkWalk.ValidatedIffEndsInside | core/crates/ployz-build/src/upload.rs:408-441 | a link is accepted if and only if POSIX resolution of it ends inside `source` within 40 links, never leaving it on the way |
| LinkWalk.LeavingIsRefused | core/crates/ployz-build/src/upload.rs:408-427 | a link in a real directory whose target starts at the root, or goes up as often as the directory lies deep, is refused |
| LinkWalk.WalkEndsCanonical | core/crates/ployz-build/src/upload.rs:408-441 | where an accepted walk ends no prefix is a link |
| LinkWalk.ResolutionEnds | core/crates/ployz-build/src/upload.rs:408-441 | with all links accepted, resolution of any path ends inside, after a bounded number of links per component |
| LinkWalk.ResolutionIsContained | core/crates/ployz-build/src/upload.rs:408-441 | with all links accepted and `source` no link, every step of resolving any path from `source` stays inside and resolution ends at a canonical place |
| LinkWalk.ContainedIffSourceIsNoLink | core/crates/ployz-build/src/upload.rs:406-441 | accepted links contain resolution if and only if `source` is not a link; otherwise `source` resolves to the staging root |
| LinkWalk.SourceLinkToHereIsAccepted | core/crates/ployz-build/src/upload.rs:408-441 | the link `source -> .` is accepted |
| UploadReceiver.ClosedStaysClosed | core/crates/ployz-build/src/upload.rs:173-182 | a failed or finished receiver refuses everything and never changes |
| UploadReceiver.AcceptKeepsValid | core/crates/ployz-build/src/upload.rs:184-301 | every frame keeps: limits, unique parent-closed paths, links only under `source`, sizes accounted for |
| UploadReceiver.ReachableIsValid | core/crates/ployz-build/src/upload.rs:173-301 | the invariant holds after any frames, with storage failing anywhere |
| UploadReceiver.TotalsAreDeclared | core/crates/ployz-build/src/upload.rs:249-268 | after any frames, failed receivers included, each total is what the accepted headers declared plus the size of the file whose creation closed the upload, if one did |
| UploadReceiver.TotalsAgreeIff | core/crates/ployz-build/src/upload.rs:249-268 | totals equal what was accepted if and only if no nonempty file passed every check and then could not be created |
| UploadReceiver.UncreatedIsCounted | core/crates/ployz-build/src/upload.rs:255-264 | a file of ten bytes that cannot be created is counted although it was rejected |
| UploadReceiver.FinishedUpload | core/crates/ployz-build/src/upload.rs:184-301 | a finished upload is within limits, holds only proper paths in `source`, `private` and the recipe file, with permission bits only and private modes outside `source`, has exactly its listed paths, every file has its declared bytes, and all resolution stays inside when `source` is a directory |
| UploadReceiver.LeavingLinkIsRejected | core/crates/ployz-build/src/upload.rs:287-297 | whatever arrived before, an upload with a link whose target text is absolute or begins with as many `..` as the link lies deep cannot be finished |
| UploadReceiver.AcceptedIsBounded | core/crates/ployz-build/src/upload.rs:184-286 | an accepted frame is a chunk of 1 to 32768 bytes that the open file still lacks, an entry with a path and target of at most 4096 bytes without NUL and permission bits only, or a finish; entries and finish only between files |
| UploadReceiver.HeadersAreCounted | core/crates/ployz-build/src/upload.rs:205-217 | unless it failed, a receiver has counted exactly the path and target bytes of the entries it accepted |
| UploadReceiver.SourceLinkFinishes | core/crates/ployz-build/src/upload.rs:287-296 | an upload that is just the link `source -> .` is received and finished, and resolving `source` leaves it |
| UploadReceiver.RejectedState | core/crates/ployz-build/src/upload.rs:184-301 | a rejected frame leaves exactly the bytes, the one file or the links its failed write had already made, and lists at most its own path |
| UploadReceiver.RejectionLeavesOrphanIff | core/crates/ployz-build/src/upload.rs:229-236 | after a rejection the listed paths are parent-closed if and only if a listed path's parent is a directory |
| UploadReceiver.OrphanExample | core/crates/ployz-build/src/upload.rs:229-236 | a first entry `source/a` is listed and then rejected for want of its parent |
| UploadReceiver.ReceivedJoin | core/crates/ployz-build/src/upload.rs:391-404 | a sendable path is received as itself |
| UploadObject.Upload.Accept | core/crates/ployz-build/src/upload.rs:173-182 | the object follows the receiver function, fails for good on the first rejection, and keeps the receiver's invariant |
| UploadObject.Upload.AcceptNext | core/crates/ployz-build/src/upload.rs:184-301 | the same for one frame before the state change |
| UploadObject.Upload.AcceptData | core/crates/ployz-build/src/upload.rs:185-196 | data is appended to the current file, never past its declared size |
| UploadObject.Upload.AcceptEntry | core/crates/ployz-build/src/upload.rs:206-236 | an entry is checked, listed and handed on as the function says |
| UploadObject.Upload.AcceptKind | core/crates/ployz-build/src/upload.rs:237-285 | directories, files and links are created as the function says |
| UploadObject.Upload.ValidateLinks | core/crates/ployz-build/src/upload.rs:288-290 | the loop accepts exactly if every link is acceptable |
| UploadObject.Upload.CreateLinks | core/crates/ployz-build/src/upload.rs:291-293 | the loop creates exactly the given links and nothing else |
| UploadObject.Upload.AcceptFinish | core/crates/ployz-build/src/upload.rs:287-296 | finishing validates all links before creating any, and keeps those created before one fails |
| UploadObject.Upload.Complete | core/crates/ployz-build/src/upload.rs:306-311 | an upload whose invariant holds, as `Accept` keeps it, and that completes is fit to execute (`complete` succeeds exactly on finished uploads): within limits, exactly its listed paths, all declared bytes, contained links |
| UploadRoundTrip.Visit | core/crates/ployz-build/src/upload.rs:455-501 | the recursive sender emits the frames of exactly the subtree, parents first |
| UploadRoundTrip.VisitChildren | core/crates/ployz-build/src/upload.rs:484-488 | siblings are sent one after another in their order |
| UploadRoundTrip.SendData | core/crates/ployz-build/src/upload.rs:489-499 | a file's chunks are sent in order as data frames |
| UploadRoundTrip.Upload | core/crates/ployz-build/src/upload.rs:451-507 | the whole capture is sent and finished |
| UploadRoundTrip.ItemsAreAccepted | core/crates/ployz-build/src/upload.rs:184-301 | any placeable items within limits are all accepted |
| UploadRoundTrip.TreeIsPlaceable | core/crates/ployz-build/src/upload.rs:455-501 | the items of any well-formed tree are placeable, whatever the order of siblings |
| UploadRoundTrip.RestoreModes | core/crates/ployz-build/src/upload.rs:329-332 | the loop from the last directory to the first restores every recorded mode |
| UploadRoundTrip.RestoredAt | core/crates/ployz-build/src/upload.rs:329-332 | afterwards each recorded directory has its own mode |
| UploadRoundTrip.AncestorsStillPrivate | core/crates/ployz-build/src/upload.rs:329-332 | when a directory's mode is restored, all directories above it are still traversable |
| UploadTheorem.CaptureIsAccepted | core/crates/ployz-build/src/upload.rs:451-507 | every frame of an in-limit capture with acceptable links is accepted, up to finishing |
| UploadTheorem.LookupIffItem | core/crates/ployz-build/src/upload.rs:451-507 | the sent items are exactly the nodes of the captured trees |
| UploadTheorem.RoundTrip | core/crates/ployz-build/src/upload.rs:184-301 | sending any in-limit capture rebuilds exactly its paths, contents, link targets and source modes, private modes being forced |
| Utf8Text.WellFormedIffText | core/crates/ployz-build/src/solve.rs:164-170 | the byte strings taken as well-formed are exactly the encodings of Unicode text |
| Utf8.BoundaryOfPrefix | core/crates/ployz-build/src/solve.rs:164-170 | cutting any prefix of well-formed text at the boundary gives well-formed text, leaves at most three bytes, and what is left continues well-formed |
| Utf8.CutAfterNewline | core/crates/ployz-build/src/solve.rs:130-133 | well-formed text may be cut after any newline |
| ProgressLines.FeedConserves | core/crates/ployz-build/src/solve.rs:67-76 | lines and overflows passed on, followed by what is pending, are exactly the bytes fed |
| ProgressLines.SplitFeedIff | core/crates/ployz-build/src/solve.rs:67-76 | feeding in one piece or two differs if and only if the first leaves an oversized tail and the second is not empty |
| ProgressLines.ChunkingIsInvisible | core/crates/ployz-build/src/solve.rs:67-76 | without oversized tails the lines depend only on the bytes |
| ProgressLines.TailHasNoNewline | core/crates/ployz-build/src/solve.rs:69-72 | what is pending after a feed has no newline |
| StepStreams.RunConserves | core/crates/ployz-build/src/solve.rs:119-157 | for every stream, output passed on plus output held is the data logged, at every moment |
| StepStreams.FinishEmitsTheRest | core/crates/ployz-build/src/solve.rs:78-85 | after `finish` all of it has been passed on, in whatever order the streams come |
| StepStreams.RunHoldsShort | core/crates/ployz-build/src/solve.rs:130-148 | held output has no newline and is at most 64 KiB or the last record's length |
| StepStreams.RunKeepsText | core/crates/ployz-build/src/solve.rs:119-170 | if a stream's data is well-formed as a whole, every chunk passed on is, however records and overflows cut it |
| StepStreams.FinishKeepsText | core/crates/ployz-build/src/solve.rs:78-85 | the same for the chunks of `finish` |
| StepOrder.CompletionFollowsOpening | core/crates/ployz-build/src/solve.rs:92-118 | in every run a completion that carries a start comes after an open event of that step |
| StepOrder.StatusOutputsFirst | core/crates/ployz-build/src/solve.rs:119-160 | within a status all output of a step comes before its completion |
| StepOrder.RunCounts | core/crates/ployz-build/src/solve.rs:105-117 | a step is opened once per running report, plus once if its first start came with its completion; repeated completions add nothing |
| StepOrder.RunOpens | core/crates/ployz-build/src/solve.rs:104-117 | the steps remembered as started are exactly those with an open event |
| StepReports.RunReports | core/crates/ployz-build/src/solve.rs:87-160 | in every run the completions passed on are exactly the reports with a completion, unchanged and in order; of running steps exactly the reports, and for a step first started by its completion how it was while running; and unparsed or overlong lines byte for byte |
| StepReports.FinishReports | core/crates/ployz-build/src/solve.rs:78-85 | at the end the pending bytes are passed on as they are and no step is reported |
| StepReports.StdoutComesFirst | core/crates/ployz-build/src/solve.rs:148-159 | a completed step's held standard output comes before its held standard error |
| ProgressParser.Parser.Feed | core/crates/ployz-build/src/solve.rs:67-76 | the drain loop emits exactly the events of the lines cut from pending and new bytes, and keeps the rest |
| ProgressParser.Parser.EmitLine | core/crates/ployz-build/src/solve.rs:87-160 | a line is passed on or becomes the events of its status |
| ProgressParser.Parser.Open | core/crates/ployz-build/src/solve.rs:92-118 | the loop over reports opens steps and sets completions aside |
| ProgressParser.Parser.Ingest | core/crates/ployz-build/src/solve.rs:119-149 | the loop over logs releases whole lines and holds the rest |
| ProgressParser.Parser.Complete | core/crates/ployz-build/src/solve.rs:150-160 | each completion flushes its two streams and then is reported |
| ProgressParser.Parser.Finish | core/crates/ployz-build/src/solve.rs:78-85 | everything held is passed on once, in some order, and nothing is left |
| ProgressParser.SameBytesSameEvents | core/crates/ployz-build/src/solve.rs:67-76 | the same bytes give the same events and state however they are chunked, without oversized tails |
| ProgressParser.Parser.FeedAll | core/crates/ployz-build/src/solve.rs:67-76 | successive feeds of one parser emit the events of all units they cut, and keep what the last leaves |
| ProgressParser.FeedBoth | core/crates/ployz-build/src/solve.rs:67-76 | two fresh parsers fed the same bytes in different chunks emit the same events, those of the lines of the bytes |
| PlainRenderer.RunKeepsNumbers | core/crates/ployz-build/src/solve.rs:204-216 | steps keep their numbers and new steps get new ones, over whole runs |
| PlainRenderer.EveryNumberIsUsed | core/crates/ployz-build/src/solve.rs:204-216 | n steps use exactly the numbers 1 to n |
| PlainRenderer.RunPrints | core/crates/ployz-build/src/solve.rs:217-237 | each started step gets exactly one header and one closing line per change of completion, under its number |
| PlainRenderer.RepeatedCompletion | core/crates/ployz-build/src/solve.rs:221-235 | a completion repeated with the same time is printed at most once |
| PlainRenderer.OutputNumber | core/crates/ployz-build/src/solve.rs:238-246 | output carries its step's own number, and 0 exactly when the step is unknown |
| PlainRenderer.HeaderComesFirst | core/crates/ployz-build/src/solve.rs:197-247 | fed by the parser, a header line with the step's number is among the lines printed before any event that closes the step with a duration |
| PlainRenderer.Renderer.Print | core/crates/ployz-build/src/solve.rs:197-247 | the table updated in place follows the rendering function |
| RenderedText.RenderedAsReported | core/crates/ployz-build/src/solve.rs:197-247 | all lines printed, with number and text, are told from the events alone: a name with a step's first start, an error, else a cache hit, else a duration with each completion that is not the one reported last, output under the number of its step, anything else as it is |
| TargetEvidence.EvidenceIsShaped | core/crates/ployz-build/src/lib.rs:412-494 | at every event of a run that produces output, evidence is proven targets, at most one in doubt, then unattempted ones |
| TargetEvidence.AlwaysShapedIff | core/crates/ployz-build/src/lib.rs:460-482 | that shape holds of all runs of an output kind if and only if it is not filling the cache |
| TargetEvidence.CacheLeavesDoubt | core/crates/ployz-build/src/lib.rs:481-482 | two targets finished for the cache are both left in doubt |
| TargetEvidence.EvidenceInTheEnd | core/crates/ployz-build/src/lib.rs:423-487 | in the end a target whose predecessors all went on has its own verdict: the image seen, else published or validated if its run ended well, else unknown exactly if a run started; every other target is unattempted |
| TargetEvidence.NothingBehindAStop | core/crates/ployz-build/src/lib.rs:445-487 | behind a run that failed or never started, a wanted image not seen, or a helper not known to be gone, nothing is attempted |
| TargetEvidence.BuildAll | core/crates/ployz-build/src/lib.rs:412-502 | a successful local build returns one image per target in request order, each the one its evidence names; other output returns none |
| TargetEvidence.BuildInOrder | core/crates/ployz-build/src/lib.rs:423-487 | the loop stops at the first target that does not go on, and pushes each finished target's image in building order |
| TargetEvidence.ZipHolds | core/crates/ployz-build/src/lib.rs:488-494 | pairing names and images by position gives every target the image made for it |
| TargetEvidence.Collect | core/crates/ployz-build/src/lib.rs:488-494 | the loop builds exactly that pairing |
| TargetEvidence.Observe | core/crates/ployz-build/src/execution.rs:74-91 | the evidence table always holds the latest event of each target |
| TargetEvidence.Plan | core/crates/ployz-build/src/lib.rs:517-534 | a request is planned exactly if all build names differ, and then all names differ |
| LogsExactlyOnce.AcceptedIsNext | core/crates/ployz-sdk/runtime-logs.js:102-106 | a reader accepts a row exactly when it is the next record of the log |
| LogsExactlyOnce.StepIsGood | core/crates/ployz-sdk/runtime-logs.js:57-111 | every event of a source keeps its records exact, its counts right and its reader placed |
| LogsExactlyOnce.ExactlyOnce | core/crates/ployz-sdk/runtime-logs.js:57-111 | in every run, for every source, the records are a contiguous in-order part of its log with the place in their timestamp group as ordinal, and opens are at most records plus twice the watch events |
| LogsExactlyOnce.IdsAreDistinct | core/crates/ployz-sdk/runtime-logs.js:13-21 | no two records of a source have the same id |
| LogsExactlyOnce.FailedIsFinal | core/crates/ployz-sdk/runtime-logs.js:73-91 | a source closed by a failure is never opened again and emits nothing more, in every run |
| LogsExactlyOnce.ReopenIsExactIff | core/crates/ployz-sdk/runtime-logs.js:43-52 | a reopened reader continues with the next record if and only if the first record was not strictly inside the last one's group |
| LogsExactlyOnce.UnalignedRepeats | core/crates/ployz-sdk/runtime-logs.js:43-52 | otherwise a run from nothing repeats rows: three rows of one time, of which only the last is wanted, and one handoff |
| LogsFollowed.AlwaysFollowed | core/crates/ployz-sdk/runtime-logs.js:57-96 | in every run a source that was mentioned has been opened, and it is without a reader only if it failed, is not running, is not followed, or gave nothing since its handoff |
| LogsFollowed.MentionedRestsIff | core/crates/ployz-sdk/runtime-logs.js:64-77 | a mention leaves a source without a reader exactly if it had none and failed, or is not running and already gave a record or spent its handoff in this very state; a new source is always opened |
| LogsFollowed.FailedIsNotReopened | core/crates/ployz-sdk/runtime-logs.js:73-102 | a source that failed, by an error row too, is never opened again |
| LogsFollowed.EmittingReaderIsReopened | core/crates/ployz-sdk/runtime-logs.js:84-111 | a running source whose reader gave a record before it ended is opened again at once |
| LogsFollowed.ResumesAtItsSecond | core/crates/ployz-sdk/runtime-logs.js:43-52 | a reopened reader starts behind exactly the rows of seconds before that of the last record |
| LogFollower.Follower.OpenAgain | core/crates/ployz-sdk/runtime-logs.js:43-52 | opening remembers the last record and how many of its time were counted |
| LogFollower.Follower.OnContainer | core/crates/ployz-sdk/runtime-logs.js:63-78 | one container of a watch event is discovered, updated or reopened by the stated rules |
| LogFollower.Follower.OnWatch | core/crates/ployz-sdk/runtime-logs.js:60-80 | a watch event is the turns of its matching containers in order, and the table stays in step with the run |
| LogFollower.WatchRepresents | core/crates/ployz-sdk/runtime-logs.js:60-80 | for any table that shows a run, handling a watch event shows the run continued by its turns |
| LogFollower.OthersAreLeft | core/crates/ployz-sdk/runtime-logs.js:63-78 | a watch event leaves sources it does not mention alone |
| LogFollower.Follower.OnOpened | core/crates/ployz-sdk/runtime-logs.js:82-84 | an opened reader starts reading where it starts, as the run's next turn |
| LogFollower.Follower.OnEnd | core/crates/ployz-sdk/runtime-logs.js:85-91 | an ended reader is the run's next turn; it is reopened only if its handoff was unspent, and then it is spent |
| LogFollower.Follower.OnFailure | core/crates/ployz-sdk/runtime-logs.js:85-95 | a failure is the run's next turn and leaves the source closed, which by `FailedIsFinal` it stays |
| LogFollower.Follower.OnErrorRow | core/crates/ployz-sdk/runtime-logs.js:98-101 | an error row is the run's next turn: the source is failed but its reader goes on |
| LogFollower.Follower.OnRow | core/crates/ployz-sdk/runtime-logs.js:96-109 | a row is passed on exactly if it is the next record of its log, with its place among the rows of its time as ordinal; the run's records grow by just that entry |
| LogFollower.Follower.DrivenIsExact | core/crates/ployz-sdk/runtime-logs.js:57-111 | however the object is driven by its handlers, the records of every source are a contiguous in-order part of its log and its opens are bounded |
| LogFollower.Follower.DrivenIsFollowed | core/crates/ployz-sdk/runtime-logs.js:57-111 | however the object was driven, no source it was told of is forgotten |
| ChangeLog.WriteKeepsLogged | dashboard/drizzle/20260930055138_baseline/migration.sql:381-410 | every write of an open transaction is told by its log, as deleted if it is gone |
| ChangeLog.CommitKeepsValid | dashboard/drizzle/20260930055138_baseline/migration.sql:381-410 | a commit keeps: the last change of each key is in the log unless retention took its transaction |
| ChangeLog.PruneFences | dashboard/src/modules/organization/change-log.server.ts:80-95 | retention takes whole transactions, all older than everything left or still to come, and never empties the log |
| ChangeLog.WindowTells | dashboard/src/modules/organization/change-log.server.ts:34-69 | a delta names every key changed between cursor and horizon, and as deleted if it is gone |
| ChangeLog.WindowOfOneWrite | dashboard/src/modules/organization/change-log.server.ts:34-69 | an up-to-date reader of a quiet server is told of one transaction exactly the keys its statement changed and removed, up to a hundred together, and of more to read everything; other tables never show |
| ChangeLog.PruneTakes | dashboard/src/modules/organization/change-log.server.ts:86-95 | retention takes exactly what is at or below the fence, below the horizon, and not of the newest transaction |
| ChangeLog.HorizonGrows | dashboard/src/modules/organization/change-log.server.ts:8-9 | the horizon never moves back |
| ChangeCache.MergeAgrees | dashboard/src/collections/query-collection.ts:71-80 | merging a window and rows read later agrees with the server on every key the new cursor covers |
| ChangeCache.StepKeepsGood | dashboard/src/collections/read.server.ts:72-81 | every server step and read step, in any interleaving, keeps cache and reads in flight right below their cursors |
| ChangeCache.CacheAgrees | dashboard/src/collections/query-collection.ts:71-80 | after any run, the client's row of every key last changed before the cursor is the server's, absence included |
| ChangeCache.QuietReadIsFull | dashboard/src/collections/read.contract.ts:31-34 | with no transaction open, finishing any read whose window was taken since makes the cache equal a full read, whatever other reads are in flight |
| ChangeCache.StaysQuiet | dashboard/src/collections/query-collection.ts:71-80 | no other read or step that leaves the server alone takes that from a read in flight |
| ChangeCache.WholeQuietRead | dashboard/src/collections/query-collection.ts:71-80 | in particular one read from start to end on a quiet server |
| ChangeCache.MergeRead | dashboard/src/collections/query-collection.ts:75-79 | the two loops compute exactly the merge: deletes first, then the rows read |
| Transactions.ExecYields | dashboard/src/server/database.server.ts:77-107 | what a nested program leaves pending is exactly what its trace says should survive |
| Transactions.CommittedEffectsRun | dashboard/src/server/database.server.ts:91-105 | effects run after an outermost transaction are exactly those registered in scopes that all committed, behind its commit; after a rollback none |
| Transactions.EffectsRunInOrder | dashboard/src/server/database.server.ts:98-103 | effects run once each in registration order up to the first failure |
| Transactions.NestedRunsNothing | dashboard/src/server/database.server.ts:80-90 | inside a transaction nothing deferred runs |
| Transactions.EffectsStartOutside | dashboard/src/server/database.server.ts:77-107 | in every program, effects of effects included, no deferred work starts while a transaction is open |
| Transactions.RetriedAttemptLeavesNothing | dashboard/src/server/mutation-result.server.ts:18-31 | a retried attempt did not commit, left nothing pending and ran no effect |
| Transactions.CommittedIsNotRetried | dashboard/src/server/mutation-result.server.ts:6-31 | a mutation whose first attempt commits is that attempt: outcome, trace and pending effects do not depend on what a second would have been |
| Transactions.PostCommitIsReported | dashboard/src/server/mutation-result.server.ts:6-31 | behind a commit exactly the surviving effects run, and the failure of one is reported as a post-commit failure, whatever its error, without a retry |
| Transactions.RetriedIff | dashboard/src/server/mutation-result.server.ts:18-31 | a mutation is retried exactly when its first attempt ends in a serialization failure; then outcome and pending effects are those of the second attempt run alone |
| DatabaseService.Execute | dashboard/src/server/database.server.ts:80-90 | the service with its pushed arrays does what the reference says, for every program |
| DatabaseService.RunTransaction | dashboard/src/server/database.server.ts:91-105 | a transaction collects in its own array and passes it on or runs it |
| DatabaseService.RunAll | dashboard/src/server/database.server.ts:98-103 | the loop over effects stops at the first failure |
| Enrollment.AllocateSubnet | core/crates/ployz-core/src/enrollment.rs:53-64 | the search returns the picked subnet or the error |
| Enrollment.PickIsLowestFree | core/crates/ployz-core/src/enrollment.rs:53-64 | the pick is free and no free /24 of the pool is lower; failure means none is free |
| Enrollment.FewClaimsLeaveOne | core/crates/ployz-core/src/enrollment.rs:53-64 | with fewer distinct claims than 2^(24-p) a /24 is found |
| Enrollment.ContainsByBlock | core/crates/ployz-core/src/enrollment.rs:121-125 | containment of address ranges is containment of block numbers |
| Enrollment.AllocateEnrollment | core/crates/ployz-core/src/enrollment.rs:72-163 | the checks and the loop over known Machines decide as the allocation function |
| Enrollment.SaveKeepsValid | core/crates/ployz/src/enrollment/local.rs:80-87 | saving against any observation keeps the history sound and only ever extends it |
| Enrollment.HistoriesAreSound | core/crates/ployz-core/src/enrollment.rs:72-163 | from an empty history every entry's subnet lies inside its pool, and any two entries share the network but no id, key or address |
| EnrollmentStore.SaveAssignment | core/crates/ployz/src/enrollment/local.rs:44-110 | the loops over scopes and peers merge, allocate, forget and note as the store function; a failed save changes nothing |
| EnrollmentStore.ClaimsAreKept | core/crates/ployz/src/enrollment/local.rs:67-103 | merging and forgetting lose no assignment: the claims of all scopes after a save are those before plus the new one, if it is new |
| EnrollmentStore.SaveKeepsSeparate | core/crates/ployz/src/enrollment/local.rs:68-103 | no save makes two scopes share a peer, so a Machine's durable identity knows at most one scope |
| EnrollmentStore.SaveSoundIff | core/crates/ployz/src/enrollment/local.rs:67-87 | after a successful save all scopes are sound if and only if they were before and the histories it merged are pairwise apart |
| EnrollmentStore.StoresSoundIff | core/crates/ployz/src/enrollment/local.rs:67-103 | in every store that saves build from nothing scopes share no peer, and all scopes are sound if and only if no successful save of the run merged clashing histories |
| EnrollmentStore.MergingClashes | core/crates/ployz/src/enrollment/local.rs:68-80 | a concrete run of three saves from nothing: two scopes give away one subnet, the save that merges them succeeds, and the scope is unsound |
| EnrollmentStore.SaveTwice | core/crates/ployz/src/enrollment/local.rs:81-103 | repeating a successful save returns the same assignment and leaves the store exactly as it is |
| EnrollmentStore.AliasResumes | core/crates/ployz/src/enrollment/local.rs:37-40 | through any observation of Machines that a sound scope knows, a retry gets the saved assignment exactly when the observation does not contradict it |
| EnrollmentStore.NewcomerIsAnAlias | core/crates/ployz/src/enrollment/local.rs:92-103 | seen through the Machine just enrolled alone, the same request gets the same assignment |
| Enrollment.RetryReturnsSaved | core/crates/ployz-core/src/enrollment.rs:92-104 | a retry with the same identity returns the saved assignment itself exactly when the observation does not contradict it, and never changes the history |
| Enrollment.FreshGetsLowestFree | core/crates/ployz-core/src/enrollment.rs:105-163 | an unknown Machine gets the lowest free /24, and is refused exactly for the stated reasons |
| Enrollment.ObservedKeepsItsSubnet | core/crates/ployz-core/src/enrollment.rs:105-157 | a Machine that is observed but not saved keeps its observed subnet, exactly if that lies in the pool, nobody else has it, no other is asked for, and the request describes that Machine |
| Enrollment.RequestedIsGranted | core/crates/ployz-core/src/enrollment.rs:105-157 | an unknown Machine that asks for a subnet gets it, exactly if it lies in the pool and nobody has it |
| Enrollment.NewIsDescribed | core/crates/ployz-core/src/enrollment.rs:92-94 | a new assignment is of the Machine the request describes, for the observed network, and matches a retry exactly if only subnet wish and runtime changed |
| Framing.FrameLength | core/crates/ployz-core/src/framing.rs:121-144 | the length of the frame at the front, or an error that says what is wrong there: fewer than five bytes, a flag above one, or fewer bytes than declared |
| Framing.BigEndianOrders | core/crates/ployz-core/src/framing.rs:121-144 | lengths compare as their octets do, the first counting most |
| Framing.EncodeGrpcFrame | core/crates/ployz-core/src/framing.rs:101-108 | an encoded payload is one uncompressed frame carrying it |
| Framing.SplitIsUnique | core/crates/ployz-core/src/framing.rs:110-119 | a byte string splits into frames in at most one way |
| Framing.StuckMeansNoSplit | core/crates/ployz-core/src/framing.rs:110-119 | where no frame starts, no split of the whole exists |
| Framing.GrpcFrames | core/crates/ployz-core/src/framing.rs:110-119 | succeeds exactly on concatenations of frames and returns the only split; it fails exactly with the error of the place behind frames only where no frame starts |
| Framing.RequireOneFrame | core/crates/ployz-core/src/framing.rs:146-153 | accepts exactly a single frame |
| Framing.SplitOfFrames | core/crates/ployz-core/src/framing.rs:110-119 | splitting the concatenation of any frames gives those frames |
| Framing.SplitOfEncodings | core/crates/ployz-core/src/framing.rs:101-119 | splitting concatenated encodings gives back those encodings, with every payload in order |
| Framing.SplitMeans | core/crates/ployz-core/src/framing.rs:110-144 | splitting succeeds exactly on concatenations of frames, with the only cutting; it fails exactly with the error of a stuck place |

## Left out

- Docker, Buildx and regctl command lines and their output: the outcome of each command is arbitrary.
- JSON, YAML, base64 and RFC 3339 parsing: arbitrary functions or omitted.
- Replacement characters of `from_utf8_lossy`, number and duration formatting in rendered lines.
- Power loss, unwinding panics, and partial effects of failed file-system calls other than the marker and receiver writes described above.
- Deadlines, sleeps and the queue timeout as time: expiry is an event that may happen at any point.
- A forked child that inherits the lock descriptor before its exec: the lock goes with its last handle.
- The commands of `ImageRetention`, the private working directory of cache clearing, and what Railpack prepares for a local build, in its caller's capture: they are outside the slot's staging.
- Output files that commands write into staging (`docker-output`, `docker-diagnosis`, build metadata, `buildkitd.toml`): later commands overwrite them.
- `umask`, ownership and access checks of the file system.
- Concurrent filtering of rows per user in collection reads, and `writeUpsert`: reads show all rows of the collection.
- The change stream that wakes readers: reads may start at any time.
- The `history` call of the log client, message texts, and cancellation by signal: a stopped run is a prefix of a run.
- Negative log timestamps, for which the truncating division would resume too late.
- The enrollment file itself, its lock and its durable replacement: a save is one step. `has_assignment` only asks whether a met scope holds an id.
- Fan-out envelopes, the RPC catalogue, networking, certificates and the user interface.
- Which commands an attempt starts, and how many: the protocol allows more than the code runs, and every proved property holds of these larger runs too.
- BuildErrors.WaitControlled: requires that the deadline passes in the last round, because a run of the loop ends.
- BuilderObject.Builder.Finish: requires the marker that acquiring the builder has written.
- RenderedText.RenderedAsReported: a line is its number and what it says, because characters and formatted durations are not modelled.
- LogFollower.Follower.OnOpened: its requires, and those of the other handlers, say that the event is one the loop is waiting for, because only such events arrive.
- ChangeCache.MergeRead: the order of the returned rows is not modelled.
- UploadTheorem.RoundTrip: private modes are those the receiver forces, so the sender's private modes are not rebuilt.
