# RewindBPF: a verified model of its transactional core

RewindBPF runs an agent inside a filesystem transaction: it watches the run,
lets an operator review what changed, and then commits the result or rolls it
back. This project models the parts of it that carry state, ordering and
recovery arguments, and proves what those parts promise.

- **Commit** (`Order`, `Tree`, `Paths`, `Diff`, `Acceptance`): manifests, the change
  list between two of them, the conflict check, and the ordered mutation of the
  destination tree. A tree is a map from slash-separated paths to nodes; the file
  system is an object whose every call may fail, and which keeps a ghost history of
  all its states, so that what a crash can leave behind is a statement about history.
- **Checkpoints** (`Checkpoint`): the dependency graph, its stored list, the
  depth-first order and the all-or-nothing rollback.
- **Runs** (`Lifecycle`, `Overlay`, `ProtectedRun`): the state machine of a run,
  unmounting with bounded retries, and the coordinator, which keeps a ghost trace of
  every call it makes; each call may succeed or fail.
- **Proxy shutdown** (`NetProxy`): accepts, handlers and calls of Close as goroutines
  interleaved at every lock, unlock, access to a shared field and wait for a peer, in any
  number; clients and upstreams act when they like, or never.
- **Live events** (`Text`, `EventTail`, `RunTail`, `EventClient`): tailing one growing
  journal, or those of a run that rotates them, by byte position; stopping on a terminal
  record; and the client's parser of `data:` frames (a subset of section 9.2 of the WHATWG
  HTML Living Standard).
- **Evidence** (`Telemetry`, `Journal`, `Glob`, `GlobSyntax`, `SegmentNames`, `RunStore`,
  `Evidence`): the hash chain, the capped and rotated journal, finding its files by a
  pattern, their summary, and the independent check of all of it.
- **Sessions** (`Session`): operator leases in a JSON file and in SQLite, against one
  protocol.
- **Hidden paths** (`NativeHide`): moving sensitive subtrees out of the view and back.
- **Read policy** (`Policy`, `ReadRules`, `Landlock`): globs, their compilation to exact
  rules, and the allowlist for the kernel.

Where the source changes things step by step, the model is a class or a method with
the same loops and branches, proved against a specification function or predicate;
where it is a protocol between goroutines, the model is a state machine over its
steps. Faults, the agent's behaviour, scheduling and the order of Go map iteration
are nondeterministic; every call that can fail is counted or traced when it does, so that a
result that should be a success can be told from a failure. Digests, JSON and, in the read policy, `path.Match` are function
parameters, with the few laws a theorem needs (injectivity, a round trip) stated as its
hypotheses.

## What the proofs found

The code was kept as it is; each of these comes with the exact condition under which
the expected property holds.

- A commit onto an untouched destination yields the candidate tree exactly when no
  directory only changed its mode: `MkdirAll` keeps the mode of a directory that is
  already there (`Acceptance.CommitYieldsCandidate`, `Acceptance.DirectoryModeIsLost`).
- A commit that the check allows keeps every edit of the destination if and only if the
  destination has changed nothing below a directory that the candidate deleted and has
  deleted no directory that the candidate still needs: the check compares path by path
  (`Acceptance.AllowedKeepsEdits`, `Acceptance.AddedFileIsRemoved`,
  `Acceptance.DeletedParentComesBack`).
- Rollback discards the layers when it believes the mount is gone. With honest commands
  (`umount` does not report a live mount as not mounted, `mountpoint` does not fail on one)
  that belief is right in every world if and only if the backend is the kernel, or the
  runner injected, or neither the command line nor the timeout message reads "already
  unmounted", which on FUSE they do for a mount point such as `/run/not mounted/merged`, or
  one that says "invalid argument" with a dotted capital I (`Overlay.SafeExactly`,
  `Overlay.MisleadingNames`, `Overlay.MisleadingWords`). Any failure of `mountpoint -q`, such as
  a cancelled context, counts as unmounted on either backend
  (`Overlay.BrokenProbeMisleads`).
- Only the call of `Close` that set the flag drains the proxy; a second call can return
  while a handler runs (`NetProxy.DrainedForever`, `NetProxy.SecondCloseReturnsEarly`). The
  first one returns if and only if every handler it has cut off from its client hears
  from its upstream again: closing the client's connection does not end an idle tunnel or
  an unanswered request (`NetProxy.CloseReturnsIff`, `NetProxy.IdleTunnelHoldsClose`).
- A follower that stops on a terminal record has sent everything that preceded the record
  exactly when its last read succeeded or nothing to send lay behind the position it had
  reached before (`EventTail.StoppedOnTerminal`, `EventTail.FailedLastLook`).
- A follower of rotated journals keeps each journal's own order always. When it stops on a
  terminal record after a round that could read every listed journal, the lines of these
  journals have come in the order of rotation if and only if no turn had sent lines of one
  while something of an earlier one was left to send, as can happen after a failed read
  (`RunTail.JournalFollower.Follow`, `RunTail.JumpsAreSwaps`, `RunTail.OutOfOrder`).
- With a byte cap a long event can be dropped and a later short one still be written; the
  persisted journal verifies exactly when no record behind the first that does not fit
  would fit in its place (`Journal.CapVerifies`, `Journal.ShortAfterLong`).
- Rotated files are found by a pattern made of their path. They are found in their order
  exactly when there are at most 999,999 and, of all directories that the root matches as
  a pattern, their own is one and holds no other name of that form, and no other holds
  any (`SegmentNames.PatternDecides`, `SegmentNames.StaleIsListed`). Under a root with a
  bracket or a backslash and no star, such as `/tmp/run[1]`, none is ever found, and
  evidence that ends with the first file is reported complete
  (`SegmentNames.BracketLosesAll`, `Evidence.PersistUnderBracket`). Evidence reported
  complete is all there was if and only if the root matches itself or there is nothing
  behind the first file (`Evidence.JudgeRun`).
- The comment in `internal/session/sqlite.go` says it keeps the same lease protocol as the JSON store. It does
  in every answer, owner and expiry, but a heartbeat gives the SQLite lease a new ID and
  creation time, which the JSON store does not do (`Session.Store.Apply`,
  `Session.SQLiteStore.Apply`).
- A `ttl_seconds` of more than a day is refused up to 9,223,372,036. Beyond that the
  product with a second wraps round in 64 bits, and a request passes exactly if what is
  left is at most a day or negative, which then means ten minutes (`Session.AnyTtl`,
  `Session.OverlongTtlPasses`).
- A leading slash changes nothing about a pattern, whatever the path and the segment
  matcher, if and only if the pattern is neither empty nor starts with white space, which
  is trimmed only without the slash (`Policy.LeadingSlash`, `Policy.IndentedPattern`).

- The manifest records a name as it is, and the read policy is compiled for the name
  without the white space at its ends: an entry is ruled on, or allowed, under its own path
  if and only if there is none (`ReadRules.EntryKeepsItsPath`).

## Model

| member | source | states |
|---|---|---|
| Diff.Build | internal/manifest/manifest.go:32-96 | a manifest lists every node of the tree once, in path order, and nothing else |
| Diff.Compare | internal/diff/diff.go:26-57 | the change list names exactly the paths at which two manifests differ, each once, sorted by path |
| Diff.PatchInvertsCompare | internal/diff/diff.go:26-57 | carrying out the change list on the first tree gives the second |
| Diff.CompareIsUnique | internal/diff/diff.go:55-56 | two manifests have one change list, whatever the map iteration order |
| Acceptance.Check | internal/acceptance/check.go:18-33 | the commit is allowed exactly when no path differs from base on both sides; the conflicts are exactly those paths, sorted |
| Acceptance.SortForApply | internal/acceptance/apply.go:31-39 | deletions come last, everything else in path order, nothing is lost |
| Acceptance.WriteIsFirst | internal/acceptance/apply.go:31-39 | no earlier change touches a written path, and no deletion precedes a write |
| Acceptance.DeletionIsApart | internal/acceptance/apply.go:31-53 | nothing that is written, nor a directory made for it, lies at or below a deleted path |
| Paths.SafeJoin | internal/acceptance/apply.go:70-83 | only paths that stay below the root are accepted, and a manifest's own paths are accepted unchanged |
| Paths.SafeJoinExactly | internal/acceptance/apply.go:70-83 | a path is accepted exactly if it is relative and the walk along its segments never rises above the root and ends below it |
| Paths.StepBack | internal/acceptance/apply.go:74-74 | cleaning takes away a segment with the step back behind it, empty segments and dots, wherever they are |
| Tree.FileSystem.MkdirAll | internal/acceptance/apply.go:97-107 | every missing directory on the way gets the mode, existing ones keep theirs; it works exactly if no file is on the way and no call fails, and it may stop at any directory |
| Tree.FileSystem.RemoveAll | internal/acceptance/apply.go:45-48 | removes a path and all below it, children first; it works exactly if no call fails, may stop anywhere, and touches nothing else |
| Tree.FileSystem.Rename | internal/acceptance/apply.go:127-129 | moves a file or a whole subtree in one step, exactly if no call fails and the target is free or of the same kind, an empty directory at most |
| Acceptance.ReplaceFile | internal/acceptance/apply.go:109-130 | a file is replaced in one step, exactly if no call fails and no directory is in its place; until then only a temporary file differs, and a failure changes nothing else |
| Acceptance.CopyEntry | internal/acceptance/apply.go:85-131 | a directory or file entry is put in place with its missing parents; it works exactly if no call fails and the entry can go there: its source is as listed, its way is clear and nothing of the other kind is in its place |
| Acceptance.ApplyChange | internal/acceptance/apply.go:40-56 | one iteration carries the tree from what k changes decide to what k+1 decide, exactly if no call fails and the change can be made, and every state on the way is recoverable |
| Acceptance.Apply | internal/acceptance/apply.go:18-58 | without conflicts it succeeds if and only if no call fails and every written path can be placed; then the tree is the three-way merge at every path; at every moment, errors included, each path holds its old or its final node and nothing is lost before all writes are in place |
| Acceptance.ApplyAll | internal/acceptance/apply.go:40-57 | the loop: it reaches the end exactly if no call fails and every change can be made; as far as it gets every state is recoverable, and at its end every change is in effect |
| Acceptance.DecidedIsMerged | internal/acceptance/apply.go:18-58 | the change-by-change effect is the declarative merge: candidate entries, no deleted paths, missing parents, everything else untouched |
| Acceptance.MergedIsUnique | internal/acceptance/apply.go:18-58 | a commit has exactly one possible result |
| Acceptance.CommitYieldsCandidate | internal/acceptance/apply.go:96-101 | with an untouched destination the result is the candidate tree if and only if no directory changed its mode |
| Acceptance.AllowedKeepsEdits | internal/acceptance/check.go:1-33 | an allowed commit overwrites no edit of the destination if and only if none lies below a deleted directory and none deleted a directory still needed |
| Acceptance.AddedFileIsRemoved | internal/acceptance/check.go:18-33 | a file added to a directory that the candidate deletes: no conflict, and the commit removes it |
| Acceptance.DeletedParentComesBack | internal/acceptance/apply.go:97-107 | a directory deleted from the destination to which the candidate adds an entry: no conflict, and it is made again |
| Acceptance.DirectoryModeIsLost | internal/acceptance/apply.go:96-101 | a candidate that only changes a directory's mode is not carried over |
| Acceptance.DuringApplyIsRecoverable | internal/acceptance/apply.go:40-56 | every intermediate state holds only old or final nodes, one temporary file excepted |
| Acceptance.LossComesLast | internal/acceptance/apply.go:31-53 | if any original path is missing, everything the candidate wrote is already in place |
| Checkpoint.Store.Add | internal/checkpoint/graph.go:54-84 | a node is added below existing parents only, completely or not at all; each error has its exact condition, and a node that may be added is, unless the write fails |
| Checkpoint.Store.Transition | internal/checkpoint/graph.go:86-119 | one node's state changes along one of the seven moves or stays, and to succeeded only above no pending child; each error has its exact condition, and a possible change is made unless the write fails |
| Checkpoint.Store.Rollback | internal/checkpoint/graph.go:124-148 | all or nothing: it fails exactly for a missing node, a reachable blocked node, or a write that fails, leaving the file as it was; otherwise every reachable node is rolled back and no other changes |
| Checkpoint.Walk.Visit | internal/checkpoint/graph.go:233-250 | the shared-mark depth-first walk terminates, lists only reachable nodes, children first |
| Checkpoint.DescendantOrder | internal/checkpoint/graph.go:230-253 | exactly the reachable nodes, each once, every child before its parents, the root last |
| Checkpoint.MoveAll | internal/checkpoint/graph.go:135-146 | stops exactly if a listed node is blocked; otherwise moves the listed nodes and no others |
| Checkpoint.Store.Read | internal/checkpoint/graph.go:150-170 | re-sorting by ID on every read loses no node and repeats none |
| Checkpoint.HistoryIsValid | internal/checkpoint/graph.go:54-148 | after any calls in any order IDs are unique, parents exist and the graph has a rank |
| Checkpoint.ValidGraphIsAcyclic | internal/checkpoint/graph.go:54-84 | no path leads from a node back to itself |
| Checkpoint.TerminalForever | internal/checkpoint/graph.go:257-272 | over any history a blocked or rolled back node stays so, and no node vanishes or changes parents |
| Checkpoint.PossibleMoves | internal/checkpoint/graph.go:257-272 | the moves in words, both ways: which states can be given to a node in which state, above which children |
| Checkpoint.OnlyForward | internal/checkpoint/graph.go:257-272 | over any history no node goes back: one that has left pending or running never is again, and blocked never follows succeeded |
| Checkpoint.SucceededRan | internal/checkpoint/graph.go:257-272 | over any history a node that has succeeded was running before, or was added as succeeded |
| Checkpoint.RollbackLeavesNoLiveDependant | internal/checkpoint/graph.go:121-148 | after a rollback everything that depends on a rolled back node is rolled back too |
| Lifecycle.Run.Transition | internal/lifecycle/lifecycle.go:46-62 | the state moves exactly along the fourteen edges, and only for a named run |
| Lifecycle.EndsAfterOutcome | internal/lifecycle/lifecycle.go:73-90 | a run that has been running reaches an end state only by way of an outcome, and never leaves it |
| Lifecycle.EveryStateIsReached | internal/lifecycle/lifecycle.go:73-90 | each of the eight states is the last of some life of a run |
| Lifecycle.CommittedSucceeded | internal/lifecycle/lifecycle.go:73-90 | a committed run had succeeded in the step before, and was running before that |
| Overlay.Manager.WaitForUnmount | internal/overlay/overlay.go:335-349 | the loop runs as the world lets it: at most 200 probes, a stop by the context between them, and success on the first probe that fails for whatever reason |
| Overlay.Manager.Unmount | internal/overlay/overlay.go:299-333 | the retry loop with its settling, command by command, for every world of replies and cancellations |
| Overlay.UnmountTries | internal/overlay/overlay.go:311-333 | at most 20 retries, each made only because the try before it found the mount busy, then at most 200 probes |
| Overlay.WaitsForBusyMount | internal/overlay/overlay.go:311-349 | a mount that is busy for up to 20 tries and then lets go is unmounted; with the real runner it may show up in up to 199 probes before it is gone |
| Overlay.GivesUpOnBusy | internal/overlay/overlay.go:311-333 | after exactly 21 busy tries it gives up with the last one's error |
| Overlay.GivesUpOnSettling | internal/overlay/overlay.go:335-349 | after exactly 200 probes that still find the mount it gives up |
| Overlay.SuccessIsLastWord | internal/overlay/overlay.go:313-349 | success is claimed on the word of the last command: a failing probe with the real runner, a clean unmount with any other |
| Overlay.ReportReads | internal/overlay/overlay.go:158-165 | a failure report reads busy, or already unmounted, exactly when the command line or the command's own words do |
| Overlay.Manager.Rollback | internal/overlay/overlay.go:361-383 | the layers are discarded exactly if unmounting was accepted and no file operation fails, and untouched if it was not; with a name that cannot mislead and honest commands, probes included, the mount is then gone |
| Overlay.HonestUnmounting | internal/overlay/overlay.go:299-393 | with honest commands and such a name, an accepted unmount means a mount that is gone, in every world |
| Overlay.SafeExactly | internal/overlay/overlay.go:361-393 | the settings in which honest commands can never mislead are exactly the kernel backend, an injected runner and the neutral names |
| Overlay.MisleadingNames | internal/overlay/overlay.go:385-393 | mount points with one of the three phrases in their name, in any letter case: on FUSE the layers go though every try reported the mount busy |
| Overlay.MisleadingWords | internal/overlay/overlay.go:389-392 | two of them: "not mounted", and "invalid argument" with a capital I with a dot, which Unicode lower-casing makes an i |
| Overlay.BrokenProbeMisleads | internal/overlay/overlay.go:335-340 | a clean unmount that leaves the mount and one failing probe count as unmounted, on either backend and with any name |
| ProtectedRun.Start | internal/protectedrun/coordinator.go:123-184 | for every pattern of failures: it works exactly if every call does, the run has a name and its sensor can be attached; no handle means nothing beyond a mount; a failed handle has undone exactly what had started; the gate has been released exactly by a success with a gate |
| ProtectedRun.ReleaseComesLast | internal/protectedrun/coordinator.go:142-183 | in any safe trace a gate release comes after mount, start, scope, network and sensor have succeeded, and after no kill |
| ProtectedRun.KilledOnceAndUnwaited | internal/protectedrun/coordinator.go:276-280 | the agent is killed at most once and never after it was waited for, over all later calls on the handle |
| ProtectedRun.FailedBootUndoesAll | internal/protectedrun/coordinator.go:276-307 | wherever a start failed: one rollback, last; one kill of a started agent, one close of an attached sensor, one terminate and close of the scope, no network cleanup |
| ProtectedRun.Recorded | internal/protectedrun/coordinator.go:71-80 | every call keeps the trace safe and the handle's fields equal to what the trace leaves open |
| ProtectedRun.Handle.RunSteps | internal/protectedrun/coordinator.go:142-183 | the steps before the gate run in order and stop at the first failure, with all earlier ones done; they all work exactly if no call fails and the sensor can be attached |
| ProtectedRun.Handle.FailAndRollback | internal/protectedrun/coordinator.go:276-307 | undoes exactly what is held, then rolls the overlay back; the run is rolled back only if that succeeded |
| ProtectedRun.Handle.DropScope | internal/protectedrun/coordinator.go:317-330 | a scope that does not close is terminated and closed once more, then forgotten; it reports exactly whether the first close worked |
| ProtectedRun.Handle.CleanUpNetwork | internal/protectedrun/coordinator.go:204-208 | refresh stops before the network boundary is cleaned up, once; it reports exactly whether that worked |
| ProtectedRun.Handle.Wait | internal/protectedrun/coordinator.go:198-230 | after the agent: network, hook, sensor, scope in that order; a running run has succeeded if and only if the trace has the agent's end as a success and no failed close of the scope, and has failed otherwise; the call works if and only if besides no other call failed |
| ProtectedRun.Handle.Rollback | internal/protectedrun/coordinator.go:232-274 | stops what still runs, rolls back, and marks the run only after the layers are gone, as the last call in the trace says; it works if and only if no call failed and a run that has to be marked has a name |
| ProtectedRun.RollbackPlan | internal/protectedrun/coordinator.go:85-121 | a run found on disk ends in exactly the state that its old one and the fate of its layers call for: rolled back only after they were discarded, a never mounted run excepted; it works exactly if no call fails and the run may be rolled back |
| NetProxy.StepKeepsInv | internal/netpolicy/proxy.go:40-172 | every step of every goroutine and every peer keeps the mutex, connection set, wait count and shutdown invariants |
| NetProxy.CountersAreExact | internal/netpolicy/proxy.go:96-115 | in every interleaving the wait count is the number of admitted unfinished handlers, conns lists exactly the tracked ones, one goroutine at most is in the mutex |
| NetProxy.NoAdmissionOnceClosed | internal/netpolicy/proxy.go:96-109 | once the flag is set nothing is admitted; what is in flight only shrinks |
| NetProxy.ForceClosedBeforeWaiting | internal/netpolicy/proxy.go:80-92 | Close waits only after it has closed every connection still listed |
| NetProxy.DrainedForever | internal/netpolicy/proxy.go:66-94 | when the call that set the flag has returned, no handler runs, then or ever after |
| NetProxy.OnlyPeersHoldUp | internal/netpolicy/proxy.go:40-172 | no deadlock: if nothing can move, every unfinished goroutine waits for a peer that is silent, or is the Close that waits for such a handler |
| NetProxy.MovesOnCue | internal/netpolicy/proxy.go:66-172 | what a goroutine waits for has happened when it goes on, and one that has ended stays so |
| NetProxy.PeersActFreely | internal/netpolicy/proxy.go:40-94 | the peers act and Close is called at any time, and a listener accepts as long as it listens |
| NetProxy.HandlerMoves | internal/netpolicy/proxy.go:117-172 | a handler may end after any step; it turns to its upstream exactly with a request from its client or a client it can still write to |
| NetProxy.EveryRunRests | internal/netpolicy/proxy.go:66-172 | under any scheduling, with no new arrivals and no more from any peer, the goroutines come to rest |
| NetProxy.CloseReturnsIff | internal/netpolicy/proxy.go:66-172 | under any fair scheduling, after the last call of Close, Close returns if and only if every handler it has cut off while that waits for its upstream hears from it again |
| NetProxy.IdleTunnel | internal/netpolicy/proxy.go:146-156 | a reachable state at rest: every connection closed, the tunnel waits for its upstream and Close for the tunnel |
| NetProxy.IdleTunnelHoldsClose | internal/netpolicy/proxy.go:146-156 | a fair run without end from there, in which the client goes on acting and Close never returns |
| NetProxy.SecondCloseReturnsEarly | internal/netpolicy/proxy.go:70-76 | a run in which a second Close has returned and a handler still runs |
| Text.SplitOver | ui/data/supervisor-adapter.js:203-204 | text may be split as it comes in: all but the last piece is final |
| EventTail.EventsOver | internal/supervisor/server.go:757-771 | sending complete text and then more is sending it all at once |
| EventTail.EventsOfLines | internal/supervisor/server.go:757-771 | what is sent of a journal is its whole lines, trimmed, if not blank and valid; a partial last line is not sent |
| EventTail.SentIsSeen | internal/supervisor/server.go:740-773 | for any interleaving of appends with looks that may fail, the lines sent are those of the journal as last seen, in order, each once |
| EventTail.Emit | internal/supervisor/server.go:763-770 | the loop over the pieces sends exactly the valid lines in order |
| EventTail.Follower.Delta | internal/supervisor/server.go:740-773 | one incremental look, from the stored byte position |
| EventTail.Follower.Follow | internal/supervisor/server.go:706-738 | every round goes by the record if it can be read and looks at the journal if it can; the rounds end with the first terminal state, or when the client or the idle timer ends them; whatever the writer does meanwhile, a stop on a terminal state after a successful look has sent every event that preceded the record, and the exit event after them if it was written |
| EventTail.FollowEnded | internal/supervisor/server.go:706-738 | of a run that has ended, one round with a readable record and journal sends the whole journal and stops |
| EventTail.StoppedOnTerminal | internal/supervisor/server.go:712-722 | it has sent them if and only if the last look succeeded or nothing sendable lay behind the position reached before |
| EventTail.SentUpTo | internal/supervisor/server.go:740-773 | of a journal read up to a position, everything is sent if and only if nothing behind the position is sendable |
| EventTail.FailedLastLook | internal/supervisor/server.go:744-756 | a failed last look loses the one event of a finished run |
| EventTail.Files.Conclude | cmd/rewind/native_darwin.go:165-201 | the journal that goes with the terminal record has the events it had before and, behind them, the exit event if it can be appended |
| RunTail.EachOnItsOwn | internal/supervisor/server.go:823-857 | tailing many journals with one table of positions is tailing each of them on its own |
| RunTail.TurnMoves | internal/supervisor/server.go:826-855 | a turn sends exactly what is left of its journal, and swaps lines only with journals already heard from |
| RunTail.ExplainedMore | internal/supervisor/server.go:826-855 | a turn keeps the account of the jumps: which lines are out of order, or will be when the rest is sent |
| RunTail.JumpsAreSwaps | internal/supervisor/server.go:823-857 | once the earlier journals have been sent, the lines are in rotation order if and only if no journal was jumped to |
| RunTail.RotationIsByJournal | internal/supervisor/server.go:823-857 | lines in that order are one journal's lines after the other's |
| RunTail.JournalFollower.Round | internal/supervisor/server.go:823-857 | while the run writes and rotates, one look at each listed journal in order; a round without a failed read has read all that the record it went by speaks of, and jumped over nothing |
| RunTail.JournalFollower.Follow | internal/supervisor/server.go:789-821 | every round goes by the record if it can be read and looks at each journal it lists; the rounds end with the first terminal record of this run, or when the client or the idle timer ends them; a stop on a terminal record after a round that could read every listed journal has sent all that each held when the record was written, in rotation order if and only if no turn had jumped over something left to send |
| RunTail.FollowEnded | internal/supervisor/server.go:789-821 | of a run that has ended, one round with a readable record and readable journals sends what they held, in rotation order |
| RunTail.OutOfOrder | internal/supervisor/server.go:826-830 | one journal read in the round in which the one before it fails: its event is sent first |
| RunTail.ExplainedGrow | internal/supervisor/server.go:796-800 | what the run appends, rotates and records meanwhile changes nothing about the order until it is read |
| EventClient.FollowEvents | ui/data/supervisor-adapter.js:199-212 | however the response is cut into chunks, the page receives the events of the whole stream parsed at once |
| EventClient.CutShort | ui/data/supervisor-adapter.js:199-212 | a response cut off anywhere has delivered a prefix of the events |
| EventClient.FramesRoundTrip | internal/supervisor/server.go:768-768 | parsing the frames the supervisor writes gives back its lines in order |
| EventClient.EndToEnd | ui/data/supervisor-adapter.js:199-212 | journal to page: exactly the events of the journal's whole lines, in order, whatever the chunks |
| Telemetry.Chain.Append | internal/telemetry/chain.go:30-48 | a record is linked to everything before it; an invalid event changes nothing |
| Telemetry.Verify | internal/telemetry/chain.go:52-75 | the loop accepts exactly the journals without gaps, with fitting links and right hashes |
| Telemetry.BuiltVerifies | internal/telemetry/chain.go:30-75 | whatever valid events are appended, the journal verifies |
| Telemetry.VerifiedIsBuilt | internal/telemetry/chain.go:52-75 | a journal verifies if and only if it is what Append builds from valid events |
| Telemetry.SameEndSameJournal | internal/telemetry/chain.go:30-75 | with an injective digest, two journals that verify and end in one hash are equal |
| Telemetry.KeepAndDrops | internal/telemetry/writer.go:44-51 | written plus dropped is accepted |
| Telemetry.KeptVerifies | internal/telemetry/writer.go:35-51 | what is left after drops verifies if and only if nothing was written after a drop, that is, if it is the journal's beginning |
| Journal.CapVerifies | internal/telemetry/writer.go:35-51 | what a cap lets through verifies if and only if no record behind the first that does not fit would fit in its place: a condition on record sizes and the cap |
| Journal.WriterVerifies | internal/telemetry/writer.go:31-69 | the files of a writer hold the text of what the cap lets through, and verify under exactly that condition |
| Journal.ShortAfterLong | internal/telemetry/writer.go:44-51 | a record longer than the cap followed by one that fits: the second is written and the journal does not verify |
| Journal.JournalWriter.Append | internal/telemetry/writer.go:31-69 | dropped exactly when the cap leaves no room, though the chain has moved on; otherwise stored whole; it works exactly for a valid event with no failed write or rotation; counters, cap and segment sizes stay right |
| Journal.JournalWriter.Store | internal/telemetry/writer.go:52-67 | a new file is begun exactly when the record does not fit a non-empty one |
| Journal.Files.Rotate | cmd/rewind/run.go:773-791 | the list of paths stays the first file followed by the numbered ones |
| Journal.Adapter.Append | cmd/rewind/run.go:810-835 | one event for the writer: a drop marks the evidence truncated, a failure is left for the caller to mark; unmarked, the chain holds every event offered |
| Journal.Adapter.ReadLoop | cmd/rewind/run.go:793-808 | with decisions of the proxy in between, the kernel's events are offered in their order, all of them unless one is not valid or cannot be written; that marks the evidence and ends the loop |
| Journal.Adapter.Audit | cmd/rewind/run.go:208-212 | a decision that cannot be recorded marks the evidence, and later ones are still recorded |
| Journal.UntruncatedIsWhole | internal/telemetry/writer.go:35-67 | the files hold the kept records in order, and all of them exactly when nothing is marked truncated |
| SegmentNames.NamesIncrease | cmd/rewind/run.go:782-782 | six padded digits sort like numbers up to 999,999 |
| SegmentNames.MillionthComesEarly | cmd/rewind/run.go:782-782 | the millionth file sorts before the one written before it |
| Glob.ListDirMembers | cmd/rewind/run.go:470-471 | a directory's listing has exactly the paths of the names that the last piece of the pattern matches |
| Glob.ListingOfPlain | cmd/rewind/run.go:470-471 | a cleaned pattern without wildcards lists itself exactly if it is a directory or a name in one |
| GlobSyntax.ParseExactly | cmd/rewind/run.go:470-471 | a pattern is well formed exactly if it is the written form of some glyphs, and then it means what was written |
| GlobSyntax.MatchInTwo | cmd/rewind/run.go:470-471 | two patterns in a row match exactly what can be cut into what each of them matches |
| GlobSyntax.MatchOne | cmd/rewind/run.go:470-471 | what a star, a question mark, a character and a class match |
| SegmentNames.PatternDecides | cmd/rewind/run.go:465-474 | whatever characters the root has, the journals are found in the order of writing if and only if there are at most 999,999 rotated ones and the directories that the root matches as a pattern have names of their form only in the journal's own, and exactly theirs |
| SegmentNames.DirectoryDecides | cmd/rewind/run.go:465-474 | without magic characters: if and only if there are at most 999,999 and the directory has no other name of their form |
| SegmentNames.ListingDecides | cmd/rewind/run.go:465-474 | whatever the path, they are if and only if there are at most 999,999 and the pattern lists exactly them |
| SegmentNames.BracketLosesAll | cmd/rewind/run.go:470-471 | under a directory with a bracket or a backslash and no star no rotated journal is ever listed in its place, whatever the directories hold |
| SegmentNames.BracketedRun | cmd/rewind/run.go:470-471 | the root /tmp/run[1] |
| SegmentNames.StaleIsListed | cmd/rewind/run.go:470-471 | a file that an earlier run left behind is listed as a journal of this one |
| SegmentNames.OrderRestored | cmd/rewind/run.go:472-472 | sorting whatever was found gives the order of writing if and only if exactly the journals were found and there are at most 999,999 |
| RunStore.Summarize | internal/runstore/store.go:45-92 | line by line and file by file, the totals, digest and completeness of the whole stream |
| RunStore.RotationDoesNotShow | internal/runstore/store.go:42-92 | a log cut between lines has the summary of the uncut log; count, size and digest agree wherever it is cut |
| Evidence.Verify | internal/evidence/verify.go:28-72 | reads every listed journal or reports an error, and judges chain, match and completeness of what it read |
| Evidence.LogRoundTrip | internal/evidence/verify.go:35-43 | scanning and decoding a journal's text gives the journal |
| Evidence.ReturnsDoNotMatter | internal/evidence/verify.go:35-43 | a carriage return before the newline changes nothing about a line |
| Evidence.FreshEvidence | internal/evidence/verify.go:28-72 | evidence just persisted decodes to the records kept and is complete if and only if nothing was lost, and then it holds all there ever were |
| Evidence.FoundAsWritten | cmd/rewind/run.go:455-474 | in an undisturbed directory without magic characters, the journals found, summarised and read back are those the adapter wrote, in order |
| Evidence.PersistAndVerify | cmd/rewind/run.go:455-463 | writer, directory, record and check in one: the evidence is reported complete exactly when nothing was lost, its chain valid exactly when the cap left no hole |
| Evidence.PersistUnderBracket | cmd/rewind/run.go:465-474 | under a root with a bracket the same path reports complete evidence that holds the first file only |
| Evidence.JudgeRun | cmd/rewind/run.go:455-474 | adapter to verdict: reported complete exactly when nothing was dropped or marked, and then everything offered if and only if the root matches itself as a pattern or nothing follows the first file |
| Evidence.CutsDoNotMatter | internal/evidence/verify.go:30-52 | where sound journals are cut into files makes no difference to the records read |
| Evidence.CompleteMeansUntouched | internal/evidence/verify.go:57-59 | evidence reported complete is byte for byte the recorded stream, and its records are the recorded ones |
| Session.Store.Apply | internal/session/store.go:81-174 | granted exactly when the protocol grants it, unless storage fails, and never for more than a day up to 292 years; the lease lasts the seconds asked for, or ten minutes if those are not positive; refused or failed requests leave the file alone; only takeovers and first acquires get a new ID |
| Session.Store.List | internal/session/store.go:49-79 | the live leases, at most one a run, as the protocol has them |
| Session.SQLiteStore.Apply | internal/session/sqlite.go:78-152 | the same protocol and lease times by transaction; heartbeats, too, get a new ID and creation time |
| Session.AnyTtl | internal/session/store.go:88-94 | what any 64-bit number of seconds comes to: it passes the limit exactly if its nanoseconds modulo 2 to the 64th are at most a day's or have their top bit set |
| Session.OverlongTtlPasses | internal/session/sqlite.go:85-91 | 9,223,372,037 seconds pass as ten minutes, and 18,446,744,074 as 0.29 seconds |
| Session.SQLiteStore.List | internal/session/sqlite.go:52-76 | the live leases, one a run, in order of creation; deleting expired rows is not seen |
| Session.StoresAgree | internal/session/store.go:37-40 | after equal histories both stores show the same owner, update time and expiry of every run, at every later time |
| Session.ServeBoth | internal/session/store.go:37-40 | over any trace both stores, unless one's storage fails, grant and refuse the same requests with leases that differ at most in ID and creation time |
| Session.OwnerChangesByTakeover | internal/session/store.go:104-156 | a live lease passes to another owner only by that owner's granted takeover |
| Session.LeaseEndsByRelease | internal/session/store.go:157-168 | a live lease is gone after a step only by its owner's release; otherwise it lasts to its expiry |
| Session.WhyOwnershipEnded | internal/session/store.go:104-168 | over any history an owner is replaced only after a takeover by another, its own release, or expiry |
| NativeHide.HidePaths | cmd/rewind/native_darwin.go:217-264 | from a fresh hidden root it succeeds exactly if no call fails and every denied path lies in the view; then every denied path and all below it is out of the view, hidden subtrees are what the originals were, none lies in another, the rest is untouched |
| NativeHide.HideOne | cmd/rewind/native_darwin.go:252-261 | one more subtree moves out; what was hidden before is not disturbed |
| NativeHide.RestorePaths | cmd/rewind/native_darwin.go:266-286 | each hidden subtree is back as it was; everything else is as the agent left it, but for directories on the way that had to be made again |
| NativeHide.HideRunRestore | cmd/rewind/native_darwin.go:145-170 | around any behaviour of the agent inside the view |
| Policy.MatchMeaning | internal/policy/policy.go:275-287 | the recursive matcher holds exactly when each ** stands for some segments and every other pattern segment for one it matches |
| Policy.MatchConcat | internal/policy/policy.go:275-287 | a pattern in two pieces matches exactly when the path can be cut to match |
| Policy.LeadingSlash | internal/policy/policy.go:221-233 | a leading slash changes nothing, for any path and any segment matcher, if and only if the pattern is not empty and does not start with white space |
| Policy.IndentedPattern | internal/policy/policy.go:221-233 | the pattern " a" matches the path "a" and, with a slash before it, does not |
| Policy.MatchIsSegments | internal/policy/policy.go:226-233 | whether the candidate's own leading slash is dropped first makes no difference |
| Policy.Validate | internal/policy/policy.go:188-204 | accepted exactly when modes are known, no pattern is blank and PII enforcement has enforcement under it |
| Policy.Explain | internal/policy/policy.go:242-265 | deny before allow; denied exactly in enforce mode and audited exactly in audit mode when a deny pattern matches, allowed otherwise; the pattern reported is the first that matched |
| ReadRules.CompileRead | internal/policycompile/read.go:33-86 | fails exactly for an invalid policy or an entry that escapes the root or is too long; otherwise the rules and the allowlists are exact and sorted |
| ReadRules.EntryKeepsItsPath | internal/policycompile/read.go:54-55 | an entry is compiled under its own path if and only if that has no white space at its ends |
| ReadRules.EntriesStayApart | internal/policycompile/read.go:54-55 | the entries of a manifest have different paths when compiled, such names excepted |
| ReadRules.SortedRules | internal/policycompile/read.go:76-80 | the rules are the table's entries in path order, whatever the map iteration order |
| ReadRules.ExactlyOne | internal/policycompile/read.go:66-74 | in enforce mode every file and directory lands in exactly one of deny rules, allowed files and allowed directories |
| ReadRules.NothingElse | internal/policycompile/read.go:47-75 | only what the manifest lists is ruled on or allowed |
| ReadRules.DenyShrinks | internal/policycompile/read.go:65-74 | one more deny pattern takes exactly the paths it matches off the allowlists |
| ReadRules.AllowChangesNothing | internal/policy/policy.go:257-263 | allow patterns never change what is compiled |
| ReadRules.CompiledIsUnique | internal/policycompile/read.go:30-32 | the result is determined by policy and manifest |
| Landlock.BuildPlan | internal/landlock/plan.go:27-65 | the allowlists of the rules, provided all paths are inside the root and no runtime root overlaps the workspace |
| Landlock.CompiledStaysInside | internal/landlock/plan.go:36-41 | compiled rules never fail the plan's root check |
| Landlock.Protect | internal/landlock/plan.go:27-65 | policy to plan: the lists are exactly the sorted files and directories that no deny pattern matches |

## Left out

- Symbolic links on the way of `MkdirAll`, `RemoveAll`, `Rename` and `Lstat`: paths are followed as names; link entries appear only as refused entries.
- Umask, ownership, permission checks and directory-mode repair.
- Entry types other than file, directory, symlink and other, which `copyEntry` refuses as unknown.
- A `CreateTemp` name that exists already: CreateTemp retries, the model counts it as a failed copy.
- Hard links and the contents of files beyond size and digest; `FileSystem` moves subtrees atomically as `rename` does on one file system.
- Acceptance.Apply: the merge and recovery clauses are stated for manifests that describe the trees they were built from; for other manifests only the error cases are.
- Timestamps of runs and checkpoints other than the update time; `time.Now` is a parameter.
- Checkpoint and session files that exist and cannot be read or decoded: a plain error return.
- File locks and in-memory mutexes of the stores: every call of a store is atomic.
- Overlay preparation, the FUSE process and mount options; mounting is one step that may fail half-way.
- Network cleanup on a failed start, which the coordinator does not do; the refresh alone is stopped there.
- Requests, responses and policy decisions inside a handler of the proxy: it reads, waits for its upstream and writes, and may end at each of these; a request's body counts as read with the request, and the goroutine that copies from client to upstream, which nothing waits for, is not there.
- NetProxy.DrainedForever: says nothing about a second concurrent Close, which returns at once.
- NetProxy.EveryRunRests: supposes that the peers fall silent; with peers that go on for ever only NetProxy.CloseReturnsIff speaks, and that only after the last call of Close.
- Journal.Adapter.ReadLoop: events that the kernel still holds when the session is closed are not read and not counted; the moment between a failed append and its mark is not observed.
- Evidence.JudgeRun: supposes that no write or rotation failed, that no journal of another run is in the way and that there were at most 999,999 rotations.
- The idle timer and ticker of the event streams: a bound on the number of rounds, and for each round whether the client or the timer ends it.
- UTF-8 reassembly by the browser's `TextDecoder`: chunks are taken as decoded text.
- RunTail.JournalFollower.Follow: a new journal is begun only behind a whole line, as it is when every write succeeds; what a record speaks of is what its journals held when it was written.
- JSON encoding and decoding, digests and, in the read policy, `path.Match`: parameters with the laws named at each theorem. `Glob` spells out `filepath.Match` and `filepath.Glob`, without their limit of 10,000 separators, over directories that do not change meanwhile.
- A journal left by an earlier run under the same name, to which `openFile` would append: journals start empty.
- The scanner's 2 MB line limit and wrap-around of 64-bit counters.
- Read errors other than a missing file in `SummarizeEventsPaths` and `evidence.Verify`, and a journal writer without a destination or a rotation callback: each is a plain error return.
- Journal.JournalWriter.Append: after a rotation or write has failed the model promises only that the adapter marks the evidence truncated.
- Random lease IDs: a counter that never repeats; the stale-lock removal of the JSON store; expiry times beyond the range of 64-bit nanoseconds.
- Clocks that go back: lease histories have non-decreasing times.
- Session.SQLiteStore.List: rows created at the same time come in some order, as SQL leaves it.
- Relative roots and allowed paths, which `filepath.Abs` and `filepath.Rel` resolve or refuse: paths and roots are absolute in `ReadRules` and `Landlock`; `NativeHide` takes the cleaned absolute paths.
- NativeHide.HidePaths: that it succeeds is stated for a hidden root in which nothing is in the way; a failure part-way says only that the tree is well formed; the caller discards the transaction then.
- The control-plane catalog, history pruning, tokens, registry, retention, signatures, policy learning, evidence bundles, PII patterns and patch text: simple components that would add only easy members.
- Syscalls, cgroups, eBPF, seccomp, HTTP handlers, command lines and the user interface.
