# Versioned workspace: a verified model

This project models the workspace engine of the repository, a small version control
system, and six smaller parts of it, in Dafny, and proves what they promise.

## The workspace engine

A workspace has a shared area on disk, a sandbox and a pull baseline for each agent, and a
store with content objects, commits, head, an id counter and a one-slot journal.
Every commit carries its changes and a snapshot of the whole tree.

- `WorkTree` has trees, changes and the commit history; `Workstore` the path rules and the
  three-way decisions of commit, pull and resolve.
- `Repository` has the whole state as a value, `Recovered`, the state a replay of the
  journal leads to, and `Inv`, which holds between any two writes to disk.
- `Steps` states each operation as one atomic step; `Refusals` states for which reasons it
  may be turned down and `Reports` what it tells its caller; `Preservation` proves that every
  step keeps the repository consistent.
- `Workspace` is the service itself, a class whose methods change the disk one port write at
  a time. Every port call may fail or the process may die, before or after its write took
  effect, inside recovery too. Each public method is proved to answer the call: seen through
  recovery, it is its whole step or nothing but spare objects and at most one spare id. A
  pull, a resolve and a collection are not journalled; where they stop part way, their steps
  say in which states that can be.
- `Sessions` ties the two together: any list of calls, with crashes and failures anywhere, is
  a run of atomic steps. `Runs` and `StaleFiles` prove safety over all runs, `Guarantees` what
  single operations promise about files, and `CommitLog` what the paged history shows.
- `Effects` and `Anchors` say what the operations come to without the plans they make: of every
  path, what a commit, a sync, a pull, a resolve or a move makes of head, baseline and file;
  and what a commit's record is good for in later rewinds and in the log.

Read with this in mind: an error that is not `Crash` or `PortFailure` is a refusal. For
commit, pull, sync, user commit, resolve, restore-lost, restore, rewind and discard the
contracts say both ways when a call is refused. The engine's own internal refusals (a head
that names no commit, a journalled commit older than head, a missing object) are in the code
of the model and are proved never to happen.

## The other parts

- `Calendar`: seconds to a civil date and time for log lines (Gregorian calendar, as in
  section 3.2.1 of ISO 8601:2004).
- `Downloads`: the resumable download, its part file and its source marker (partial answers
  as in section 15.3.7 of RFC 9110).
- `Versions`: the numeric-aware version key and the choice of a package by it.
- `VmLeases`: the lease table under concurrent starts, stops and executions, as a protocol
  whose steps are the accesses to the table lock and to each guest's lock.
- `Secrets`: configured values and their masking.
- `RustScan`: the comment scanner that goes line by line, against one pass over the text, and
  `RustLiterals`: what that pass makes of literals, code and comments.
- `Builds`: batches of builds on the host or in a guest, and putting the results back in order;
  `Rebuilds`: two calls in a row, with edits in between.

## Where the code does less than it says

- Masking a value can leave the value in the text, or bring it about anew, when the value
  begins or ends with a star or contains `***`. `Secrets.MaskingIsCompleteIffMaskable` and
  `Secrets.RedactionIsCompleteIffMaskable` say that these are all such values.
- A stale part file that cannot be deleted is silently kept and marked as the new source's;
  the next attempt then splices two sources (`Downloads.UndeletablePartSplices`). So does a
  marker write that breaks off when one source's address is the beginning of another's
  (`Downloads.TornMarkerSplices`). `Downloads.CallNeverMixesIffSafe` says exactly when
  neither can happen, in terms of the disk and the addresses before the call.
- The version key orders all names of two kinds (the same characters around the numbers, the
  numbers of given widths) rightly if and only if every number is padded to the same width in
  both (`Versions.KeyOrderIffSameWidths`). That is always so up to twelve digits, and also for
  longer runs of equal length; but ten to the twelfth sorts before the number below it
  (`Versions.LongRunsBreakTheOrder`).
- Ids are never given out again as long as the store keeps its id counter. A store that lost
  the counter gives one out again once its newest commits are discarded
  (`Runs.LostCounterReusesId`, `Runs.NoReuseIffCounterOrNewestKept`).
- Taking upstream's side of an edited file a second time replaces the backup of the first edit,
  unless the content is the same (`Guarantees.TwoResolvesLoseABackup`,
  `Guarantees.SecondResolveReplacesBackup`).
- A repeated resolve can do more than the first: once it has removed a file, the file's name
  stands for the folder of that name. `Guarantees.RepeatedResolveConverges` says exactly when,
  and `Guarantees.FileHidesFolder` shows a case.
- An agent that never edits a file can still commit its old version over a newer one, after it
  gave up its note of the file: it resolved while head lacked the file, head got the file back
  in another version, and it resolved again (`StaleFiles.GivenUpThenStale`). Short of giving up
  the note it cannot (`StaleFiles.NoStaleCommit`).
- The scanner does not know character literals escaped by number. A quote behind one can be taken
  for the beginning of a string, and the string after it for code
  (`RustLiterals.LongEscapeInventsABlock`).
- The scanner's mode for character literals is never entered; the model has no such mode.

## Model

| member | source | states |
|---|---|---|
| Workstore.CleanRelIsIdentity | src/capabilities/workspace/domain/workstore.rs:123-147 | a path is accepted or refused as it stands: cleaning never rewrites it |
| Workstore.CleanGoesDown | src/capabilities/workspace/domain/workstore.rs:123-147 | a path is accepted exactly when it has no backslash and no control character and, walked from any directory, leads to the place of that name below it |
| Workstore.UnderIsBelow | src/capabilities/workspace/domain/workstore.rs:170-193 | a file is below a folder exactly when its segments go on from the folder's |
| Workstore.ExpandPaths | src/capabilities/workspace/domain/workstore.rs:170-193 | a request stands for the file of that name, else for every file below it; the requests that stand for nothing are reported missing, in order |
| Workstore.ExpandedIs | src/capabilities/workspace/domain/workstore.rs:170-193 | a file is asked for exactly when it is named, or a folder above it is and no file has the folder's name |
| Workstore.CommitRule | src/capabilities/workspace/domain/workstore.rs:231-309 | three-way rule of a commit: a change is planned only from the agent's baseline to its own content, a file whose head moved is never changed; which case is which conflict, and why a path is left as it is |
| Workstore.PlanCommit | src/capabilities/workspace/domain/workstore.rs:231-309 | every listed path is a change, an unchanged path with its reason, or a conflict, as the rule says |
| Workstore.PlanCovers | src/capabilities/workspace/domain/workstore.rs:231-309 | the three outcomes split the listed paths: none lost, none in two |
| Workstore.PullRule | src/capabilities/workspace/domain/workstore.rs:312-350 | a pull overwrites only a file the agent has not edited and only with head's version; when both sides moved it is a conflict, or in the way if the agent never took note of the file |
| Workstore.LocalTakeRule | src/capabilities/workspace/domain/workstore.rs:494-508 | keeping the local file is denied exactly when it is the version the agent took note of and head has another; which warning is given when |
| Refusals.AllCleanGoDown | src/capabilities/workspace/domain/workstore.rs:123-147 | a list of paths passes exactly when each of them can only lead down and has no backslash and no control character |
| Refusals.ListsTwiceIs | src/capabilities/workspace/service.rs:723-756 | a commit request lists something twice exactly when the files it asks for and its deletions count to more than the paths it is about |
| WorkTree.SnapshotIsReplay | src/capabilities/workspace/service.rs:772-814 | a commit's stored tree is the replay of all changes along its parent chain from nothing |
| WorkTree.AncestorsSurvive | src/capabilities/workspace/service.rs:327-342 | deleting commits off a chain leaves the chain itself as it was |
| WorkTree.KeepHistoryOk | src/capabilities/workspace/service.rs:327-342 | what a discard keeps is still a well-formed history |
| WorkTree.ExtendHistoryOk | src/capabilities/workspace/service.rs:772-814 | a commit on top of head keeps the history well formed |
| WorkTree.BroughtTwice | src/capabilities/workspace/service.rs:151-188 | moving the shared area twice to the same tree is moving it once, so a half-done move can be replayed |
| WorkTree.BroughtFrame | src/capabilities/workspace/service.rs:151-188 | a move touches no path outside the old tree and the target tree |
| WorkTree.PartAppliedEnds | src/capabilities/workspace/service.rs:301-316 | making a commit's changes one by one, in any order, ends in all of them |
| Repository.CommitFileStep | src/capabilities/workspace/service.rs:301-316 | one file written while a commit is journalled does not change what recovery will bring about |
| Repository.CommitTornStep | src/capabilities/workspace/service.rs:301-316 | nor does a write that broke off: whatever the listed files hold, the replay ends the same |
| Repository.CommitRecordStep | src/capabilities/workspace/service.rs:317-317 | nor does writing the commit record |
| Repository.CommitHeadStep | src/capabilities/workspace/service.rs:318-318 | nor does setting head |
| Repository.CommitIndexStep | src/capabilities/workspace/service.rs:319-321 | nor does writing the committer's baseline |
| Repository.MoveFileStep | src/capabilities/workspace/service.rs:175-182 | one file written or removed while a move is journalled does not change what recovery will bring about |
| Repository.MoveHeadStep | src/capabilities/workspace/service.rs:183-186 | nor does moving head once the files are there |
| Repository.DropCommitStep | src/capabilities/workspace/service.rs:336-340 | nor does removing a commit off the kept chain |
| Repository.ClearStep | src/capabilities/workspace/service.rs:362-362 | clearing the journal after its work is done leaves exactly the recovered state |
| Preservation.JournalCommit | src/capabilities/workspace/service.rs:801-823 | a commit journalled with its objects stored and its id taken recovers to exactly that commit landed |
| Preservation.LandsKeeps | src/capabilities/workspace/service.rs:285-322 | a landed commit leaves a consistent repository: history, ids, stored objects, and a shared area that shows head |
| Preservation.MovedKeeps | src/capabilities/workspace/service.rs:151-188 | so does a move to any stored commit |
| Preservation.DiscardedKeeps | src/capabilities/workspace/service.rs:327-342 | so does a discard |
| Preservation.GcKeeps | src/capabilities/workspace/service.rs:1610-1661 | so does reclaiming objects: every fingerprint in a tree or a baseline still has its object |
| Preservation.StepKeepsIdle | src/capabilities/workspace/api.rs:99-191 | so does every operation |
| Workspace.Service.Materialize | src/capabilities/workspace/service.rs:151-188 | wherever it stops, recovery still leads to the same state; it touches only files of the old head tree or of the target, and ends on the target; its two refusals never happen |
| Workspace.Service.ApplyCommitPending | src/capabilities/workspace/service.rs:285-323 | wherever it stops, recovery still leads to the same state; the refusal to move backwards never happens |
| Workspace.Service.DiscardCommits | src/capabilities/workspace/service.rs:327-342 | exactly the commits off the kept chain go; wherever it stops, recovery still leads to the same state |
| Workspace.Service.RecoverLocked | src/capabilities/workspace/service.rs:346-363 | on success the state is the recovered one and the journal is empty; on failure at any point recovery still leads to the same state |
| Workspace.Service.Settle | src/capabilities/workspace/service.rs:367-390 | a failed transaction is replayed once; success means it is carried out whole |
| Workspace.Service.Transact | src/capabilities/workspace/service.rs:819-826 | the journalled operation happened whole or, if its journal entry was never written, not at all |
| Workspace.Service.ReserveId | src/capabilities/workspace/service.rs:272-281 | whatever the store holds, the id given out is the least one above every stored commit and not below the counter, and the counter passes it before anything uses it; in a store that kept its counter it is the counter |
| Workspace.Service.HeadAncestors | src/capabilities/workspace/service.rs:405-419 | exactly the parent chain |
| Workspace.Service.ExternalMaterializeConflicts | src/capabilities/workspace/service.rs:192-236 | exactly the files a move would overwrite or delete though somebody changed them outside; none in a product-internal workspace |
| Workspace.Service.RejectExternalChanges | src/capabilities/workspace/service.rs:242-268 | a commit is refused exactly when a listed file was changed outside |
| Workspace.Service.MoveTo | src/capabilities/workspace/service.rs:123-148 | restore: whole or not at all, ending exactly on the target; refused only for an unknown commit or outside changes |
| Workspace.Service.WorkRestoreCommit | src/capabilities/workspace/service.rs:1663-1669 | restore and forced restore; refused only for an unknown commit or, when not forced, outside changes |
| Workspace.Service.WorkRestorePoint | src/capabilities/workspace/service.rs:1730-1753 | moving to a point, None emptying the managed files; refused only for an unknown commit or outside changes |
| Workspace.Service.WorkDiscardAfter | src/capabilities/workspace/service.rs:1755-1782 | discard: whole or not at all, exactly the commits off the kept chain gone; refused only for an unknown commit or outside changes |
| Workspace.Service.WorkRewindTo | src/capabilities/workspace/service.rs:1680-1728 | rewind moves to the greatest commit on head's own chain that is within every keep line; refused only for outside changes |
| Workspace.Service.ChooseRewind | src/capabilities/workspace/service.rs:1693-1714 | the choice itself: the greatest one within, None exactly when there is none |
| Workspace.Service.WorkCommitAgent | src/capabilities/workspace/service.rs:700-828 | commit: whole or not at all; head, baseline, files and the reported changes end exactly as the listed edits and deletions say; refused exactly for the listed reasons, an empty message among them, a single conflict refusing everything |
| Workspace.Service.WorkSyncPaths | src/capabilities/workspace/service.rs:830-929 | adopting outside edits: no file changes, head has every listed file as the disk shows it with its content stored, and every other path as before; a reported change is an addition, an edit or a deletion exactly as head lacked the file, both had it or the disk lacks it; the report gives changes, files that are the same, and missing requests; refused exactly for the listed reasons |
| Workspace.Service.WorkCommitUserFile | src/capabilities/workspace/service.rs:971-1032 | a user's file becomes head's version and is on disk, nothing else changes, without a conflict check; refused exactly for a bad, nested or oversized file |
| Workspace.Service.WorkPullPaths | src/capabilities/workspace/service.rs:600-697 | pull: sandbox and baseline end exactly as the rule says; the report gives for each file what was done, conflict kinds and outside changes included, and the missing requests; a partial pull records only files it finished; refused exactly for the listed reasons |
| Workspace.Service.WorkResolvePaths | src/capabilities/workspace/service.rs:1298-1513 | resolve: backups before anything is touched, baselines all together and only after every file was taken; the report gives for each file the action and its backup, the missing requests and the warnings; refused exactly for the listed reasons |
| Workspace.Service.WorkRestoreLostPath | src/capabilities/workspace/service.rs:1555-1600 | restoring a backup: only over the file the caller last saw, and the backup stays; the report gives its fingerprint, size and the file before; refused exactly for the listed reasons |
| Workspace.Service.WorkRecoverNow | src/capabilities/workspace/service.rs:1602-1608 | replays the journal and does nothing else |
| Workspace.Service.WorkGcNow | src/capabilities/workspace/service.rs:1610-1661 | the report counts all, kept, unreachable, removed and stray files and their bytes exactly, dry run and apply alike, and its parts add up; apply removes exactly the unreachable and the stray ones |
| Workspace.Service.ReachableHashes | src/capabilities/workspace/service.rs:1617-1632 | exactly the fingerprints in commit trees and baselines |
| Workspace.Service.WorkLog | src/capabilities/workspace/service.rs:1132-1182 | a page of the history is exactly the newest commits asked for, newest first, each with its author, session, time and message and marked by whether head descends from it, cut short exactly when some are left out; with the summary of head |
| Workspace.Service.Ingest | src/capabilities/workspace/ports.rs:70-78 | a file is stored only under its own fingerprint and only within the size limit; a crash leaves at most a stray file |
| CommitLog.PagesMeet | src/capabilities/workspace/service.rs:1132-1182 | asking on from the last entry of a page loses nothing and repeats nothing |
| CommitLog.PageIsUnique | src/capabilities/workspace/service.rs:1132-1182 | a request determines its page |
| Effects.CommitTakesEdits | src/capabilities/workspace/service.rs:700-828 | of every path: a commit takes the agent's listed file to head when it was edited, drops a listed deletion, changes no other; baseline, files and report follow head |
| Effects.SyncAdoptsDisk | src/capabilities/workspace/service.rs:830-929 | of every path: a sync makes head show what the disk shows where asked, with the content stored, and changes no file; the report names additions, edits and deletions as such |
| Effects.UserCommitAddsFile | src/capabilities/workspace/service.rs:971-1032 | a user's file is head's version and on disk, recorded as an addition exactly when head lacked it, and nothing else changes |
| Effects.PullFollowsHead | src/capabilities/workspace/service.rs:600-697 | of every path: exactly the listed, lagging, unedited files get head's content, and exactly those and the ones the agent has already get the baseline; in an external workspace only while the disk shows head's version |
| Effects.ResolveSettles | src/capabilities/workspace/service.rs:1298-1513 | of every path: what a resolve makes of baseline, file and backup, either way; keeping local files never accepts an unedited older version |
| Effects.MovesTo | src/capabilities/workspace/service.rs:151-188 | restore, rewind and discard: head is the target, every file is as its tree says or as it was, and a discard keeps exactly the target's parent chain |
| Effects.ConflictsAre | src/capabilities/workspace/service.rs:192-236 | a move is in conflict exactly where the disk does not show head's version and the move would write or delete what is there |
| Effects.CommitChecksDisk | src/capabilities/workspace/service.rs:242-268 | an outside change that refuses a commit is exactly a listed path the disk does not show as head has it, deletions of what is gone aside |
| Effects.NamedIsAsked | src/capabilities/workspace/service.rs:855-893 | a named file is asked for wherever there is one of that name: disk and head, head, or baseline, head and sandbox |
| Effects.GcLeavesWhatIsNeeded | src/capabilities/workspace/service.rs:1610-1661 | after a collection no single object could go without some tree or baseline becoming unreadable |
| Effects.GcReportIsTrue | src/capabilities/workspace/service.rs:1610-1661 | the report counts in number and bytes exactly what is left and what went |
| Anchors.RewindAfterCommit | src/capabilities/workspace/service.rs:1702-1708 | a rewind right after a commit stays at it exactly when the agent's transcript is kept up to the commit's line; otherwise it goes to an older commit whose chain the commit is not on |
| Anchors.RewindAfterSync | src/capabilities/workspace/service.rs:1702-1708 | a commit of outside edits is never passed over for want of a line |
| Anchors.LogShowsCommit | src/capabilities/workspace/service.rs:1132-1182 | after a commit the log and the summary of head begin with it: its author, its trimmed message, its parent and as many changes as head changed at |
| Anchors.LogShowsOthers | src/capabilities/workspace/service.rs:1132-1182 | so do they after a sync and a user's file, each under its own author and text |
| StaleFiles.NoteStays | src/capabilities/workspace/service.rs:1363-1388 | while its file stays as it is, an agent's note of the version survives every step but those by which it gives the note up: asking to delete the file, or resolving while head lacks it |
| StaleFiles.NoStaleCommit | src/capabilities/workspace/service.rs:1363-1388 | over any run, a file that an agent left as it took note of it is not changed in head by that agent's commits, unless it gave up the note or asks to delete the file |
| StaleFiles.GivenUpThenStale | src/capabilities/workspace/service.rs:1363-1388 | why the note matters: from every state in which head lost a file the agent has unedited, two resolves and a user's file lead to the old version being committed over the new one |
| Runs.RunIsConsistent | src/capabilities/workspace/service.rs:346-390 | every state of every run of every mix of operations is consistent |
| Runs.HistoryReplays | src/capabilities/workspace/service.rs:772-814 | at every point of every run each stored tree is the replay of its chain and its files can be read back; head names a stored commit |
| Runs.SharedIsHead | src/capabilities/workspace/service.rs:285-323 | at every point of every run a product-internal shared area is exactly head's tree |
| Runs.StepIds | src/capabilities/workspace/service.rs:272-281 | a step stores at most one new commit, under the next id, and rewrites none |
| Runs.IdsNeverReused | src/capabilities/workspace/service.rs:272-281 | over whole runs ids strictly increase, even after the newest commits were discarded |
| Runs.LostCounterReusesId | src/capabilities/workspace/service.rs:272-281 | a store of commits 1 and 2 that lost its counter and discarded 2 gives 2 out again |
| Runs.NoReuseIffCounterOrNewestKept | src/capabilities/workspace/service.rs:272-281 | after a discard the next id is a new one if and only if the counter is above all ids ever stored or the newest commit was kept |
| Runs.BaselineMoves | src/capabilities/workspace/service.rs:600-697 | a baseline becomes h only by pulling h or taking it, so that the sandbox then holds h, by committing h, or by keeping the own file with this very head known |
| Runs.BaselineHasOrigin | src/capabilities/workspace/service.rs:600-697 | every baseline has such an origin and was held since |
| Runs.CommitReplacesBaseline | src/capabilities/workspace/api.rs:102-109 | an agent's commit changes a path only from the version that is its baseline |
| Runs.NoLostUpdate | src/capabilities/workspace/api.rs:99-109 | no lost update in any interleaving: the version a commit replaces is one this agent took note of earlier and held ever since |
| Sessions.OwnEdit | src/capabilities/workspace/service.rs:346-363 | recovery leaves sandboxes alone, so owners' edits of them do not disturb a journal |
| Sessions.Perform | src/capabilities/workspace/api.rs:99-191 | any call, failing anywhere, is one atomic step or nothing |
| Sessions.Play | src/capabilities/workspace/api.rs:99-191 | any list of calls to a fresh service, under any crashes and failures, is a run of atomic steps whose last state is what the disk recovers to |
| Guarantees.MoveFrame | src/capabilities/workspace/service.rs:151-188 | a journalled move, replayed from any half-done state, changes only managed files and ends on exactly the target's content |
| Guarantees.CommitFrame | src/capabilities/workspace/service.rs:285-322 | a replayed commit changes only the files it lists, each to its committed content |
| Guarantees.ExternalLosesNothingUnrecorded | src/capabilities/workspace/service.rs:192-268 | in an external workspace a checked operation overwrites or deletes only content that head records and the store holds |
| Guarantees.RewindTargetIsUnique | src/capabilities/workspace/service.rs:1680-1728 | the rewind target is determined, and never a commit left by an earlier rollback |
| Guarantees.RewindKeepsExactlyWithin | src/capabilities/workspace/service.rs:1693-1714 | when within is downward closed along the chain, a rewind keeps exactly the commits within |
| Guarantees.PullFrame | src/capabilities/workspace/service.rs:600-697 | a pull changes a file only where the agent had not edited it, to head's content, and a baseline only to what the sandbox then holds |
| Guarantees.PullConverges | src/capabilities/workspace/service.rs:600-697 | a pull that stopped anywhere, its partial baseline written or not, and is repeated ends where one uninterrupted pull would |
| Guarantees.ResolveKeepsEveryCopy | src/capabilities/workspace/service.rs:1393-1513 | wherever a resolve stops, each old local file is in the sandbox, in the backups, or head's own version |
| Guarantees.RestoreUndoesTakeUpstream | src/capabilities/workspace/service.rs:1555-1600 | wherever a resolve stopped, restoring a backup it made brings the original file back, changes no other and keeps the backup |
| Guarantees.RestoreIsPossible | src/capabilities/workspace/service.rs:1393-1513 | wherever a resolve stopped, each file it overwrote with another version has its backup, and the fingerprint to give is known |
| Guarantees.BackupsApart | src/capabilities/workspace/domain/workstore.rs:518-530 | a backup lies in its agent's backup folder under the file's own path, does not lead out of it, and no two files share one |
| Guarantees.SecondResolveReplacesBackup | src/capabilities/workspace/service.rs:1393-1513 | wherever the next resolve stops, an older backup is still there, if and only if that resolve keeps local files, the path's file is not one it must back up, or the file has the content of the backup |
| Guarantees.TwoResolvesLoseABackup | src/capabilities/workspace/service.rs:1393-1513 | two resolves in favour of head with an edit in between, after which the first edit is in no sandbox, no backup and no object |
| Guarantees.ResolveConverges | src/capabilities/workspace/service.rs:1393-1513 | a resolve in favour of head that stopped anywhere and is done again ends in the same sandbox, baseline and backups as an uninterrupted one |
| Guarantees.RepeatedResolveConverges | src/capabilities/workspace/service.rs:1393-1513 | the same of repeating the request, if and only if no request names both a file that head lacks and a folder with files not asked for on which head, baseline and sandbox disagree |
| Guarantees.FileHidesFolder | src/capabilities/workspace/service.rs:1393-1513 | a consistent store in which that condition fails: head has one file below a folder, the sandbox a file of the folder's name |
| Reports.GcCountsAddUp | src/capabilities/workspace/service.rs:1610-1661 | kept and unreachable objects add up to all objects, in number and in bytes, and what is removed is all of the unreachable or nothing |
| Reports.SyncReportCovers | src/capabilities/workspace/service.rs:855-893 | every file asked for is reported once, as changed or as the same |
| Reports.PullReportIsTrue | src/capabilities/workspace/service.rs:633-673 | the report of a pull says of every file and baseline exactly whether it changed, and if not which of the reasons stood in the way |
| Reports.ResolveReportIsTrue | src/capabilities/workspace/service.rs:1407-1494 | the report of a resolve says of every file, baseline and backup exactly whether it changed |
| Reports.WarningsAreTrue | src/capabilities/workspace/service.rs:1363-1388 | the warnings of keeping local files are exactly the listed files that head has and the sandbox lacks, or that differ from head without a baseline |
| Guarantees.SecondGcFindsNothing | src/capabilities/workspace/service.rs:1610-1661 | a second collection finds nothing to remove and keeps the same objects |
| Calendar.CivilIsCalendar | src/kernel/detail/file_log.rs:88-105 | every day count gives a valid Gregorian date and the next count the calendar's next day |
| Calendar.EpochIsDayZero | src/kernel/detail/file_log.rs:88-105 | day 0 and no other is 1 January 1970 |
| Calendar.DaysFromCivilInverts | src/kernel/detail/file_log.rs:88-105 | the usual days-from-civil formula inverts it |
| Calendar.LaterIsLater | src/kernel/detail/file_log.rs:88-105 | later days have later dates |
| Calendar.StampsSortAsTime | src/kernel/detail/file_log.rs:88-105 | a stamp is a real time of day, determines its second, and stamps sort as time does |
| Secrets.Service.ModuleValues | src/capabilities/secrets/service.rs:52-65 | exactly the non-empty values of the module's declared fields, each under its field's variable, in field order |
| Secrets.Service.Redact | src/capabilities/secrets/service.rs:118-125 | masks the values one after the other, and leaves none of the maskable ones |
| Secrets.Service.Set | src/capabilities/secrets/service.rs:93-101 | an undeclared field changes nothing; otherwise the cache changes first and is then saved whole |
| Secrets.Service.Clear | src/capabilities/secrets/service.rs:103-108 | the same for clearing |
| Secrets.MaskCreatesNothing | src/capabilities/secrets/service.rs:118-125 | masking one value never makes another one appear |
| Secrets.MaskRemoves | src/capabilities/secrets/service.rs:118-125 | masking a maskable value leaves no occurrence of it |
| Secrets.MaskLeavesOthers | src/capabilities/secrets/service.rs:118-125 | a text without the value stays as it is |
| Secrets.FirstMatch | src/capabilities/secrets/service.rs:118-125 | the first occurrence becomes the mask; what is before it stays, what is behind it is masked in turn |
| Secrets.FirstOfItsId | src/capabilities/secrets/service.rs:52-65 | of several modules with one id the first one's fields count, and a module that is not there has none |
| Secrets.KeysApart | src/capabilities/secrets/service.rs:13-15 | values of different fields are kept apart for modules whose ids have no slash |
| Secrets.OthersKeepValues | src/capabilities/secrets/service.rs:93-108 | setting or clearing a field of one module changes no value of another |
| Secrets.SetIsServed | src/capabilities/secrets/service.rs:52-108 | a value that was set is served under its field's variable, a cleared one is not |
| Secrets.RedactionIsComplete | src/capabilities/secrets/service.rs:118-125 | for every text and every list of values, no maskable value of the list is left in the result |
| Secrets.RedactionIsCompleteIffMaskable | src/capabilities/secrets/service.rs:118-125 | a value is gone from every redacted text, whatever list it is in, if and only if it is maskable |
| Secrets.StarlessIsMaskable | src/capabilities/secrets/service.rs:118-125 | values without a star are maskable |
| Secrets.MaskingIsCompleteIffMaskable | src/capabilities/secrets/service.rs:118-125 | masking a value by itself is complete on every text if and only if the value neither starts nor ends with a star nor contains the mask |
| Versions.VersionKey | src/capabilities/provision/service.rs:1219-1237 | the key is the name with every digit run padded |
| Versions.TokensSpell | src/capabilities/provision/service.rs:1219-1237 | cutting a name into runs loses nothing |
| Versions.TokensWellSplit | src/capabilities/provision/service.rs:1219-1237 | the cut is exactly between digits and other characters |
| Versions.KeyOrderIsNumberOrder | src/capabilities/provision/service.rs:1219-1237 | for names of one shape whose numbers are padded to the same widths, key order is the order of the numbers |
| Versions.ShortRunsShareWidths | src/capabilities/provision/service.rs:1219-1237 | runs of at most twelve digits always are |
| Versions.KeyOrderIffSameWidths | src/capabilities/provision/service.rs:1219-1237 | the key is right for all names like two given ones if and only if each number is padded to the same width in both |
| Versions.LongRunsBreakTheOrder | src/capabilities/provision/service.rs:1219-1237 | two names that fail: ten to the twelfth and the number below it |
| Versions.PickDeb | src/capabilities/provision/service.rs:1240-1254 | a candidate with a greatest key is chosen, of equal keys the last to come up, None exactly when there is no candidate |
| Versions.CandidateStands | src/capabilities/provision/service.rs:1240-1254 | a candidate is exactly a whole word of the page with the prefix, the part and the ending asked for |
| Versions.NewestOfItsShape | src/capabilities/provision/service.rs:1240-1254 | no candidate of the chosen one's shape and widths has a greater version |
| Downloads.Downloader.DownloadWithResume | src/capabilities/provision/service.rs:807-887 | every state a call can leave behind, wherever it stops, in the middle of writing the marker too; success leaves the finished file; the request begins where the part of this source ends, and at the beginning otherwise |
| Downloads.Downloader.WriteMarker | src/capabilities/provision/service.rs:831-831 | a marker write that fails leaves the old marker or a beginning of the address |
| Downloads.Downloader.Fetch | src/capabilities/provision/service.rs:849-872 | the part holds a prefix of the answer after what it was resumed from, wherever the stream breaks off; a part that cannot be opened stays as it was |
| Downloads.CallNeverMixesIffSafe | src/capabilities/provision/service.rs:807-887 | whatever the sources hold, a call never mixes two of them if and only if it keeps nothing of the part, or the part is marked as this source's and no beginning of the address is another source's |
| Downloads.PaddedMarkerNames | src/capabilities/provision/service.rs:813-815 | white space around the address in a marker does not matter |
| Downloads.NeverSplices | src/capabilities/provision/service.rs:807-887 | over any run whose calls each meet that condition on the disk and the addresses, a marked part is a prefix of its source and a finished file is all of one source |
| Downloads.UsuallySafe | src/capabilities/provision/service.rs:813-831 | calls are safe when stale parts can be deleted and no address is the beginning of another |
| Downloads.UsuallyNeverSplices | src/capabilities/provision/service.rs:807-887 | so runs of such sources never splice two of them |
| Downloads.UndeletablePartSplices | src/capabilities/provision/service.rs:813-830 | when a stale part cannot be deleted, two attempts can finish a file that is neither source |
| Downloads.TornMarkerSplices | src/capabilities/provision/service.rs:831-831 | when one address is the beginning of another, a marker write that breaks off can do the same |
| VmLeases.StepKeepsCoherent | src/capabilities/vm/service.rs:74-176 | every step of every call keeps table, calls, locks and counters in agreement on where each guest is |
| VmLeases.RunIsCoherent | src/capabilities/vm/service.rs:74-176 | so does every interleaving of starts, stops and executions |
| VmLeases.OnePlace | src/capabilities/vm/service.rs:126-176 | a booted guest is always in exactly one place: with one call, under one lease, being stopped by one call, or gone |
| VmLeases.StoppedAtMostOnce | src/capabilities/vm/service.rs:409-413 | no machine is stopped twice, no guard released twice, and a guest that was stopped is in no table entry |
| VmLeases.QuietMeansTabled | src/capabilities/vm/service.rs:126-176 | when no call is in flight the guests never stopped are exactly those in the table, one per lease |
| VmLeases.StopWaitsForRuns | src/capabilities/vm/service.rs:409-413 | a guest is never stopped under a running execution |
| VmLeases.TakenOutIsStopped | src/capabilities/vm/service.rs:126-176 | what a stop takes out of the table, or a start replaces, is under no lease from then on, and once that call is over its machine was stopped and its guard released |
| VmLeases.TableFollows | src/capabilities/vm/service.rs:126-176 | a stop leaves nothing under its lease, a start its own guest, and nothing else changes the table |
| VmLeases.RunsTheLeasedGuest | src/capabilities/vm/service.rs:126-176 | an execution concerns the guest that was under its lease when it began, as long as it lasts |
| RustScan.LinesEqualOnePass | run-hygiene.js:76-137 | scanning line by line with the mode carried over finds exactly what one pass over the whole text finds |
| RustScan.LinesJoin | run-hygiene.js:67-67 | cutting the text into lines loses only the carriage returns before line breaks |
| RustScan.EveryBlockHasOneText | run-hygiene.js:81-118 | every block that opens yields exactly one text, in order and on its line, the unclosed one included |
| RustScan.OnlyCommentIsRecorded | run-hygiene.js:78-110 | a line of nothing but a comment has that comment recorded, whole and under its number |
| RustScan.ScanLine | run-hygiene.js:79-136 | one line, with the scanner's own jumps, records what the character-wise scan finds on it |
| RustScan.ScanRustLines | run-hygiene.js:66-140 | the lists record exactly what one pass finds; a line is marked exactly when it begins in code and leads with slashes |
| RustScan.ScanAgrees | run-hygiene.js:66-140 | block openings equal the lines of the block texts, and every marked line has its comment |
| RustLiterals.LiteralIsSkipped | run-hygiene.js:95-133 | a whole string, raw string with any number of hashes, or character literal is passed over: nothing in it is recorded and the scan goes on in code behind it |
| RustLiterals.NothingIsInvented | run-hygiene.js:76-137 | a text of literals and plain code has no comment recorded |
| RustLiterals.FirstRemarkIsFound | run-hygiene.js:107-110 | the first line comment outside of literals is recorded, with its text to the end of its line and that line's number |
| RustLiterals.FirstBlockIsFound | run-hygiene.js:81-118 | the first block outside of literals is recorded on its line, with its text up to the first close |
| RustLiterals.UnclosedBlockIsFound | run-hygiene.js:81-138 | a block that is never closed takes the rest of the text |
| RustLiterals.IndentedCommentIsMarked | run-hygiene.js:78-78 | a line that begins in code is marked when only blanks stand before its slashes |
| RustLiterals.InsideIsNotMarked | run-hygiene.js:78-78 | a line that begins inside of a literal or a block is not marked |
| RustLiterals.LongEscapeInventsABlock | run-hygiene.js:129-133 | a character literal escaped by number is not recognised: a string after it is taken for code |
| Builds.Builder.Finish | src/capabilities/builds/service.rs:125-153 | the state is written only after nothing was found missing; a refusal writes nothing |
| Builds.Builder.BuildOnHost | src/capabilities/builds/service.rs:178-268 | touches only its own module's directory and state; success means every entry is there and the state names what was there before the build; skipped exactly when the last build was for this target, from this declaration, these sources and providers |
| Builds.Builder.BuildOne | src/capabilities/builds/service.rs:486-579 | the same inside a guest |
| Builds.Builder.BuildInGuest | src/capabilities/builds/service.rs:426-483 | one result per plan, in order, commands run in plan order |
| Builds.Builder.PutBack | src/capabilities/builds/service.rs:418-422 | every empty slot takes the next built result, and there always is one |
| Builds.Builder.PlanBatch | src/capabilities/builds/service.rs:305-347 | exactly the modules whose last build was for this target, from this declaration, these sources and providers take no part; the rest are planned in order with their fingerprints |
| Builds.Builder.BuildWithGuest | src/capabilities/builds/service.rs:273-423 | one guest at most for the batch, down again on every path, results in the order asked for, exactly the modules still standing skipped, and every state naming what was there at the start |
| Builds.Builder.RunJobs | src/capabilities/builds/service.rs:158-175 | host or guest alike: one result per job, in order, exactly those skipped whose last build still stands, and every state naming what was there at the start |
| Builds.Builder.Fill | src/capabilities/builds/service.rs:647-660 | every built result goes to the slot it belongs to, and no slot stays empty |
| Builds.Builder.EnsureMany | src/capabilities/builds/service.rs:603-661 | fails, or gives one result per module in order with matching ids and every entry there; skips exactly the modules up to date at the start; a module that misses entries and cannot be built stops the batch before anything runs |
| Builds.Builder.Build | src/capabilities/builds/service.rs:663-676 | one module by its build section: skipped exactly when the last build was for this target and from what is there now |
| Builds.FilledInOrder | src/capabilities/builds/service.rs:647-660 | slots filled from the jobs' results are the results of all modules in order, and say truly which commands ran |
| Builds.DoneMore | src/capabilities/builds/service.rs:164-171 | a later build of another module leaves what earlier ones vouched for |
| Builds.SkipsExactly | src/capabilities/builds/service.rs:614-646 | a batch skips exactly what was up to date at its start |
| Rebuilds.StandsIffUntouched | src/capabilities/builds/detail/fingerprint.rs:55-76 | a state that an earlier build wrote stands later exactly when the target, the declaration, the sources and the providers are the same and no entry is missing |
| Rebuilds.BuildEditBuild | src/capabilities/builds/service.rs:108-123 | a build, an edit and a build: the second is skipped only for the same target, declaration and sources, and is skipped when nothing changed |
| Rebuilds.EnsuredIsUpToDate | src/capabilities/builds/service.rs:603-661 | after a batch came back every module is up to date |
| Rebuilds.EnsureTwice | src/capabilities/builds/service.rs:603-661 | ensuring a batch twice runs nothing the second time |
| Rebuilds.EnsureElsewhere | src/capabilities/builds/service.rs:631-646 | what was built for one target is not passed off as built for another |
| Rebuilds.EnsureShipped | src/capabilities/builds/service.rs:631-646 | a product that came with the module and has no state is taken as it is |

## Left out

- Workspace.Service.ReserveId: ids are unbounded numbers, without the wrap-around of 64 bits. A store with commits but no id counter, which no run of these operations reaches, is outside the consistency condition; what is given out there is `Runs.NoReuseIffCounterOrNewestKept`.
- Workspace.Service.WorkCommitUserFile: the order in which the refusals are looked for is not part of the contract, nor is it for the other operations.
- Workspace.Service.Materialize: files are visited in any order, where the code goes through them sorted; the contract holds for every order.
- Preservation.JournalCommit: the changes of a commit are a map from path to change, where the code has a list with one entry a path.
- Secrets.RedactionIsComplete: that a value which is not maskable can still be covered by another value of the same list (one that it contains, say) is not stated; the exact condition is about a value in every list it can be in.
- Versions.KeyOrderIsNumberOrder: names of different shapes are compared by the key alone; which of them is newer is not defined.
- Downloads.Downloader.DownloadWithResume: the size of a read and the buffer are not modelled, any split of the stream is allowed; addresses with white space at their ends are not sources.
- VmLeases.RunIsCoherent: a poisoned table lock, and a process that dies with guests running, are not modelled.
- Builds.Builder.EnsureMany: that every entry is there at the end, and which modules are skipped, is stated for modules that share no directory (and no id); with shared ones only the order, the ids and the states written are.
- Builds.Builder.FingerprintOf: a fingerprint is modelled by what it is computed from; that two inputs could be written out alike before hashing is not modelled, nor which files of a module count as sources.
- Builds.Builder.RunCommand: a build may change anything in its own module's directory and nothing in another's, which the fence is there for.
- Content hashing is injective by construction: a fingerprint is modelled by the content it stands for.
- Paths, symbolic links, file against directory, permissions: each area is a flat map from clean path to content, and a port write is one step, as atomic renaming makes it; only `write_work`, a plain write, can leave any bytes behind. Temporary files that a crash leaves in the shared area or in a sandbox are not modelled, those in the object directory are.
- Reads can fail but never return torn or stale data.
- Locks within and between processes, since operations on one workspace are serialized; owners edit their sandboxes, and outsiders an external workspace, only between operations, outsiders only while no recovery is pending.
- The read-only views: status, version and commit views, file previews, and the list of backups.
- Importing an existing folder and syncing all tracked files, which are sync with other lists of paths.
- Binding, preparing and discarding a workspace.
- Texts shown to people (which paths a refusal names, and how), and progress lines.
- Request headers, status classes other than success and partial content, and choosing a source.
- Choosing a share backend, booting, the guest agent, and translating mounts and commands.
- The findings the hygiene tool draws from the scanned comments.
- Planning build packages, guest scripts, the cache volume and its lock, the space check, and fences: each is a step that may fail.
- Everything else in the repository: sessions, prompts, model channels, settings, the command line and the web front end.
