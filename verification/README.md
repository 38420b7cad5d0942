# Verified model of the PBS configuration plugin

A Dafny model of the parts of the Proxmox Backup Server plugin whose
correctness is not visible from any one function: the crash-safe restore of
the server's configuration and its recovery, the capture it restores from, the
plans that enrol hosts, edit jobs and delete backups, the update of an
endpoint's secret, and the calendar and encoding functions under them.
`dafny verify dfyconfig.toml` checks all of it.

## How the system is modelled

**The volume** (`Volume`). A disk maps directory entries to inodes and inodes
to contents, mode and owner, so a hard link is two names of one inode. Every
system call is a function from a disk to a disk, or a refusal. A run is a
sequence of disks, and a crash keeps one of them.

**Faults** (`Kernels`). The calls of a run are numbered and an arbitrary
predicate says which of them fail although nothing is in their way. Theorems
hold for every such predicate, and the contracts of the restore, the recovery,
a plan's run and an endpoint's update say exactly which numbered calls must not
fail for them to succeed.

**The schedule** (`Schedules`, `Leftovers`). Which call of a restore has which
number is a function of the manifest and of the disk it starts from, so what a
pattern of faults leaves behind is stated on the pattern: the outcome of a
restore, and each leftover that it does not report, can be told beforehand.

**The restore** (`RestoreState`, `RestoreSteps`, `RestoreFrames`, `Chronicles`,
`Restore`). The class `Work` has the program's own fields and loops. A ghost
history records every disk it passes through; `Chronicle` says of all of them
that each can be recovered from, that a live file changes only under a marker
that admits it, that the phase only advances, and that while the marker says
`Swapping` every file can still be finished.

**Recovery** (`RecoveryPlan`, `PlanLimits`, `Recover`, `Rollback*`, `Finish*`,
`Afterwards`, `Crashes`, `PartialSwap`, `Settling`, `StuckRollbacks`,
`Switching`). The plan is a function of the disk; the class `Recovery` builds
it with the program's loops and applies it call by call. The theorems cover
what a plan may do on any disk at all, crashes in the restore, crashes of
recoveries repeated any number of times, and renames that reached the disk
independently of each other.

**Names, manifests and capture** (`Names`, `Paths`, `ManifestTree`, `DepthSort`,
`Scan`, `StringOrder`, `Capture`, `CaptureRestore`). File names are a datatype
in the restore and its recovery; `Names` shows that the program's spelling of
them and its parser give the same thing. A manifest's path strings are parsed
into the tree the restore works on.

**The reconcilers** (`Plans`, `Namespaces`, `Enroll`, `Converge`, `AclSteps`,
`EnrollTheorem`, `PlanItems`, `AclDigest`, `Contents`, `Deletes`, `Jobs`,
`Endpoint`). The server is a state with a transition for each call, and plans
are run against it; `Deletes` has a server of backup groups, by datastore,
namespace, type and id. A step is one datatype, generic in its call, shared by
enrolment and the delete verbs.

**Calendar and encoding** (`Calendar`, `Stamps`, `Encoding`). Dates over all
integers in the proleptic Gregorian calendar; percent-encoding of bytes
(sections 2.1 and 2.3 of RFC 3986).

## Findings

Properties that the code does not have. For each there is an input on which it
fails, and the exact condition under which it holds.

- **A failed clean-up is only logged, and the next restore is refused.** A
  failed restore that reports nothing left can leave `<marker>.next` behind
  (`Leftovers.LostUpdate`: calls 1 and 2 fail), and a successful one a set-aside
  original (`Leftovers.KeptOriginal`). Both are told from the faults beforehand:
  the update stays exactly when one of its writes, its fsync or its rename fails
  and the discard right after it fails too (`Schedules.LeavesUpdate`), the link
  exactly when its own discard fails (`Schedules.LeavesOriginal`); see
  `Restore.Materialize`.
- **A rollback can be stuck for good.** When a nested created directory has lost
  its parent, which a rollback that crashes does (`StuckRollbacks.NestedSticks`,
  from `StuckRollbacks.NestedInput`), or a created directory holds an added file,
  which every restore that adds one passes through (`StuckRollbacks.StuckOnTheWay`),
  the file steps go through and the directory steps never do
  (`StuckRollbacks.StuckForGood`). A rollback goes through exactly when the
  disk it starts from is `Clearable` (`Settling.RollbackSettles`).
- **Switching from finish to rollback loses originals.** After a finish that
  crashed once an install was renamed into place, a rollback takes the staged
  file for proof that the original is still there and removes its last name
  (`Switching.SwitchLoses`). The files that get their original back are exactly
  those for which `CanGoBack` holds (`Switching.SwitchExactly`,
  `Switching.SwitchedInTheEnd`).
- **A failed fsync of the `Swapping` record.** The record is on disk, the undo
  discards staged files under it, and a finish then completes without them
  (`Switching.UnsyncedLoses`). A restore ends that way only with a reported,
  unstranded failure (`Restore.Materialize`), and the theorems about finishing
  exclude it.
- **A file name that begins like a temp mark.** `orca-restore-a` passes every
  path check, but its temp file is read back under another name
  (`Names.MisleadingName`). A name is read back exactly when, with a dot before
  it, it contains no mark (`Names.TempReadsBack`, `Names.PrevReadsBack`).
- **An offset's second sign escapes the range check.** `+-20` is accepted as
  -72000 seconds (`Stamps.SignedDigitsSlipThrough`), and `+-2147483648` wraps
  around to 0, or panics where overflow is checked (`Stamps.HugeOffsetWraps`).
  An accepted offset is in range exactly as `Stamps.InRangeExactly` says, for
  either kind of build.
- **A namespace called `root` reads like the root namespace.** The item that
  confirms a group's delete is the same for both (`Contents.RootReadsAsRoot`);
  no other two namespaces share one.
- **A foreign ACL change in the middle of a run is overwritten.** Only the first
  ACL write of a run carries the digest. An enrolment revokes what another client
  has just granted (`AclDigest.SecondWriteLands`, `AclDigest.LateRevokeLands`). A
  change is seen exactly when the run made no ACL write before it or makes none
  after it (`AclDigest.LateWriterIsSeenIff`).

## Model

| member | source | states |
|---|---|---|
| Volume.OpensIffIsDir | src/config_backup.rs:358-370 | on a well-formed volume, walking a path one component at a time succeeds exactly when its last entry is a directory |
| Volume.DoKeepsWF | src/config_backup.rs:254-298 | every system call the restore makes leaves each entry inside a directory and each file's inode present |
| RestoreSteps.MarkerStep | src/config_backup.rs:1212-1224 | renaming the update over the marker replaces the record at once, keeps every disk invariant and moves the phase only forward |
| RestoreSteps.SwapStep | src/config_backup.rs:1302-1340 | under a marker that says `Swapping`, a staged file's rename keeps the marker truthful, leaves the original in its link and keeps every file finishable |
| RestoreSteps.PutBackStep | src/config_backup.rs:1323-1337 | renaming the set-aside link back restores the original inode and keeps the marker truthful |
| RestoreSteps.TempStep | src/config_backup.rs:1264-1276 | making, writing or discarding a temp file never invalidates the marker while the original is in place |
| RestoreSteps.PrevStep | src/config_backup.rs:1281-1296 | linking an original aside, or dropping that link, never invalidates the marker while the original is in place |
| RestoreSteps.DirStep | src/config_backup.rs:1236-1246 | making or removing a directory keeps the marker truthful because the directory is recorded in it |
| RestoreSteps.DisposeStep | src/config_backup.rs:1353-1359 | once the marker is gone, dropping a set-aside original leaves a restored disk |
| Chronicles.Append | src/config_backup.rs:1161-1185 | a sound step extends a history in which every disk is recoverable, phases only advance and live files move only under a marker that admits it |
| DepthSort.ParentsFirst | src/config_backup.rs:1231-1233 | sorting directories by depth keeps each once and puts every parent before what is in it |
| Restore.Work.WriteMarker | src/config_backup.rs:1192-1227 | the marker becomes the new record or stays the old one, on every disk on the way; it succeeds exactly when none of its calls fails, and the update stays behind exactly when it failed after the create and the discard failed too |
| Restore.Work.MakeDirs | src/config_backup.rs:1229-1248 | each directory is in the durable marker before it is made; where it stops is told by the first fault or the first non-directory in the way |
| Restore.Work.Stage | src/config_backup.rs:1250-1279 | success means every temp file holds the manifest's bytes, mode and owner; it fails only if a call does or the slot does not match |
| Restore.Work.SetAside | src/config_backup.rs:1281-1296 | success means every original is linked aside; it fails only if a call does or a non-file is in the way |
| Restore.Work.Swap | src/config_backup.rs:1298-1343 | all files are replaced, or what the undo can clean up is left, or the restore is stranded on a disk that can still be finished |
| Restore.Work.RollBack | src/config_backup.rs:1305-1340 | either the marker says `RollingBack` and what the undo can clean up is left, or the restore is stranded with its marker in place and every file can be finished; if no call fails from the record's on, every staged file is the original again and nothing is reported |
| Restore.Work.PutBack | src/config_backup.rs:1323-1337 | one replaced file is the original again exactly when its rename does not fail, and is reported otherwise; nothing else changes |
| Restore.Work.Finish | src/config_backup.rs:1345-1363 | whatever fails here, every file and directory is in place as the manifest says; it succeeds exactly when `GoesThrough` holds of the faults |
| Restore.Work.DisposeAll | src/config_backup.rs:1353-1359 | a set-aside original is left exactly when its own discard failed, and each of those is logged |
| Restore.Work.Undo | src/config_backup.rs:1365-1412 | an empty report means the tree is exactly as before the restore; otherwise a truthful marker still records what is left, or nothing is; if no call fails from here on and every file is the original, the report is empty |
| Restore.Work.Restore | src/config_backup.rs:1161-1185 | the whole restore over the object's state: what was in the way beforehand and which numbered calls fail decide whether it is done, and which update is left |
| Restore.Materialize | src/config_backup.rs:1080-1185 | all or nothing under any pattern of failing calls: done means everything restored and nothing else touched, a failure with nothing reported means nothing changed but a logged update, an unfinished one is restored, a stranded one can be finished, and any failure leaves a truthful marker or a clean tree; if no call fails after the first that does, a failed restore reports nothing, so nothing changed; the manifest, the start disk and the faults decide exactly whether it is done, whether an update is left and which originals are; every disk on the way is recoverable |
| Leftovers.LostUpdate | src/config_backup.rs:1213-1221 | the first update's write and its discard fail: the restore fails, reports nothing left, leaves the update, and the next one is refused |
| Leftovers.KeptOriginal | src/config_backup.rs:1353-1359 | the discard of any one set-aside original fails: the restore succeeds, that link stays, and the next restore is refused |
| Recover.Recovery.PlanFiles | src/config_backup.rs:1805-1867 | the loop over a marker's files pushes exactly the specified steps or returns the specified refusal |
| Recover.Recovery.MakePlan | src/config_backup.rs:1724-1913 | the loops build exactly the plan that the recovery theorems are about |
| PlanLimits.FinishNeeds | src/config_backup.rs:1766-1804 | a finish is planned only if every marker says `Swapping`, there is at most one, and the slot holds the manifest it recorded |
| PlanLimits.OnlyRollbackApplies | src/config_backup.rs:1774-1783 | on every disk that a truthful marker not saying `Swapping` describes, a finish is refused, whatever the slot |
| PlanLimits.NoFinishOutsideSwap | src/config_backup.rs:1774-1783 | so wherever a restore stops while staging or rolling back, a finish is refused |
| PlanLimits.PlanIsSafe | src/config_backup.rs:1805-1912 | on any disk, every step of a plan removes only listed names of the restore's own, moves only a set-aside file back to its name, installs only files of the slot from a staged copy, and removes only directories a marker records |
| PlanLimits.NoLiveFileGoes | src/config_backup.rs:1601-1643 | whatever the markers say and however far a recovery gets, no path that holds a file is left without one |
| Recover.StuckExactly | src/config_backup.rs:1746-1759 | recovery refuses to start exactly when something that is neither a file nor a symlink has one of its names |
| Recover.Recovery.Apply | src/config_backup.rs:1601-1643 | wherever a step stops, the disk is one its calls lead to, or that without the install's own file; a verified step whose calls are possible succeeds unless one of its numbered calls fails, and an install that fails while its file is filled leaves no such file |
| Recover.Recovery.Check | src/config_backup.rs:1583-1599 | a refusal is returned exactly when some staged file does not hash to the backup, and names one that does not |
| Recover.Recovery.Settle | src/config_backup.rs:1915-1982 | nothing changes unless the whole plan is verified; a finish changes nothing unless the one marker says `Swapping` and the slot is its backup; it succeeds exactly when `Settles` holds and none of its numbered calls fails, and then the plan ran and every file of a finish has the bytes, and with owners the mode and owner, it was captured with |
| Recover.StoppedRollback | src/config_backup.rs:1939-1957 | wherever a rollback stops, it can be rolled back again |
| Recover.StoppedFinish | src/config_backup.rs:1939-1957 | wherever a finish stops, it can be finished again |
| Rollback.FileBack | src/config_backup.rs:1828-1867 | the steps planned for one file put its original inode back and leave neither of its hidden names |
| RollbackDirs.LastGoesIff | src/config_backup.rs:1636-1639 | once its created subdirectories are gone, a created directory can be removed exactly when nothing else is in it |
| RollbackDirs.DirsGo | src/config_backup.rs:1894-1902 | the directory steps go through exactly when the created directories hold nothing but each other, and remove just those |
| RollbackTheorem.PlanIsTheMarkers | src/config_backup.rs:1749-1912 | with one marker on disk the plan is that marker's steps followed by the leftovers no marker owns |
| RollbackTheorem.RollbackRestores | src/config_backup.rs:1805-1912 | from any marked disk the file steps put every original inode back; the rest goes through exactly when that disk is `Clearable`, and then no leftover remains; a crash anywhere leaves a disk this applies to again |
| Crashes.CrashedRollbacks | src/config_backup.rs:1924-1957 | any number of rollbacks, each cut after any call, leave a disk that can be rolled back |
| Crashes.RescuedInTheEnd | src/config_backup.rs:1805-1867 | after a crash of a restore anywhere while its marker is on disk, and any number of crashed rollbacks, the next one's file steps put every original back; restore-added files are named by a keep step and nothing else differs |
| Crashes.RescuedFrom | src/config_backup.rs:1805-1867 | the same from any disk that a truthful marker describes |
| Crashes.RollbackAfterwards | src/config_backup.rs:1906-1912 | a rollback whose marker is already gone clears what is left and moves no live file |
| Crashes.RecoveryTidies | src/config_backup.rs:1868-1912 | from every disk a restore or its rollbacks can leave, the next rollback is not refused and, when it goes through, no leftover remains |
| Afterwards.OverAfterwards | src/config_backup.rs:1906-1912 | after a restore's marker is gone, either recovery action keeps every file and leaves no leftover |
| FinishRecovery.SwapWindow | src/config_backup.rs:1298-1343 | every crash in the swap window is a disk a finish can start from, with every file accounted for |
| FinishRecovery.StageInstall | src/config_backup.rs:1616-1626 | an install's own file holds the verified bytes, mode and owner before its name is used, and a finish can start again after each call |
| FinishTheorem.InstallGoes | src/config_backup.rs:1616-1632 | none of an install's calls is refused, and the live file then holds the manifest's bytes |
| FinishTheorem.FinishCompletes | src/config_backup.rs:1805-1912 | a finish from any point goes through; every staged file is installed, files already in place keep their inode, and all files are as the manifest says exactly when those no longer staged already were |
| FinishCrashes.FinishIsChecked | src/config_backup.rs:1939-1945 | a finish is checked as a whole: it is verified exactly when every file still staged hashes to the backup |
| FinishCrashes.OnlyItsBackup | src/config_backup.rs:1671-1705 | a finish is refused unless the slot's manifest is the one the marker recorded |
| FinishCrashes.CrashedFinishes | src/config_backup.rs:1924-1957 | any number of crashed finishes leave a disk that can be finished |
| FinishCrashes.FinishedInTheEnd | src/config_backup.rs:1805-1982 | after a crash in the swap window and any number of crashed finishes, the next one passes its check, goes through, and leaves every path as the manifest says and no leftover |
| PartialSwap.AnySubsetPersists | src/config_backup.rs:1302-1341 | any of the remaining swap renames, in any order, succeed and leave a disk in the swap window |
| PartialSwap.SubsetRescued | src/config_backup.rs:1302-1341 | for every disk in a run's swap window and every list of files still staged, the disk after those renames is put back by a rollback |
| PartialSwap.SubsetFinished | src/config_backup.rs:1302-1341 | and completed by a finish |
| PartialSwap.ScatteredRescued | src/config_backup.rs:1302-1412 | if each file's renames reached the disk up to a moment of its own, while swapping, putting back or cleaning up, a rollback still puts every original back |
| PartialSwap.ScatteredFinished | src/config_backup.rs:1302-1343 | and within the swap window a finish still completes |
| Settling.FinishSettles | src/config_backup.rs:1915-1982 | without a fault a finish succeeds from every disk in the swap window and from every crashed finish, its final verification included |
| Settling.RollbackSettles | src/config_backup.rs:1894-1957 | without a fault a rollback succeeds exactly when no created directory has lost its parent or holds anything but created directories and hidden names |
| Settling.RollbackSettlesAfterwards | src/config_backup.rs:1906-1957 | without a fault a rollback whose marker is gone always succeeds |
| Switching.SwitchExactly | src/config_backup.rs:1828-1858 | rolled back from any point of a finish, all file steps go through, the files that get their original back are exactly those that could still go back, and of the others no name is left |
| Switching.SwitchedInTheEnd | src/config_backup.rs:1828-1858 | the same after a crash in the swap window and any number of crashed finishes, as long as the marker is there |
| Switching.SwitchLoses | src/config_backup.rs:1616-1632 | a finish that crashed after its first rename: every rollback from there loses that file's original |
| StuckRollbacks.NestedSticks | src/config_backup.rs:1636-1639 | from any marked disk with nested created directories that can be cleared, a rollback that crashes before the marker goes leaves one that cannot |
| StuckRollbacks.NestedInput | src/config_backup.rs:1229-1248 | such a disk: two nested directories made, the marker still staging |
| StuckRollbacks.AddedFileSticks | src/config_backup.rs:1858-1866 | a run that adds a file to a directory it makes passes through a disk whose rollback is stuck |
| StuckRollbacks.StuckOnTheWay | src/config_backup.rs:1080-1185 | so does every restore that succeeds in adding one |
| StuckRollbacks.CutStaysStuck | src/config_backup.rs:1894-1957 | a rollback of a stuck disk, cut after any call, leaves a stuck disk |
| StuckRollbacks.StuckForGood | src/config_backup.rs:1894-1957 | after any number of rollbacks, however they end, the next one still does not succeed |
| Switching.UnsyncedLoses | src/config_backup.rs:1222-1227 | the run in which the `Swapping` record's fsync failed and a staged file was discarded: a finish then leaves that file as it was |
| Names.TempReadsBack | src/config_backup.rs:1448-1455 | a temp file's name is read back exactly when the dotted base holds no temp mark |
| Names.PrevReadsBack | src/config_backup.rs:1448-1455 | a set-aside link's name is read back exactly when neither part holds a mark that comes first |
| Names.ReadsBack | src/config_backup.rs:1442-1467 | every name of the restore's own is recovered from its spelling |
| Names.SpellingIsInjective | src/config_backup.rs:51-55 | temp, set-aside, install, marker and update names never collide |
| Names.OwnNamesAreSkipped | src/config_backup.rs:87-89 | every such name is skipped by a capture and found by the leftover walk |
| Names.TransientExactly | src/config_backup.rs:87-89 | a capture skips exactly the names that begin with a dot, end in `.lock` or contain `.bak-` |
| Names.PlanReadsNames | src/config_backup.rs:1448-1463 | the parser on strings agrees with what the recovery plan reads |
| Names.MisleadingName | src/config_backup.rs:1448-1455 | a file name that passes every check and is misread |
| Paths.ParsesBack | src/config_backup.rs:372-382 | rendering a path and parsing it again gives the path |
| Paths.RenderedIsChecked | src/config_backup.rs:626-635 | every path of safe components passes the path check |
| Paths.CheckedParses | src/config_backup.rs:626-635 | a string that passes the check is the rendering of a non-empty path of safe components |
| ManifestTree.Validate | src/config_backup.rs:541-587 | the loops accept exactly the valid listings, and each error describes a defect that is there |
| ManifestTree.ValidIffTree | src/config_backup.rs:541-587 | a listing is valid exactly when its version, modes and sizes are allowed and its paths name a tree: none twice, none both file and directory, every parent listed |
| Scan.Walk.Into | src/config_backup.rs:682-705 | the walk finds every non-transient file and directory under the entry once, or stops at one nested too deep |
| Scan.SeenFileExactly | src/config_backup.rs:682-705 | what counts as seen: a file none of whose components is skipped and all of whose parents are directories |
| Capture.ReadOnce | src/config_backup.rs:803-847 | a capture succeeds exactly when the tree is shallow enough, complete and within both caps; it then lists exactly what is seen, sorted, each file with the bytes, size, permission bits and owner of its inode; every refusal is explained |
| Capture.SortedParentsFirst | src/config_backup.rs:674-680 | in string order every directory comes before what is in it |
| CaptureRestore.CapturedIsValid | src/config_backup.rs:541-587 | every captured manifest passes validation and is read back as the tree that was captured |
| CaptureRestore.RoundTrip | src/config_backup.rs:752-1185 | whatever can be captured is restored into an empty directory: the disk then shows the same directories and files, each file with the bytes and permission bits of its inode in the source, and its owner when those are restored; and it can be captured again, giving the same manifest |
| Calendar.Successor | src/times.rs:114-127 | for every integer the result is a real date and the next integer's date is the next day |
| Calendar.EpochDay | src/times.rs:114-127 | day 0 is 1970-01-01 |
| Calendar.DaysOfDate | src/times.rs:114-127 | the explicit inverse gives the day back |
| Calendar.DateOfDays | src/times.rs:114-127 | every real date is the date of its day number |
| Calendar.Monotone | src/times.rs:114-127 | later days have later dates |
| Stamps.SortsAsEpochs | src/times.rs:97-112 | for a fixed offset and years 0 to 9999, printed timestamps sort as strings as their epochs do |
| Stamps.OffsetReadsBack | src/times.rs:73-112 | a printed whole-minute offset up to 14:59 parses back to itself |
| Stamps.SignOrUtc | src/times.rs:73-83 | without a sign exactly `Z`, `z` and `UTC` are read, and mean what the printed offset of UTC means |
| Stamps.SignsAreRead | src/times.rs:84-92 | a plus sign in front of digits changes nothing, a minus sign negates, and 32 bits are the limit |
| Stamps.PadNegative | src/times.rs:97-112 | in a zero-padded field the sign takes one place of the width |
| Stamps.ReadsEpochBack | src/times.rs:73-112 | the printed fields and the parsed offset give the epoch back |
| Stamps.SignedDigitsSlipThrough | src/times.rs:84-95 | an accepted offset far out of range, in either build |
| Stamps.HugeOffsetWraps | src/times.rs:84-95 | an offset that wraps around to zero, or panics when overflow is checked |
| Stamps.InRangeExactly | src/times.rs:84-95 | an accepted offset is in range exactly when the seconds of its two parts are not too far below zero or, unless overflow is checked, come within range by whole turns of 2^32 |
| Stamps.UnsignedIsInRange | src/times.rs:84-95 | an accepted offset without a second sign is in range |
| Encoding.Encode | src/client.rs:392-404 | the byte loop computes the percent-encoding |
| Encoding.DecodesBack | src/client.rs:392-404 | decoding gives the bytes back |
| Encoding.EncodedIsPlain | src/client.rs:392-404 | the output holds only unreserved characters and escapes |
| Encoding.UnreservedExactly | src/client.rs:392-404 | a byte is left as it is exactly when it is a letter, a digit or one of `-_.~` |
| Encoding.QueryDecodesBack | src/client.rs:406-412 | splitting an encoded query and decoding its parts gives every list of pairs back |
| Encoding.QueryIsPlain | src/client.rs:406-412 | a query holds nothing but encoded text and its separators |
| Plans.KeptExactly | src/plan.rs:215-236 | confirmation keeps exactly the planned steps that were echoed, in plan order |
| Plans.DroppedExactly | src/plan.rs:215-236 | and names exactly the echoed items that no planned step has |
| Plans.DriftExactly | src/plan.rs:237-255 | an execute run is refused exactly when an echoed item with a `#` is that of no planned step |
| Plans.Client.RunWith | src/plan.rs:168-213 | the calls made are those of the steps up to the first that fails, all of them exactly when none does, and a failure names exactly the items applied before it |
| Plans.Client.PlanOrApply | src/plan.rs:286-316 | no call without an administrator, an execute flag and a confirmation; otherwise the kept steps' calls and no others, and it succeeds exactly when none of those fails |
| Plans.Client.DeleteConfirmed | src/plan.rs:215-316 | no call at all on drift, every call made belongs to a planned step whose item was echoed, and what is reported is what was kept and dropped |
| Namespaces.MissingChain | src/api.rs:408-424 | the loop computes the missing prefixes of a namespace, each with its parent |
| Namespaces.PartsExactly | src/api.rs:408-424 | a namespace is read by its separators, empty parts dropped |
| Namespaces.CreatesMissing | src/api.rs:408-424 | running that chain is never refused, creates exactly the missing prefixes, and leaves nothing to plan |
| Namespaces.ChainResumes | src/api.rs:408-424 | stopped after any of its steps, what is planned next is exactly the rest |
| Contents.GroupDeleteSteps | src/groups.rs:211-262 | the loop plans one delete for each datastore that holds the group, with the namespace in its query, the counts just read in its item, and a note for each that does not |
| Contents.GroupStepsBound | src/groups.rs:211-262 | the steps are those of the datastores that hold the group, and no others |
| Contents.StepsExactly | src/groups.rs:211-262 | every step's call names the datastore, the type, the id and the namespace, its item the same and the counts of the first such group read there; every datastore that holds the group has one |
| Contents.FindsFirst | src/groups.rs:218-226 | the group found is the first of its type and id, and none is missed |
| Contents.NotedIffKept | src/groups.rs:211-262 | a datastore is in a note exactly when no step deletes anything from it |
| Contents.ConfirmsSameGroup | src/groups.rs:214-262 | an item echoed from one read confirms a delete planned from another only if count and last backup are the same |
| Contents.RootReadsAsRoot | src/groups.rs:114-123 | two namespaces share an item exactly when they are the same, or one is the root and the other is called `root` |
| Contents.SignedReads | src/groups.rs:240-248 | a last backup is written with a minus sign exactly when it is negative |
| Contents.FingerprintInjective | src/api.rs:364-370 | equal fingerprints mean equal contents |
| Contents.ConfirmsSameContents | src/tools.rs:488-527 | a namespace delete is confirmed only by the item that names what it holds now |
| Contents.ReadContents | src/api.rs:381-406 | the loops add up exactly the groups of the namespace's subtree |
| Contents.ContentsAreTotals | src/api.rs:355-406 | what is added up is the number of groups, the number of snapshots and the latest backup |
| Contents.NewBackupChangesFingerprint | src/api.rs:364-406 | one more snapshot in the subtree always changes the fingerprint |
| Contents.GroupDelete | src/groups.rs:278-325 | every call made deletes the group asked for, from the namespace asked for, as it was just read, under an echoed item that says so; if any echoed item drifted there is no call; the result says what was kept, noted and dropped |
| Contents.NamespaceDelete | src/tools.rs:452-485 | the only call deletes a namespace whose contents, just read, are those its echoed item names, and takes groups with it only when asked to |
| Deletes.OnlyConfirmedGroupsGo | src/groups.rs:206-325 | on a server of groups, whichever of the calls arrive: every group that is gone is the one asked for, in its namespace, with the count and last backup an echoed item names; no other group and no namespace changes |
| Deletes.ConfirmedGroupsGo | src/groups.rs:206-325 | when all arrive, exactly the groups of the datastores read that an echoed item names are gone |
| Deletes.NamespaceGoesAsNamed | src/tools.rs:452-527 | a namespace delete takes nothing, or the namespace with all below it, and groups only when asked to; then an echoed item names the number of groups that go, their snapshots and their last backup |
| Deletes.NamedNamespaceGoes | src/tools.rs:452-527 | when its item was echoed and the call arrives, the namespace is gone, unless its groups were to be spared and it holds some |
| Enroll.DiffEnroll | src/enroll.rs:219-414 | the loops compute the specified plan, or refuse an unmanaged user |
| EnrollTheorem.RefusedExactly | src/enroll.rs:132-141 | an enrolment is refused exactly when a user of that name lacks the marker and may not be adopted |
| EnrollTheorem.NothingPlannedIff | src/enroll.rs:219-414 | nothing is planned exactly for a host that is enrolled, in so many words, and whose secret orca holds |
| Enroll.ScopeExactly | src/enroll.rs:68-78 | an ACL is in scope exactly when it grants an enrol role on this host's namespace in some datastore |
| Enroll.GrantsAreInScope | src/enroll.rs:64-78 | nothing an enrolment grants would be revoked by it |
| EnrollTheorem.ConvergesInTwo | src/enroll.rs:219-414 | from any state of a managed host the whole plan runs, touches nothing but the host's own entries, and leaves the namespace, the marked and active user and token, both roles for both ids and no other entry of theirs; re-planning is empty, or one regenerate after which it is and the secret is held |
| EnrollTheorem.Resumes | src/enroll.rs:219-414 | stopped after any prefix, re-planning gives exactly the remaining steps |
| EnrollTheorem.UnstoredMintIsRegenerated | src/enroll.rs:637-657 | a minted secret that was not stored comes back as a regenerate before the remaining steps |
| EnrollTheorem.GrantsAndRevokesDisjoint | src/enroll.rs:205-414 | no ACL entry is both granted and revoked, and only the host's own are revoked |
| PlanItems.PlanTells | src/enroll.rs:219-414 | every item says what its step's call does, a comment marks this host's user, and exactly the responses with a secret are marked as sensitive |
| PlanItems.ItemsAreUnique | src/enroll.rs:185-196 | no two steps of a plan have the same item, so an echoed item confirms one step |
| AclDigest.StampAclDigest | src/enroll.rs:205-217 | the digest goes on the first ACL write and no other step changes |
| AclDigest.NeverRefusesItself | src/enroll.rs:205-217 | without another writer no write of a run is refused for its digest, whichever steps were confirmed |
| AclDigest.NeverOverwritesOthers | src/enroll.rs:205-217 | if the ACL file changed since it was read, no ACL write of the run lands |
| AclDigest.LateWriterIsSeenIff | src/enroll.rs:205-217 | a change between two steps is seen exactly when no ACL write came before it or none comes after it |
| AclDigest.LateWriterRun | src/enroll.rs:205-217 | what the rest of the run does in either case |
| AclDigest.LateRevokeLands | src/enroll.rs:205-217 | after a plan's first ACL write, whatever another client makes of an entry the plan revokes, the run goes through and the entry is gone |
| AclDigest.SecondWriteLands | src/enroll.rs:205-217 | for every host: the planned run grants, another client writes the stray entry anew, and the run revokes it and ends with nothing to plan |
| Endpoint.NeverMixed | src/endpoint.rs:267-357 | in every state on the way a new token id is never beside an old secret |
| Endpoint.Update.Apply | src/endpoint.rs:267-357 | nothing is written unless the update is valid; whichever write fails every state is safe, what is reported has landed and the staged copy survives; without a fault the update is reached, all its fields are reported in order and the staged copy is gone |
| Endpoint.FieldsExactly | src/endpoint.rs:285-303 | a field is reported exactly when its argument is given, and then it alone changes, to that argument |
| Endpoint.StagedExactly | src/endpoint.rs:155-167 | a secret is taken only from this endpoint's own staging place, and only if it is there and not blank |
| Endpoint.RunsAgain | src/endpoint.rs:267-357 | after any failure the same update can be run again and is for the same goal |
| Jobs.UpdateSteps | src/jobs.rs:181-229 | the loops compute the specified update call |
| Jobs.PlannedIffDifferent | src/jobs.rs:142-229 | an update is planned exactly when a field differs or a cleared one is set |
| Jobs.OnlyDifferencesAreSent | src/jobs.rs:142-229 | the call carries exactly the fields that differ, each as desired, exactly the cleared keys that are there, and the digest |
| Jobs.LeastUpdate | src/jobs.rs:142-229 | no request could say less: every one that reaches the same fields sets and clears whatever this one does |
| Jobs.UpdateReaches | src/jobs.rs:181-229 | applying it reaches the desired fields, leaves every other one, every other job and the other kind of job alone, and re-planning is empty |
| Jobs.StaleUpdateIsRefused | src/jobs.rs:181-229 | an update planned from another version of the job is refused by the server |
| Jobs.CreateThenEnsure | src/jobs.rs:761-772 | a create makes a job of its own kind with just those fields, and ensuring them then plans nothing |
| Jobs.EnsureReaches | src/jobs.rs:761-772 | from any state one call at most reaches the fields and changes nothing else, and ensuring again plans nothing |
| Jobs.RefusedExactly | src/jobs.rs:153-195 | a create is refused exactly when the id is taken, an update when it is not, and ensuring never |

## Left out

- Restore.Work.Finish: directory modes, which `apply_dir_meta` sets after the marker is gone and so outside what a crash can be recovered from, are not modelled; directories have no mode.
- Recover.Recovery.MakePlan: recovery's chmod steps for directories are not modelled either.
- Recover.Recovery.Settle: after a finish hashes, and modes and owners of files when owners are restored, are checked; the list of required files, orphan tokens and directory owners are not.
- FinishCrashes.OnlyItsBackup: slot trust is not modelled: which directory a backup slot may lie in, its checksum and the instance name; the slot's manifest and bytes are parameters.
- Capture.ReadOnce: directories' modes and owners, the stamps and the instance and source fields are not part of the manifest; locks, the second reading after a change and writing the payload to disk are not modelled, and the source does not change while it is read.
- Schedules.LeavesUpdate: numbers the model's calls; `write_all` counts as two writes, the first of which may be torn, and the fsyncs of several directories as one call.
- PlanItems.ItemsAreUnique: assumes that role names hold no space and that the server lists an entry once.
- Deletes.OnlyConfirmedGroupsGo: what was read is what the server holds when the calls arrive; a backup that finishes in between goes too, as the source says.
- Names.ReadsBack: assumes base names and tags without the restore's marks; the finding about names says what happens otherwise.
- EnrollTheorem.Resumes: assumes that a held secret is not found rejected once its account is active again; `ConvergesInTwo` says what happens when it is.
- The depth limit of the leftover walk: recovery is given every leftover, however deep.
- Several restores at once: a plan for any number of markers is defined and computed, but the theorems are about the one restore a volume can have.
- Symlinks and device nodes occur as entries that are in the way or are removed; opening through them is not modelled.
- Inode numbers are never reused, so an original and a new file cannot be mistaken for each other.
- JSON and SHA-256: markers and manifests are values, and the hash is taken to be injective.
- Text is a sequence of characters without Unicode details; integers are unbounded except where an offset is parsed. Trimming before an offset is parsed is not modelled.
- Revoking a host (`diff_revoke`), findings and notes as text, and a probe of the held secret that itself fails are not modelled.
- The time does not pass between two rounds of an enrolment, so nothing expires in between.
- HTTP, TLS, command-line arguments, list and detail verbs, datastore health, pruning and garbage collection are not modelled.
