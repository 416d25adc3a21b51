# PortCloak, modelled and proved in Dafny

PortCloak captures and restores Keycloak realms. It keeps a home folder with a
configuration file, job records, working directories and inspection indexes, and
several of its processes, a window and any number of `pcloak` commands, work on
that folder at once. This project models the parts of it where something can go
wrong between two steps, and proves what holds of every step and every run.

`dafny verify dfyconfig.toml` checks everything.

| file | what it is about |
|---|---|
| `Claims.dfy`, `HomeProtocol.dfy`, `HomeSafety.dfy` | the advisory lock, and any number of processes over one home folder: sweeps, claims, jobs, open snapshots, discards, resumes, purges, crashes |
| `HomePurge.dfy` | clearing working data by hand: exactly what goes and what is kept |
| `HomeRuns.dfy` | runs from an empty folder in which one process takes what another is using |
| `EditHistory.dfy` | who edits `config.yaml` when, and whether an edit is ever lost |
| `ConfigModel.dfy`, `Validation.dfy` | the configuration as a value, its fifteen edits, and what validation asks of the whole |
| `ConfigMeaning.dfy` | what each edit does, told entry by entry |
| `ConfigSlices.dfy`, `ConfigEdits.dfy`, `ConfigStore.dfy` | the same edits on the heap: slices over shared arrays, pointers to stamps, jump hosts and presets, the cached store and its file |
| `AtomicWrite.dfy` | replacing a file through a temporary one, with a power loss possible after any step |
| `Paths.dfy`, `Links.dfy`, `Relocation.dfy`, `CopyWalk.dfy`, `MoveTree.dfy`, `MoveLosses.dfy` | choosing another home folder and moving the tree there, on a file system with symbolic links; when that is safe, and how it loses the tree when it is not |
| `JobLog.dfy`, `LiveTail.dfy` | the bounded log with a cursor, against the unbounded history and a polling client; and the screen, which also hears the event stream |
| `Ledger.dfy` | the partial-failure ledger and the phase lists of a job |
| `Decimal.dfy`, `ExportLayout.dfy`, `PadUserFiles.dfy`, `ReadLayout.dfy` | the files of an export, their classification and their renaming |
| `Ldif.dfy`, `Base64.dfy` | distinguished names and LDIF lines of the seed data, and the readers that undo them |
| `Lists.dfy`, `Numbers.dfy`, `Pagination.dfy` | nil lists, the fixed-buffer integer printer and the binary unit loop, page numbers |
| `Prelude.dfy` | shared datatypes |

## How to read the models

**The home folder.** A state holds the processes, the kernel's table of claims
(one per open file description), the job records, the working directories, the
indexes, and `config.yaml` told by the edits it carries. A run is any sequence of
steps, each enabled in the state it is taken in; a sweep is many steps, each of
which may fail, and a process may crash between any two. Assumptions: releasing a
claim and leaving is one step, because `Close` gives the claim back before the
process is gone; there is one window, which is what `SingleInstance` is for; the
window edits the configuration under its shared claim and a command only under an
exclusive one; a job's name is made up for it, and nobody else has had to do with
it. Which process runs a job is known to the process only, not recorded. A purge,
a discard and a resume read the records in one step and act in later ones, without
looking again; what they read is kept in the process until then.

**The configuration.** YAML encoding and decoding are parameters with one law,
that decoding undoes encoding. What is asked of a single entry is a parameter
too. Every change of the cached store is made on the heap as the code makes it,
and proved to be the change of the value model. `copiesKeys` is false for the
code as it stands; with true the clone copies the keys as well.

**Files.** Temporary names, file numbers and faults are the environment's choice
and are parameters or nondeterministic choices. A ghost trace holds every state a
crash could find. A path is followed from the root as the system does it, every link on
the way included; what a link says is a clean absolute path. `faulty` says whether
anything may fail, `stuck` whether a removal may, `crossDevice` whether source and destination are on two file systems,
`limit` is the deepest path the system takes.

## Where the code and its own words differ

- `internal/engine/config/lock.go:43-47` says the claim protects the
  read-modify-write of `config.yaml`. The file is read at
  `internal/cli/context.go:67`, before the claim at line 80, so an edit can be
  lost (`EditHistory.LoadThenClaimLosesAnEdit`).
- The same comment lists two things that are unsafe between processes. Clearing
  working data by hand is a third: it keeps only its own process's open snapshots
  (`HomeSafety.PurgeReachesAcross`, `HomeRuns.PurgeTakesAnOpenSnapshot`). So is a
  second session of one snapshot,
  which shares the first one's directory and takes it away when it closes or
  fails to open (`HomeSafety.OthersAreSpared`).
- A discard reads the record, refuses a job that is running, and may then spend a
  minute on the remote side before it removes the directory and the record
  (`internal/app/jobs_controller.go:261-305`). A job that another process resumes in
  between loses both while it runs (`HomeRuns.DiscardTakesARunningJob`). Two resumes
  that both read the record as interrupted both run the job, one overwriting the
  other's record (`internal/engine/orchestrator/resume.go:75-109`,
  `HomeRuns.ResumeOverwritesARunningJob`). `HomeSafety.WhenAJobIsOutOfReach` says
  exactly when a running job is safe from all of these.
- `internal/app/engine.go:418-426` calls reopening an open snapshot ordinary and
  closes the earlier session for it. They share one directory, so the session
  that stays open has lost its files (`HomeSafety.ReopeningLosesTheDirectory`).
- `cloneConfig` is called deep enough, but shares the keys. A deletion of a key
  that then fails to be saved leaves the cache with a key twice, and from then on
  every update of anything but keys is rejected, until the file is read again
  (`ConfigStore.FailedDeletionBlocksEdits`).
- `SaveEnvironment` clears the Test result when a field that matters changed, it
  says; it also does so whenever there is a jump host, or a resource preset that is
  not the stored object itself, because the comparison prints their addresses
  (`ConfigModel.SavingUnchanged`). What the window saves is decoded afresh, so its
  preset never is that object.
- Validation says exactly one storage can be the default; the code keeps at most
  one, for `SaveStorage` can clear the flag (`ConfigModel.EditKeepsDefaults`).
- `CheckDestination` refuses a destination in the home, so that no move is begun that
  cannot keep the tree. It compares the two paths as they are written, and nothing
  resolves links. A destination in the home that is named by a link to it is accepted,
  copied into the home and removed with it; a home that is itself a link is not copied
  at all across file systems, and its link is removed; and a destination reached by a
  link inside the home cannot be reached any more. Each time the move reports success
  (`MoveTree.Volume.CheckAndMove`, `MoveLosses.IntoTheHomeByALink`,
  `MoveLosses.ByAHomeThatIsALink`, `MoveLosses.ByAWayInTheHome`).
- `internal/app/relocate.go:69-70` says that after a failed move the tree is
  still whole at the old location. After the copy has succeeded and the removal
  of the source has failed half way it is whole only at the new one
  (`MoveTree.PartialRemovalIsNotWholeAtSource`).
- `Rebind` that fails to load keeps the old folder's configuration cached for the
  new folder, where the next saved edit replaces the file that could not be read
  (`ConfigStore.Store.Rebind`, `ConfigStore.Store.Update`).
- `frontend/src/pages/activity/live.ts:115-118` says that what arrives while a
  request is in flight is covered by the next one. An empty answer covers nothing,
  so a job's last line can be shown twice for good, unless what is heard comes to fill
  the screen (`LiveTail.TwiceForGood`, `LiveTail.WhenItIsForGood`,
  `LiveTail.LastLineCanShowTwice`). Overlapping requests can also hand lines over
  twice (`LiveTail.OverlapRepeats`, `LiveTail.OverlapShowsALineTwice`).
- `itoa` prints the least 64-bit integer as a lone sign (`Numbers.Itoa`).

## Model

| member | source | states |
|---|---|---|
| Claims.GrantKeepsExclusion | internal/engine/config/lock_unix.go:17-30 | a claim is granted without waiting if and only if no exclusive claim comes to stand beside another one by it |
| Claims.SweepThenHold | internal/cli/context.go:73-85 | housekeeping, then the claim: each happens exactly when nothing held conflicts and nothing fails, which only a faulty system lets happen, the sweep is never in the way of the claim, and every other claim is as it was |
| Claims.HoldThenSweep | internal/cli/context.go:73-79 | in the other order the housekeeping never runs, whatever the claim: a process that holds the folder, even shared, is in its own way |
| Claims.Acquire | internal/engine/config/lock.go:91-132 | each call is a handle of its own; the claim is won exactly when nothing held conflicts and nothing fails, on a system that is not faulty whenever nothing conflicts; it is then in the kernel's table, and a refusal leaves the table alone |
| Claims.Sweep | internal/engine/config/lock.go:145-152 | the housekeeping runs exactly when nobody holds the folder and opening it does not fail, under one exclusive claim and no other, and every claim is afterwards as it was |
| Claims.Lock.Release | internal/engine/config/lock.go:155-166 | gives back this claim and no other; a second release changes nothing |
| HomeProtocol.InvAlways | internal/engine/config/lock.go:91-166 | in every run of any number of processes, crashes included: claims and the kernel's table agree; only a process with its own claim has snapshots open, jobs running, records read for a discard or a resume, or a purge under way; and the job list a sweep works from is still the recorded one |
| HomeProtocol.ClaimsStayAgreed | internal/engine/config/lock.go:40-47 | every kind of step keeps every process's claim in the kernel's table, on a handle of its own, and exclusion with it |
| HomeProtocol.SweepStaysCurrent | internal/engine/config/jobs.go:287-306 | while a sweep runs, no step of anybody changes a job record behind its list |
| HomeProtocol.SweepStaysTidy | internal/engine/inspect/session.go:540-594 | as long as a sweep meets no error, what it has not yet visited covers every index and directory there is |
| HomeSafety.ExclusiveIsAlwaysAlone | internal/engine/config/lock.go:52-57 | a process that holds the folder exclusively, for a sweep or by its own claim, is in every reachable state the only one that holds it |
| HomeSafety.NoSweepBeside | internal/app/engine.go:467-483 | beside a process that holds its claim nobody can begin a sweep or take a step of one |
| HomeSafety.OthersAreSpared | internal/app/engine.go:458-466 | no step of another process touches a live process's claim, sessions or tasks; a directory or index goes if and only if the step is one that Takes lists, a record changes only by one that Writes lists, and no step of a sweep is among them |
| HomeSafety.LiveProcessIsSpared | internal/app/engine.go:446-504 | over any stretch of any run in which a live process takes no step itself: what it has open and to do stays, and every directory and index stays unless one of the steps that Takes lists takes it |
| HomeSafety.LiveJobIsSpared | internal/app/engine.go:446-504 | over any such stretch a job that nobody else runs, or has read the record of without having acted on it, keeps its record, and its directory too as long as every purge lists it |
| HomeSafety.StepMakes | internal/engine/inspect/session.go:99-112 | and a directory or index comes to be there if and only if the step is one that Makes lists |
| HomeSafety.WhatIsWritten | internal/engine/config/jobs.go:287-319 | a step that writes a record leaves there the job as it was started, as it was updated to, or, resumed, as it was read with the state running; a discard and a purge leave none; and a process runs a job it updated exactly while that is queued or running |
| HomeSafety.LeavingFreesTheFolder | internal/engine/config/lock.go:155-166 | however a process leaves, a crash included, its claim is free, and so is the place of the window, and nobody else is touched |
| HomeSafety.WhoMayEdit | internal/engine/config/lock.go:40-47 | a process can commit an edit if and only if it is the window or holds the folder exclusively; and one that becomes the window then can |
| HomeSafety.SweepsOrSkips | internal/engine/config/lock.go:145-152 | a process that has started can sweep if and only if nobody holds the folder, and goes on without, unless something fails, if and only if somebody does |
| HomeSafety.WhatCanBeDone | internal/app/engine.go:446-504 | a process can crash at any time; one that holds its claim can leave, and open and read what it likes |
| HomeSafety.StartedAlone | internal/engine/orchestrator/orchestrator.go:236-249 | a job that was just started is one its process is alone with |
| HomeSafety.ResumedAlone | internal/engine/orchestrator/resume.go:75-109 | a job that was just resumed is one its process is alone with if and only if nobody else runs it or had read its record before and has not acted yet |
| HomeSafety.ReadWhileAtRest | internal/app/jobs_controller.go:261-270 | a process comes to have read a record, to discard, resume or purge it, only while the job is not in flight |
| HomeSafety.WhatMayBeRead | internal/app/jobs_controller.go:261-270 | a record is read to discard the job if and only if it is readable and neither queued nor running, and to resume it if and only if it is interrupted |
| HomeSafety.AdoptChangesOnlyTheState | internal/engine/config/jobs.go:287-306 | a sweep marks a job interrupted if and only if it is recorded as queued or running, when no process is live, and changes nothing else of the record or of any other |
| HomeSafety.CleanSweepFinishesTheJob | internal/app/engine.go:485-504 | when a sweep that met no list or save error gives the folder back no readable record is queued or running; when it met no removal error no index and no working directory is left |
| HomeSafety.SweepGoesOn | internal/app/engine.go:485-504 | a sweep under way can always take a step without an error, until it gives the folder back |
| HomeSafety.OnlyErrorsSpoil | internal/app/engine.go:485-504 | and as long as it takes only such steps it counts as one that met no error |
| HomeSafety.WhenAJobIsOutOfReach | internal/app/jobs_controller.go:261-305 | no step another process can take writes or removes a running job's record or takes its directory if and only if nobody else runs it or has read its record, to discard, resume or purge it, without having acted, and no purge has its directory among those still to remove |
| HomeSafety.PurgeReachesAcross | internal/app/settings_controller.go:465-483 | a purge by hand, when it reads the directories, puts that of a snapshot another live process has open on its list if and only if its own process has not got it open and no unfinished job has its name |
| HomeSafety.PurgeTakesWhatItListed | internal/engine/inspect/session.go:570-594 | what is on the list goes, once, while the other process goes on having the snapshot open |
| HomePurge.ListsUnfinished | internal/app/settings_controller.go:474-482 | a listing that does not fail keeps exactly the jobs with a readable record that is queued, running or interrupted |
| HomePurge.WhatIsToBeRemoved | internal/engine/inspect/session.go:570-594 | with no other step between listing the jobs and reading the directories, a directory is to be removed if and only if it is there, is not named after such a job, and is not that of one of the process's own open snapshots |
| HomePurge.ListsEnded | internal/engine/config/jobs.go:308-319 | the records to be removed are exactly the readable ones of jobs that are completed, failed or cancelled |
| HomePurge.PurgeIsExact | internal/app/settings_controller.go:456-492 | over one whole purge with nobody else about and no listing that fails: at every point the records of all jobs that have not ended, interrupted ones among them, their directories, and the directories and indexes of the process's own snapshots are there as before; and when it has come to its end every record of a job that ended, every other directory and every other index has gone |
| HomePurge.PurgeCanBeCarriedOut | internal/app/settings_controller.go:456-492 | wherever a purge can begin there is a run that carries it to that end |
| HomePurge.InterruptedJobIsKept | internal/app/settings_controller.go:456-462 | beside a live process, in any stretch of any run, an interrupted job that nobody runs, discards or resumes keeps its record and its directory, whatever number of others purge, come and go, as long as no purge fails to list the jobs |
| HomeRuns.PurgeTakesAnOpenSnapshot | internal/app/settings_controller.go:465-483 | a run from an empty folder that leads there |
| HomeRuns.DiscardTakesARunningJob | internal/app/jobs_controller.go:261-305 | a run from an empty folder, with no purge in it, after which a live process runs a job whose record and directory are gone: it was resumed after another had read it to discard it |
| HomeRuns.ResumeOverwritesARunningJob | internal/engine/orchestrator/resume.go:75-109 | a run from an empty folder after which two live processes run one job, and what the first had recorded of it is overwritten |
| HomeSafety.ReopeningLosesTheDirectory | internal/app/engine.go:418-430 | opening a snapshot leaves its working directory there if and only if it was not open in this process before: otherwise closing the session it replaces removes the new one's |
| EditHistory.OneEditor | internal/engine/config/lock.go:43-47 | two processes never have the right to edit config.yaml at once |
| EditHistory.NoEditIsLost | internal/engine/config/store.go:133-175 | after any run the file carries every committed edit in commit order if and only if no commit wrote a copy that others had committed past |
| EditHistory.EditsAreSerialised | internal/engine/config/lock.go:33-47 | if every commit comes from a copy read while its process had the right to edit, the file is the committed edits in order and none is dropped |
| EditHistory.EditorsAlwaysCurrent | internal/engine/config/lock.go:43-47 | a copy read with the right to edit equals the file for as long as that right lasts, in every run |
| EditHistory.ReloadThenCommit | internal/engine/config/store.go:133-175 | who reads the file again has read it with the right to edit exactly when he has that right, and then what he commits is the file with his edit added |
| EditHistory.LoadThenClaimLosesAnEdit | internal/cli/context.go:67-85 | the order of the code, which reads the file before it claims the folder, has a run from an empty folder in which a committed edit disappears: one process sweeps and claims, the other is refused the sweep and claims after it |
| ConfigModel.UniqueName | internal/engine/config/crud.go:338-349 | the unbounded loop ends for every finite list of names, with a name that is not in it and before which every candidate was taken |
| ConfigModel.CandidatesDiffer | internal/engine/config/crud.go:339-345 | the candidates are pairwise different texts |
| ConfigModel.TakenAreBounded | internal/engine/config/crud.go:343-348 | no more candidates can be taken than there are names, which bounds the loop |
| ConfigMeaning.FreeNameTold | internal/engine/config/crud.go:338-349 | the name found is the base with " copy", or with " copy k" for the first k from 2 on that is free |
| ConfigMeaning.AddingAnEnvironment | internal/engine/config/crud.go:40-48 | refused if the name is there; otherwise the new one comes last and nothing else changes |
| ConfigMeaning.SavingAnEnvironment | internal/engine/config/crud.go:55-79 | refused if the old name is not there, or a new name is taken; otherwise the first of the old name is replaced by what was given, with no Test result if what it depends on changed, else the one given, else the old one; nothing else changes |
| ConfigMeaning.DuplicatingAnEnvironment | internal/engine/config/crud.go:87-115 | refused if the name is not there, or the new one is taken; otherwise a copy without handles, Test result and default flag comes last, under the name asked for or the free one |
| ConfigMeaning.DeletingAnEnvironment | internal/engine/config/crud.go:118-148 | refused while it is in use, or if the name is not there; otherwise the first entry of that name goes and no other |
| ConfigMeaning.AddingAStorage | internal/engine/config/crud.go:164-181 | as for environments; and the first storage becomes the default, one marked default the only one, and otherwise no flag changes |
| ConfigMeaning.SavingAStorage | internal/engine/config/crud.go:183-212 | as for environments, where the default flag does not count as a change; one saved as default becomes the only one, and otherwise no other flag changes |
| ConfigMeaning.DuplicatingAStorage | internal/engine/config/crud.go:215-246 | as for environments |
| ConfigMeaning.DeletingAStorage | internal/engine/config/crud.go:249-283 | as for environments, and refused for the default while there are others |
| ConfigMeaning.DeletionLeavesTheOthers | internal/engine/config/crud.go:118-283 | with distinct names a deletion of an environment, storage or key leaves none of the name and every other entry in its order |
| ConfigMeaning.RecordingAnEnvironment | internal/engine/config/crud.go:297-309 | the stamp given is the one kept with the first entry of the name, and nothing else changes; refused if there is none |
| ConfigMeaning.RecordingAStorage | internal/engine/config/crud.go:311-323 | the same for storage |
| ConfigMeaning.SettingTheDefault | internal/engine/config/crud.go:286-295 | refused if the name is not there; otherwise exactly the entries of the name are marked default and nothing else changes |
| ConfigMeaning.SettingPreferences | internal/engine/config/crud.go:325-330 | the preferences given are kept and nothing else changes |
| ConfigMeaning.AddingAKey | internal/engine/config/keys.go:78-88 | refused if the name is there; otherwise the key comes last |
| ConfigMeaning.SavingAKey | internal/engine/config/keys.go:90-117 | refused if the old name is not there, or a new name is taken; otherwise the first of the old name is replaced |
| ConfigMeaning.DeletingAKey | internal/engine/config/keys.go:119-134 | refused if the name is not there; otherwise the first of that name goes and no other |
| ConfigModel.EditKeepsNames | internal/engine/config/crud.go:40-330 | each of the fifteen edits that goes through keeps names pairwise distinct in all three lists |
| ConfigModel.EditKeepsDefaults | internal/engine/config/crud.go:164-294 | no edit makes a second default storage; from exactly one default (or no storage) an edit leaves that state if and only if it saves the default unmarked |
| ConfigModel.SetDefaultMakesOne | internal/engine/config/crud.go:286-294 | naming a storage the default makes that one, and only that one, the default |
| ConfigModel.OnlyDefaultIsOne | internal/engine/config/crud.go:332-336 | with distinct names the loop leaves at most one default, and one if and only if the name is there |
| ConfigModel.RunKeepsTheWhole | internal/engine/config/crud.go:164-294 | over any run of edits names stay unique and defaults at most one, and exactly one from the first storage on if nobody saves the default unmarked |
| ConfigModel.SavingUnchanged | internal/engine/config/crud.go:351-354 | saving an environment over itself changes nothing if and only if it has no Test result to lose, or it has no jump host and, unless the stored preset object itself is given, no resource preset: both are compared by address |
| ConfigModel.DeletionUndoes | internal/engine/config/crud.go:40-148 | deleting what was just added or duplicated gives the list back |
| ConfigModel.DeletionUndoesStorage | internal/engine/config/crud.go:164-283 | for storage the same, if and only if the added one did not take the default from another |
| ConfigModel.DuplicateSharesNoHandle | internal/engine/config/crud.go:83-115 | a duplicate has a name that was free, none of its source's credential handles, no Test result and no default flag, and is its source otherwise; the rest of the list stays |
| ConfigModel.ChangedIsUntested | internal/engine/config/crud.go:50-79 | saving changes one entry only, to what was given; it carries a Test result afterwards only if nothing else of it changed and there was no jump host, and no resource preset but the stored object |
| Validation.Validate | internal/engine/config/validate.go:54-108 | every problem of every list; there is none if and only if entries are fine by themselves, names differ in each list and at most one storage is default |
| Validation.CheckList | internal/engine/config/validate.go:65-76 | the map of names seen reports each repeated name with the last place it stood at before |
| Validation.NoProblems | internal/engine/config/validate.go:54-108 | an empty problem list is exactly well-formedness |
| Validation.ProblemsAreTold | internal/engine/config/validate.go:54-108 | what is reported is exactly: each message of each entry with its place, each name that stands again with its place and the last place before, and how many storages are default when they are more than one |
| Validation.DefaultsAreCounted | internal/engine/config/validate.go:78-95 | the count of defaults is at most one exactly when no two entries are default |
| Validation.EditIsRefusedOnlyForAnEntry | internal/engine/config/store.go:138-144 | an edit of a well-formed configuration is never rejected for a repeated name or for the default, only for what an entry says by itself |
| ConfigSlices.Append | internal/engine/config/crud.go:45 | append writes into spare capacity in place if there is any, and otherwise moves to a new array; the old slice reads as before either way |
| ConfigSlices.RemoveAt | internal/engine/config/crud.go:144 | the shift is in place: the old slice, read at its old length, shows its last element twice |
| ConfigSlices.CloneRows | internal/engine/config/store.go:234-255 | the copy is equal in value and shares no array, probe stamp or jump host with the original; it does share the resource presets, row by row |
| ConfigSlices.MakeDefaultExclusive | internal/engine/config/crud.go:332-336 | the in-place loop makes the list OnlyDefault says |
| ConfigSlices.SaveRow | internal/engine/config/crud.go:55-79 | replaces the row in place as Save says, comparing jump hosts and resource presets by address |
| ConfigSlices.DuplicateRow | internal/engine/config/crud.go:87-115 | the copy has its own jump host with the handle cleared; the original keeps its handles |
| ConfigEdits.EditEnvironments | internal/engine/config/crud.go:40-148 | on a cloned slice every environment edit, in place, gives the list or the refusal its specification says |
| ConfigEdits.EditStorage | internal/engine/config/crud.go:164-323 | the same for every storage edit, the default flag included |
| ConfigEdits.EditKeys | internal/engine/config/keys.go:78-134 | the same for every key edit, and what the slice it was given then reads as |
| ConfigStore.File.WriteFileAtomic | internal/engine/config/store.go:194-230 | all of the data, or after a fault the old bytes |
| ConfigStore.SaveThrough | internal/engine/config/store.go:190-230 | that is what a save by the directory of AtomicWrite does to what is read under the name, with every step between reading old or new, for a power loss too; and without a fault it is made |
| ConfigStore.Store.Clone | internal/engine/config/store.go:232-257 | equal in value; environments and storage share nothing with the cache but the resource presets; the keys share their array |
| ConfigStore.Store.SaveLocked | internal/engine/config/store.go:154-175 | on success cache, raw bytes, baseline and file all move to the new configuration, old bytes written back verbatim when nothing changed; on an encoding or writing error none of them moves |
| ConfigStore.Store.Update | internal/engine/config/store.go:133-145 | for every edit of environments, storage and preferences: the result is the one its specification gives, and one that is refused, invalid or not written changes nothing in memory and nothing in the file; no array, stamp or jump host that existed before is written to in any case |
| ConfigStore.Store.UpdateKeys | internal/engine/config/keys.go:78-135 | for key edits the same, except that what is left in the cache after a failure is Leftover; with copied keys it is the old keys |
| ConfigStore.WhatIsAnswered | internal/engine/config/store.go:133-145 | an update answers the refusal of its edit; else, if what the edit makes is not well formed, its problems, of which there are some; else that it was not written if it cannot be encoded or the write fails; and else that it was saved |
| ConfigStore.Store.Save | internal/engine/config/store.go:148-152 | writes what is cached, or changes nothing |
| ConfigStore.Store.Load | internal/engine/config/store.go:65-113 | a load succeeds if and only if the file can be read and is missing, or decodes to a configuration that is well formed and can be encoded again; then cache and file agree, the cache is well formed, and with no file it is the empty configuration; otherwise the cache stays as it was |
| ConfigStore.Store.Rebind | internal/engine/config/store.go:52-58 | as Load on the new folder; when that fails the old folder's configuration stays cached with no raw bytes and no baseline |
| ConfigStore.Store.SaveKeepsAgreement | internal/engine/config/store.go:154-175 | agreement of cache and file survives a save, and saving an unchanged cache leaves the bytes identical |
| ConfigStore.SavingAgrees | internal/engine/config/store.go:160-174 | body, baseline and cache agree after a save even when old bytes are written back |
| ConfigStore.Store.UpdateIsACall | internal/engine/config/store.go:133-145 | what Update and UpdateKeys promise of the heap is one step of the runs that WhenACallKeepsAgreement and CacheAndFileAgree are about |
| ConfigStore.Store.SaveIsACall | internal/engine/config/store.go:148-152 | and so is what Save promises |
| ConfigStore.WhenACallKeepsAgreement | internal/engine/config/store.go:133-175 | a call keeps cache and file in agreement if and only if it was saved or left what is cached as it was |
| ConfigStore.CacheAndFileAgree | internal/engine/config/store.go:133-175 | after any run of updates and saves with any faults and no outside writer the file equals raw, decodes to the cache, and baseline is its encoding, if every call was saved or left the cache as it was, which with copied keys they all do |
| ConfigStore.WhenACallStrays | internal/engine/config/store.go:133-145 | with the keys shared a call breaks agreement if and only if it is an accepted edit of the keys that saves one over a different one, or deletes any but the last, and its write fails or its outcome is not well formed or cannot be encoded |
| ConfigStore.WhenCacheAndFileAgree | internal/engine/config/store.go:133-175 | over any run from a well-formed cache that agrees with its file the two agree after every call if and only if no call of the run is such an edit |
| ConfigStore.UnchangedSaveKeepsTheBytes | internal/engine/config/store.go:160-166 | a save that changes nothing in the schema leaves the file byte for byte |
| ConfigStore.WhenKeysAreLeftAlone | internal/engine/config/store.go:232-235 | a key edit that is not saved leaves the cached keys as they were if and only if it was refused, added a key, saved one over itself, or deleted the last one |
| ConfigStore.FailedDeletionRepeatsAKey | internal/engine/config/keys.go:119-134 | a deletion of any key but the last that is not saved leaves the cache with a key standing twice |
| ConfigStore.RepeatBlocksEdits | internal/engine/config/validate.go:93-105 | while the last key stands twice every edit of anything but keys that is not refused by itself is rejected as invalid, with the problem that names the last key and the place before it |
| ConfigStore.FailedDeletionBlocksEdits | internal/engine/config/store.go:133-145 | after a deletion of any key but the last that could not be written, no update of anything but keys is ever saved, over any run of them: cache and file stay exactly as that deletion left them until the file is read again |
| AtomicWrite.Directory.WriteFileAtomic | internal/engine/config/store.go:194-230 | at every step, for running processes and after a power loss, the target reads as its old bytes or as the complete new ones; an error leaves the old; every other name reads as it did at every step; a save that meets no fault is made and flushed; and no temporary file is left behind, after a fault neither, unless its removal is stuck |
| AtomicWrite.Directory.WriteTemporary | internal/engine/config/store.go:199-220 | until the rename everything happens to a file no other name leads to; without a fault it is whole and flushed |
| AtomicWrite.Directory.PutInPlace | internal/engine/config/store.go:221-228 | the rename puts the flushed file in place, and the flush of the directory, made without a fault, makes it the only one that survives; the temporary name leads nowhere then |
| AtomicWrite.RenamedReadsOldOrNew | internal/engine/config/store.go:214-223 | after the rename of a flushed file only its whole content is new to be read |
| AtomicWrite.RenameBeforeSyncMayReadAnything | internal/engine/config/store.go:214-217 | a file renamed right after it was written, without the flush, might read as anything: the flush is needed |
| AtomicWrite.RunOfSaves | internal/engine/config/store.go:190-193 | after any run of saves the file reads as at the start or as what one of the saves was given, whole |
| AtomicWrite.RunWithLosses | internal/engine/config/store.go:190-193 | over any run of saves and power losses, each save going on from what the last loss left and cut off wherever the next one fell, what is read under the name, now or after one more loss, could be read at the start or is the whole of what one of the saves was given |
| AtomicWrite.SurvivorIsFound | internal/engine/config/store.go:224-228 | whatever is said to survive a power loss under a name is found there after some loss |
| AtomicWrite.FlushedSaveStays | internal/engine/config/store.go:224-228 | a save after which the directory was flushed outlives any number of losses and saves of other names |
| Paths.WithinIsPrefix | internal/engine/config/location.go:243-249 | `within` is exactly prefix by components, on cleaned absolute paths |
| Paths.JoinStartsWithItsFirst | internal/engine/config/location.go:244-248 | testing a relative path for a leading .. as text is testing its first component |
| Paths.CleanOfOneMore | internal/engine/config/location.go:203-204 | cleaning, piece by piece: an empty or dot piece changes nothing, a double dot leads one folder up and no further than the root, a name goes on |
| Links.SameOrGone | internal/engine/config/location.go:213-227 | when each entry looked up on the way of a path is as it was or gone, the path leads where it led if none is gone, and otherwise nowhere |
| Links.LinkInWay | internal/engine/config/location.go:213-227 | a way that looks up a symbolic link goes by where the link leads, whatever links are being followed already |
| Relocation.AcceptedDestinations | internal/engine/config/location.go:189-237 | a destination is accepted if and only if it is absolute, as written apart from the source, and leads, links followed, to an empty folder or to nothing in a folder |
| Relocation.WhyItIsRefused | internal/engine/config/location.go:197-236 | which of the nine refusals is given, and that each is given exactly in its case |
| Relocation.WaysAvoidTheDestination | internal/engine/config/location.go:257-268 | no way to a home with a file in it, nor to the destination's own folder, goes by what stands at an accepted destination, so that clearing it breaks neither |
| Relocation.SourceStillHolds | internal/engine/config/location.go:270-276 | whatever happens at and below an accepted destination, every file is read at the source as before |
| Relocation.RenameCarriesEverything | internal/engine/config/location.go:268 | a rename leaves exactly the source's files at the destination and nothing at the source |
| Relocation.OutsideKeepsWhole | internal/engine/config/location.go:283-305 | changes below one of two unrelated folders leave the files of the other whole |
| MoveTree.Volume.CopyFile | internal/engine/config/location.go:307-327 | truncation, piecewise writing and failure at any point change only the target; success leaves the whole content |
| MoveTree.Volume.Walk | internal/engine/config/location.go:283-305 | entry by entry, each folder listed before its copy is made: changes nothing but at the target; a walk that comes to its end leaves there exactly what stood in the source, links left out; and none ever does that copies a folder deeper than directly into itself |
| CopyWalk.ChainGoesOn | internal/engine/config/location.go:283-305 | because such a walk always finds the next folder to enter in what it has just copied |
| MoveTree.Volume.CopyTree | internal/engine/config/location.go:283-305 | changes nothing outside the destination; on success it mirrors the source, and the source did not hold the destination's folder |
| MoveTree.Volume.RemoveAll | internal/engine/config/location.go:276-279 | entry by entry, changes nothing outside the folder, and may stop half way; a link goes and not what it leads to |
| MoveTree.Volume.CopyOrClean | internal/engine/config/location.go:270-276 | what arrived of a copy that failed is removed again, and nothing of it is left unless the removal is stuck |
| MoveTree.Volume.MoveTree | internal/engine/config/location.go:257-280 | when the home is a folder and the way to the destination's folder does not go by it, or ends deeper in it, then in every state all files are read at the source or all at the destination, and what each outcome means; otherwise, with a file to lose and nothing going wrong but the rename, none is read at either and the move reports success. Nothing else on the disk changes; after a copy that failed all is as it was but for the cleared destination; a safe move that nothing goes wrong with is made, and none is made deeper into the source |
| MoveTree.Volume.CheckAndMove | internal/app/relocate.go:57-74 | checking and then moving: a refusal touches nothing, and an accepted destination keeps the files in every run if and only if that condition holds or there are none |
| MoveLosses.IntoTheHomeByALink | internal/engine/config/location.go:243-249 | an accepted destination that loses the tree: a new folder directly in the home, named by a link to it |
| MoveLosses.ByAHomeThatIsALink | internal/engine/config/location.go:283-300 | another: the home is itself a link to the folder with the files |
| MoveLosses.ByAWayInTheHome | internal/engine/config/location.go:243-249 | another: the way to the destination goes by a link that stands in the home |
| MoveTree.PartialRemovalIsNotWholeAtSource | internal/app/relocate.go:68-73 | once one file of the source is removed the tree is not whole there any more, only at the destination: an error of the move does not mean it is |
| JobLog.LogStore.Record | internal/app/logs.go:78-95 | what is held is the newest part of the whole history, and the count is the whole history's |
| JobLog.LogStore.Tail | internal/app/logs.go:121-142 | the answer a bounded store gives is the one the unbounded history gives, within the cap |
| JobLog.LogStore.Forget | internal/app/logs.go:147-152 | drops one job's history and no other |
| JobLog.SameLines | internal/app/logs.go:97-112 | the engine and the screen take the same events for lines and make the same texts of them: what a subprocess said unless it is empty, and what PortCloak says of its clones, marked as its own |
| JobLog.RecordedForItsJob | internal/app/logs.go:78-95 | a line goes to the end of its own job's history and to no other's |
| JobLog.WhatIsAnswered | internal/app/logs.go:114-142 | the cursor to ask from next counts every line said; the answer starts afresh, with the newest ten thousand, exactly when something is new and the caller has nothing or is ten thousand or more behind, and otherwise goes on from its cursor; it is marked as cut exactly when more were said |
| JobLog.PollKeepsStretch | frontend/src/pages/activity/live.ts:120-140 | one poll leaves the client with one unbroken stretch ending at its cursor |
| JobLog.CursorIsSound | internal/app/logs.go:114-142 | for every interleaving of recordings on any jobs with polls, until the job is forgotten: the client's lines are a contiguous stretch of the history ending at its cursor, within its cap |
| JobLog.KeepingUpMissesNothing | internal/app/logs.go:114-142 | a client between whose polls fewer lines than the cap arrive holds all of the history, or the newest of it its own cap allows |
| JobLog.WhenAPollHoldsEverything | internal/app/logs.go:130-141 | one poll leaves the client with the whole history if and only if it held all up to its cursor and fewer lines than the cap were new to it, or its cursor was at the start and the history fits the cap |
| LiveTail.AskedIsAnswer | internal/app/logs.go:121-142 | the answers of this model are the log store's, told by place in the history |
| LiveTail.ConfirmedIsAStretch | frontend/src/pages/activity/live.ts:120-140 | with one request under way at a time, in every run with lines said, delivered, lost and answers failing in between, what is confirmed is an unbroken stretch of the history that ends at the cursor, all of it up to there or the newest ten thousand |
| LiveTail.WhatTheStreamDoes | frontend/src/pages/activity/live.ts:242-249 | a line that is delivered is heard last, the oldest heard giving way at ten thousand; one that is lost is not heard |
| LiveTail.ShownInOrder | frontend/src/pages/activity/live.ts:72-81 | then the screen, which draws the newest lines of both parts, shows each line once and in order if and only if no line that was handed over is still among those heard, or those heard fill the screen |
| LiveTail.WhenALineIsDrawnTwice | frontend/src/pages/activity/live.ts:72-81 | and it draws some line twice if and only if one that is heard is among the confirmed lines there is room for |
| LiveTail.WhenADeliveryRepeats | frontend/src/pages/activity/live.ts:242-249 | after a delivery the screen shows each line once and in order if and only if nothing heard before had been handed over and neither had the line, or the lines heard then fill the screen |
| LiveTail.WhenAnAnswerRepeats | frontend/src/pages/activity/live.ts:112-140 | after an answer with lines the screen shows each line once and in order if and only if, of the newest delivered since its request, as many as the cap left room for, none was said before the answer was made, or they fill the screen |
| LiveTail.TwiceForGood | frontend/src/pages/activity/live.ts:126-131 | once the job has said its last and a line is out of place, it stays so through any number of polls, as long as what is heard and what is still on its way do not fill the screen |
| LiveTail.WhenItIsForGood | frontend/src/pages/activity/live.ts:126-131 | and if and only if they do not: otherwise delivering what is on its way puts the screen in order |
| LiveTail.HeardFillTheScreen | frontend/src/pages/activity/live.ts:72-81 | a run from a fresh screen in which everything heard is handed over too and yet each line is drawn once, because what is heard fills the screen |
| LiveTail.LastLineCanShowTwice | frontend/src/pages/activity/live.ts:112-119 | a run that leads there: the last line is said and delivered between a request and its answer |
| LiveTail.WhenAnAnswerContinues | frontend/src/pages/activity/ActivityPage.tsx:84-101 | with requests that overlap, new lines continue what is confirmed if and only if they answer the cursor the screen still has |
| LiveTail.OverlapRepeats | frontend/src/pages/activity/ActivityPage.tsx:84-101 | two overlapping requests to one cursor hand the same lines over twice |
| LiveTail.OverlapShowsALineTwice | frontend/src/pages/activity/ActivityPage.tsx:84-101 | a run from a fresh screen that leads there, with nothing lost or cut off: the second line is confirmed twice |
| ExportLayout.MatchIsTheShape | internal/engine/kc/kc.go:587 | the scan finds the prefix and digits the pattern describes, and there is only one such pair |
| ExportLayout.BaseOfAName | internal/engine/kc/kc.go:599 | the base is what stands behind the last slash that something stands behind |
| ExportLayout.SplitOfName | internal/engine/kc/kc.go:700-711 | splitting a composed name gives back prefix, directory included, and number |
| ExportLayout.SplitGivesTheName | internal/engine/kc/kc.go:700-711 | a name that splits is composed of the prefix and some digits of the number |
| PadUserFiles.PadUserFiles | internal/engine/kc/kc.go:647-696 | the three loops compute Padded: all renamed, or on a possible clash nothing |
| PadUserFiles.SplitTarget | internal/engine/kc/kc.go:683 | padding a name changes neither its prefix nor its number |
| PadUserFiles.TextOrderIsPageOrder | internal/engine/kc/kc.go:630-646 | after padding, text order of two names of one prefix is numeric order of their numbers, for any number of pages |
| PadUserFiles.PaddedToOneWidth | internal/engine/kc/kc.go:653-690 | unless refused every number is written in the same number of digits after its prefix, and a file that does not split keeps its name |
| PadUserFiles.WidthIsNeeded | internal/engine/kc/kc.go:633-635 | that number is three or what the longest of the numbers takes |
| PadUserFiles.WhenItIsRefused | internal/engine/kc/kc.go:661-696 | padding is refused if and only if some name would change to one in the layout or to one given to an earlier file; then, and when there is nothing to rename, the layout is as it came |
| PadUserFiles.NotRefusedAsNumbered | internal/engine/kc/kc.go:643-646 | it is never refused for files no two of which have one prefix and number, beside others that are not named like user files |
| PadUserFiles.RenamesTellTheFiles | internal/engine/kc/kc.go:661-696 | the renames are of user files, to other names, and say what each becomes |
| PadUserFiles.RenamesAreFresh | internal/engine/kc/kc.go:661-690 | every new name is new to the whole original layout |
| PadUserFiles.RenamesDiffer | internal/engine/kc/kc.go:661-690 | and no two files get one name |
| PadUserFiles.PadKeepsNamesDistinct | internal/engine/kc/kc.go:643-646 | distinct names stay distinct and none is lost |
| PadUserFiles.PadIsIdempotent | internal/engine/kc/kc.go:647-696 | padding a padded layout changes nothing |
| PadUserFiles.NothingRenamed | internal/engine/kc/kc.go:691-693 | there is nothing to rename exactly when every name is its own target |
| Decimal.TextOrderIsNumeric | internal/engine/kc/kc.go:619-627 | for digit strings of one length text order is numeric order |
| ReadLayout.ReadLayout | internal/engine/kc/kc.go:590-617 | the last of the names whose base is a realm file's; all others whose base has the pattern's shape, in the order of the numbers their digits spell, a number past the range of an int counting as the greatest; and the rest in text order |
| ReadLayout.WhatAFileIs | internal/engine/kc/kc.go:598-609 | a name is taken for the realm file if and only if its base is the realm with -realm.json or .json behind, and for a user file if and only if it is not that and its base has the shape |
| ReadLayout.LayoutConservesNames | internal/engine/kc/kc.go:598-608 | the layout holds exactly the names read if and only if at most one is a realm file |
| ReadLayout.GroupsCoverTheNames | internal/engine/kc/kc.go:598-608 | every name lands in exactly one of the three groups |
| Ledger.Job.Append | internal/engine/config/jobs.go:361-375 | overwrites the row of the same phase and item or appends one |
| Ledger.Job.SkipPhase | internal/engine/config/jobs.go:382-389 | records a phase once |
| Ledger.Job.CompletePhase | internal/engine/config/jobs.go:392-399 | records a phase once |
| Ledger.RowsAreAnOrderedMap | internal/engine/config/jobs.go:359-375 | after any run of appends: one row per key, in order of first occurrence, each holding the last values |
| Ledger.FirstsInOrder | internal/engine/config/jobs.go:382-399 | the phase lists are duplicate-free, complete and in order of first occurrence |
| Ldif.EscapeRDN | playground/seed/ldif.go:133-149 | the loop computes the escaped text |
| Ldif.EscapedWhereNeeded | playground/seed/ldif.go:136-147 | a character is escaped if and only if it is an equals sign or, NUL apart, may not stand unescaped there by the grammar |
| Ldif.EscapingUndone | playground/seed/ldif.go:133-149 | a reader per sections 2.4 and 3 of RFC 4514 recovers the value if and only if it has no NUL |
| Ldif.ComposedNameSplits | playground/seed/ldif.go:119 | the first unescaped comma of the composed name is the one that was put there |
| Ldif.NeedsBase64 | playground/seed/ldif.go:176-195 | exactly the values that cannot stand as they are |
| Ldif.PlainWhereSafe | playground/seed/ldif.go:176-195 | a value stands as it is if and only if it is a safe string that does not end in a space |
| Ldif.AttrUndone | playground/seed/ldif.go:169-174 | a reader by the formal syntax of RFC 2849 recovers name and value of every attribute line, any bytes |
| Ldif.PlainLineUndone | playground/seed/ldif.go:198-207 | the same for a plain line passed through `ldifLine` |
| Ldif.LdifLineIsIdempotent | playground/seed/ldif.go:198-207 | `ldifLine` twice is `ldifLine` once, for every line |
| Base64.DecodeEncode | playground/seed/ldif.go:171 | decoding undoes encoding, with padding, for every byte string |
| Base64.GroupsAreNumbers | playground/seed/ldif.go:171 | four letters, read by their places in the alphabet, are the number three bytes are; one or two bytes at the end are filled up with zero bits and padded |
| Base64.LettersInOrder | playground/seed/ldif.go:171 | the alphabet is the capitals, the small letters and the digits in their order, plus and slash |
| Lists.NoNilIsLeft | internal/app/lists.go:36-79 | no nil list or map is left anywhere along a path the walk can set |
| Lists.PathsSurvive | internal/app/lists.go:36-79 | what every path led to before it leads to after, filled |
| Lists.OnlyNilChanges | internal/app/lists.go:36-79 | nothing changes but nil to empty |
| Lists.NilIsFilledWhereItMay | internal/app/lists.go:36-79 | a nil list or map becomes an empty one if and only if the walk comes there and may set it; behind a field it may not set nothing changes |
| Lists.FillTwice | internal/app/lists.go:28-32 | the walk is idempotent |
| Numbers.Itoa | internal/app/config_controller.go:148-168 | never leaves its buffer, and prints for every 64-bit n but the least the shortest numeral, which reads back as n; for the least it prints a lone sign |
| Numbers.WriteDigits | internal/app/config_controller.go:157-162 | the digit loop writes the numeral backwards and always leaves a byte for the sign |
| Numbers.BinaryUnit | internal/app/jobs_controller.go:213-224 | the divisor is the power of 1024 just not above n, no step overflows, and the unit index is at most 5 |
| Pagination.PageNumbers | frontend/src/design-system/Pagination.tsx:108-125 | expanding the gaps gives exactly every page; at most seven items; first, last, current and neighbours drawn; every gap hides at least two pages |
| Pagination.DrawKeeps | frontend/src/design-system/Pagination.tsx:115-122 | one turn of the loop keeps all of that |
| Pagination.ResizeKeepsPlace | frontend/src/design-system/Pagination.tsx:54-57 | the page drawn after a resize contains the first row that was on screen |
| Pagination.PageWithinTotal | frontend/src/design-system/Pagination.tsx:37-39 | the page of a row that exists is never clamped |
| Pagination.NoPageTooMany | frontend/src/design-system/Pagination.tsx:37 | the pages hold all rows, and one fewer would not |
| Pagination.CurrentHoldsTheRow | frontend/src/design-system/Pagination.tsx:38 | the current page holds the row at the offset, and past the rows it is the last |

## Left out

- HomeProtocol.InvAlways: what a discard removes besides the directory and the record (the sealed bundle, the upload begun on the remote side), and a resume that is turned down for other reasons than the job's state, are not in the model.
- HomeProtocol.SweepStaysCurrent: the times, messages and retry flags written with an interrupted record stand behind the field `work` or are dropped.
- HomeSafety.LiveProcessIsSpared: a directory that `RemoveAll` removed only in part counts as still there.
- HomePurge.PurgeIsExact: rotated logs, the audit entry and the counts of what went are not in the model; it is about the steps of one process, and steps of others in between are looked at in `HomePurge.InterruptedJobIsKept` and `HomeSafety.dfy`.
- Claims.Acquire: who holds the folder, the polling of `acquire` with its deadline, and the Windows lock are not in the model.
- EditHistory.NoEditIsLost: an edit stands for whatever it changes; that two edits may touch the same entry is not looked at.
- ConfigStore.Store.Update: unknown YAML fields, line locations, the version field, and the keychain clean-up after a deletion are not in the model; a caller that writes through a pointer it passed in is not either.
- ConfigSlices.DuplicateRow: the returned copy is the appended row; it is not returned separately.
- Validation.Validate: the wording of problems, and their order by line, are not in the model; what is asked of one entry is a parameter.
- AtomicWrite.Directory.WriteFileAtomic: creating the directory, and the permission bits, are not in the model.
- MoveTree.Volume.MoveTree: a crash here is a crash of the process, not a power loss; permission bits, special files, relative link targets and the system's limit on the number of links followed are not in the model; symbolic links in the tree are not carried over by a copy, as in the code. Where the two paths lead is settled when the move begins; `Relocation.WaysAvoidTheDestination` and `Relocation.SourceStillHolds` say why clearing and copying do not change it.
- JobLog.CursorIsSound: a poll is one step here; requests and answers with steps between them are in `LiveTail.dfy`.
- LiveTail.ConfirmedIsAStretch: the stream delivers in order or loses a line, and the log is not forgotten in between; the joined list that is remembered between repaints is not in the model.
- Ledger.Job.Append: time stamps are numbers.
- Ldif.EscapingUndone: strings are byte strings; invalid UTF-8, which the loop over runes would replace, is not looked at.
- Ldif.LdifLineIsIdempotent: line folding, which the code does not do, is not in the model.
- Lists.FillTwice: the walk is modelled on values; that it sets slices, maps and fields in place, and what that means for a value reached by two pointers, is not.
- Numbers.BinaryUnit: the division that prints the quotient with one decimal is not in the model.
- ReadLayout.ReadLayout: the order among user files of one number is left open, as `sort.Slice` leaves it.
- The adapters (HTTP, SSH, Docker, Kubernetes, S3, Azure, the Admin API), age encryption, the keychain and the SQLite index: external systems and libraries.
- The orchestrator, snapshot packing and the retry and breaker logic: only the job records they write appear, as steps of the home folder.
- The desktop shell, the command definitions, prompts, tables and wording: nothing in them spans two steps.
- Clamps, readiness checks, verdict mapping and credential overlays: they would add easy members only.
- Moving the home folder while other processes hold claims on it.
