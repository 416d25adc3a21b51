/** Any number of processes over one home folder: the sweep under an exclusive
    claim, then each process's own claim, then jobs, open snapshots and edits. */
module HomeProtocol {
  import opened Prelude
  import opened Claims

  type Pid = nat

  /** The name of a job or of a snapshot. */
  type Id = nat

  type Edit = nat

  /** A text of config.yaml, told by the edits it carries, oldest first. */
  type Text = seq<Edit>

  datatype JobState = Queued | Running | Interrupted | Completed | Failed | Cancelled

  predicate Terminal(s: JobState) {
    s.Completed? || s.Failed? || s.Cancelled?
  }

  predicate InFlight(s: JobState) {
    s.Queued? || s.Running?
  }

  /** A job as it is recorded; `work` stands for everything else in the record. */
  datatype Job = Job(state: JobState, work: nat)

  datatype Record = Unreadable | Readable(job: Job)

  datatype DirName = OpenDir(id: Id) | JobDir(id: Id)

  /** Where a sweep has got to: what it listed and has still to visit. A sweep is
      clean while no job could not be listed or saved, and tidy while no index or
      directory could not be listed or removed. */
  datatype Stage =
    | ToListJobs
    | Adopting(jobs: map<Id, Job>)
    | ToListIndexes
    | DroppingIndexes(indexes: set<Id>)
    | ToListDirs
    | DroppingDirs(dirs: set<DirName>)
    | Finished

  datatype Phase =
    | Loaded
    | Sweeping(h: Handle, stage: Stage, clean: bool, tidy: bool)
    | Swept
    | Active(claim: Handle, mode: Mode)

  /** Clearing local working data by hand, under the process's own claim: what it
      keeps, or removes, was listed before it came to it. */
  datatype Purge =
    | NoPurge
    | PurgingIndexes(open: set<Id>)
    | RemovingIndexes(open: set<Id>, indexes: set<Id>)
    | PurgingDirs(open: set<Id>, jobs: set<Id>)
    | RemovingDirs(dirs: set<DirName>)
    | PurgingJobs(finished: set<Id>)

  /** What a process has to do with jobs: those it runs, those it has read the
      record of to discard them, and those it has read to resume them, with the
      record as it was then. */
  datatype Tasks = Tasks(running: set<Id>, discards: set<Id>, resumes: map<Id, Job>)

  const NoTasks: Tasks := Tasks({}, {}, map[])

  /** The snapshots a process has open, those of them it has written an index file
      for, and those a restore has open, which are not counted among the open. */
  datatype Snapshots = Snapshots(open: set<Id>, built: set<Id>, restoring: set<Id>)

  const NoSnapshots: Snapshots := Snapshots({}, {}, {})

  /** A process: its phase, its snapshots and tasks, its purge, its copy of the
      configuration, how many edits had been committed when it read that copy,
      and whether it read it while it had the right to edit. */
  datatype Proc = Proc(phase: Phase, snapshots: Snapshots, tasks: Tasks, purge: Purge, copy: Text, readAt: nat, readAsEditor: bool)

  /** `commits` is every edit ever committed, in order; `window` is the one
      process that is the desktop window. */
  datatype State = State(
    procs: map<Pid, Proc>,
    locks: Table,
    jobs: map<Id, Record>,
    dirs: set<DirName>,
    indexes: set<Id>,
    file: Text,
    commits: Text,
    window: Option<Pid>)

  /** A process arriving, claiming, leaving. */
  datatype Life =
    | Start
    | SkipSweep(fault: bool)
    | Claim(h: Handle, mode: Mode)
    | GiveUp
    | BecomeWindow
    | Exit
    | Crash

  /** The startup sweep, one effect at a time; `failed` is an error of that effect. */
  datatype Sweep =
    | Begin(h: Handle)
    | ListJobs(failed: bool)
    | Adopt(id: Id, failed: bool)
    | JobsDone
    | ListIndexes(failed: bool)
    | DropIndex(x: Id, failed: bool)
    | IndexesDone
    | ListDirs(failed: bool)
    | DropDir(d: DirName, failed: bool)
    | DirsDone
    | Release

  /** What a process that holds its own claim does with jobs. A save that fails is
      logged and the job goes on; a discard and a resume read the record first, and
      do not look again when they come to act. */
  datatype Duty =
    | StartJob(id: Id, work: nat, saved: bool)
    | UpdateJob(id: Id, state: JobState, work: nat, saved: bool)
    | ResumeRead(id: Id)
    | ResumeWrite(id: Id, saved: bool)
    | DiscardRead(id: Id)
    | DiscardDir(id: Id)
    | DiscardRecord(id: Id, failed: bool)
    | MakeJobDir(id: Id)
    | DropJobDir(id: Id)

  /** What it does otherwise. */
  datatype Work =
    | OpenSnapshot(x: Id)
    | OpenFails(x: Id)
    | BuildIndex(x: Id)
    | CloseSnapshot(x: Id)
    | RestoreOpens(x: Id)
    | RestoreCloses(x: Id)
    | PurgeBegin
    | PurgeReadIndexes
    | PurgeIndex(x: Id)
    | PurgeList(failed: bool)
    | PurgeReadDirs
    | PurgeDir(d: DirName)
    | PurgeListAgain(failed: bool)
    | PurgeJob(id: Id)
    | PurgeEnd
    | Reload
    | Commit(e: Edit)

  datatype Action =
    | Lives(p: Pid, life: Life)
    | Sweeps(p: Pid, sweep: Sweep)
    | Serves(p: Pid, duty: Duty)
    | Works(p: Pid, work: Work)

  // ------------------------------------------------------------------ reading

  predicate IsActive(s: State, p: Pid) {
    p in s.procs && s.procs[p].phase.Active?
  }

  predicate InStage(s: State, p: Pid) {
    p in s.procs && s.procs[p].phase.Sweeping?
  }

  function StageOf(s: State, p: Pid): Stage
    requires InStage(s, p)
  {
    s.procs[p].phase.stage
  }

  /** The handle a phase holds a claim by, and the claim. */
  function ClaimOf(ph: Phase): Option<(Handle, Mode)> {
    match ph
    case Sweeping(h, _, _, _) => Some((h, Exclusive))
    case Active(h, mode) => Some((h, mode))
    case _ => None
  }

  /** The right to edit config.yaml: the exclusive claim, or being the window. */
  predicate CanEdit(s: State, p: Pid) {
    IsActive(s, p) && (s.procs[p].phase.mode.Exclusive? || s.window == Some(p))
  }

  predicate Runs(s: State, p: Pid, id: Id) {
    p in s.procs && id in s.procs[p].tasks.running
  }

  /** The record of a job, if it can be read, in one of some states. */
  predicate RecordedAs(s: State, id: Id, when: JobState -> bool) {
    id in s.jobs && s.jobs[id].Readable? && when(s.jobs[id].job.state)
  }

  function ReadableJobs(s: State): map<Id, Job> {
    map id | id in s.jobs && s.jobs[id].Readable? :: s.jobs[id].job
  }

  // ----------------------------------------------------------------- the steps

  predicate CanLive(s: State, p: Pid, l: Life) {
    match l
    case Start => p !in s.procs
    case SkipSweep(fault) => p in s.procs && s.procs[p].phase.Loaded? && (fault || !Grants(s.locks, Exclusive))
    case Claim(h, mode) => p in s.procs && s.procs[p].phase.Swept? && h !in s.locks && Grants(s.locks, mode)
    case GiveUp => p in s.procs && s.procs[p].phase.Swept?
    case BecomeWindow => IsActive(s, p) && s.procs[p].phase.mode.Shared? && s.window.None?
    case Exit => IsActive(s, p)
    case Crash => p in s.procs
  }

  predicate CanSweep(s: State, p: Pid, w: Sweep) {
    match w
    case Begin(h) => p in s.procs && s.procs[p].phase.Loaded? && h !in s.locks && Grants(s.locks, Exclusive)
    case ListJobs(_) => InStage(s, p) && StageOf(s, p).ToListJobs?
    case Adopt(id, _) => InStage(s, p) && StageOf(s, p).Adopting? && id in StageOf(s, p).jobs
    case JobsDone => InStage(s, p) && StageOf(s, p) == Adopting(map[])
    case ListIndexes(_) => InStage(s, p) && StageOf(s, p).ToListIndexes?
    case DropIndex(x, _) => InStage(s, p) && StageOf(s, p).DroppingIndexes? && x in StageOf(s, p).indexes
    case IndexesDone => InStage(s, p) && StageOf(s, p) == DroppingIndexes({})
    case ListDirs(_) => InStage(s, p) && StageOf(s, p).ToListDirs?
    case DropDir(d, _) => InStage(s, p) && StageOf(s, p).DroppingDirs? && d in StageOf(s, p).dirs
    case DirsDone => InStage(s, p) && StageOf(s, p) == DroppingDirs({})
    case Release => InStage(s, p) && StageOf(s, p).Finished?
  }

  /** Whether a purge keeps a directory: its process's open snapshots, and what
      bears the name of a job that had not reached its end. */
  predicate PurgeKeeps(pg: Purge, d: DirName)
    requires pg.PurgingDirs?
  {
    d.id in pg.jobs || (d.OpenDir? && d.id in pg.open)
  }

  function NotTerminal(s: State): set<Id> {
    set id | id in s.jobs && s.jobs[id].Readable? && !Terminal(s.jobs[id].job.state)
  }

  function Ended(s: State): set<Id> {
    set id | id in s.jobs && s.jobs[id].Readable? && Terminal(s.jobs[id].job.state)
  }

  /** A name no process has anything to do with: names are made up for each job. */
  predicate Unused(s: State, id: Id) {
    && id !in s.jobs
    && forall p :: p in s.procs ==> !Pending(s.procs[p], id) && id !in s.procs[p].tasks.running
  }

  /** The process has read the record of the job, to discard or resume it or to
      purge it as finished, and has yet to act. */
  predicate Pending(q: Proc, id: Id) {
    id in q.tasks.discards || id in q.tasks.resumes || (q.purge.PurgingJobs? && id in q.purge.finished)
  }

  predicate CanServe(s: State, p: Pid, d: Duty) {
    && IsActive(s, p)
    && match d
       case StartJob(id, _, _) => Unused(s, id)
       case UpdateJob(id, _, _, _) => Runs(s, p, id)
       case ResumeRead(id) => RecordedAs(s, id, (st: JobState) => st.Interrupted?)
       case ResumeWrite(id, _) => id in s.procs[p].tasks.resumes
       case DiscardRead(id) => RecordedAs(s, id, st => !InFlight(st))
       case DiscardDir(id) => id in s.procs[p].tasks.discards
       case DiscardRecord(id, _) => id in s.procs[p].tasks.discards
       case MakeJobDir(id) => Runs(s, p, id)
       case DropJobDir(id) => Runs(s, p, id)
  }

  predicate CanWork(s: State, p: Pid, w: Work) {
    && IsActive(s, p)
    && var q := s.procs[p];
       match w
       case BuildIndex(x) => x in q.snapshots.open
       case CloseSnapshot(x) => x in q.snapshots.open
       case RestoreCloses(x) => x in q.snapshots.restoring
       case PurgeBegin => q.purge.NoPurge?
       case PurgeReadIndexes => q.purge.PurgingIndexes?
       case PurgeIndex(x) => q.purge.RemovingIndexes? && x in q.purge.indexes
       case PurgeList(_) => q.purge.RemovingIndexes? && q.purge.indexes == {}
       case PurgeReadDirs => q.purge.PurgingDirs?
       case PurgeDir(d) => q.purge.RemovingDirs? && d in q.purge.dirs
       case PurgeListAgain(_) => q.purge == RemovingDirs({})
       case PurgeJob(id) => q.purge.PurgingJobs? && id in q.purge.finished
       case Commit(_) => CanEdit(s, p)
       case _ => true
  }

  predicate Enabled(s: State, a: Action) {
    match a
    case Lives(p, l) => CanLive(s, p, l)
    case Sweeps(p, w) => CanSweep(s, p, w)
    case Serves(p, d) => CanServe(s, p, d)
    case Works(p, w) => CanWork(s, p, w)
  }

  function SetProc(s: State, p: Pid, q: Proc): State {
    s.(procs := s.procs[p := q])
  }

  function SetPhase(s: State, p: Pid, ph: Phase): State
    requires p in s.procs
  {
    SetProc(s, p, s.procs[p].(phase := ph))
  }

  /** The sweep of p moves on; an error it met is remembered. */
  function SetStage(s: State, p: Pid, stage: Stage, clean: bool, tidy: bool): State
    requires InStage(s, p)
  {
    var ph := s.procs[p].phase;
    SetPhase(s, p, Sweeping(ph.h, stage, clean && ph.clean, tidy && ph.tidy))
  }

  /** A process is gone, and the kernel has dropped its claim. */
  function Gone(s: State, p: Pid): State
    requires p in s.procs
  {
    s.(procs := s.procs - {p},
       locks := match ClaimOf(s.procs[p].phase) case Some((h, _)) => s.locks - {h} case None => s.locks,
       window := if s.window == Some(p) then None else s.window)
  }

  function OpenDirs(xs: set<Id>): set<DirName> {
    set x | x in xs :: OpenDir(x)
  }

  /** Whether a sweep keeps a directory: its own open snapshots' only. */
  predicate Keeps(open: set<Id>, d: DirName) {
    d.id in open
  }

  function ApplyLife(s: State, p: Pid, l: Life): State
    requires CanLive(s, p, l)
  {
    match l
    case Start => SetProc(s, p, Proc(Loaded, NoSnapshots, NoTasks, NoPurge, s.file, |s.commits|, false))
    case SkipSweep(_) => SetPhase(s, p, Swept)
    case Claim(h, mode) => SetPhase(s, p, Active(h, mode)).(locks := s.locks[h := mode])
    case GiveUp => Gone(s, p)
    case BecomeWindow => s.(window := Some(p))
    case Exit =>
      Gone(s, p).(dirs := s.dirs - OpenDirs(s.procs[p].snapshots.open), indexes := s.indexes - s.procs[p].snapshots.built)
    case Crash => Gone(s, p)
  }

  function ApplySweep(s: State, p: Pid, w: Sweep): State
    requires CanSweep(s, p, w)
  {
    match w
    case Begin(h) => SetPhase(s, p, Sweeping(h, ToListJobs, true, true)).(locks := s.locks[h := Exclusive])
    case ListJobs(failed) =>
      SetStage(s, p, if failed then ToListIndexes else Adopting(ReadableJobs(s)), !failed, true)
    case Adopt(id, failed) =>
      var pending := StageOf(s, p).jobs;
      if !InFlight(pending[id].state) then SetStage(s, p, Adopting(pending - {id}), true, true)
      else if failed then SetStage(s, p, ToListIndexes, false, true)
      else SetStage(s, p, Adopting(pending - {id}), true, true)
             .(jobs := s.jobs[id := Readable(pending[id].(state := Interrupted))])
    case JobsDone => SetStage(s, p, ToListIndexes, true, true)
    case ListIndexes(failed) =>
      SetStage(s, p, if failed then ToListDirs else DroppingIndexes(s.indexes), true, !failed)
    case DropIndex(x, failed) =>
      SetStage(s, p, DroppingIndexes(StageOf(s, p).indexes - {x}), true, !failed)
        .(indexes := if x in s.procs[p].snapshots.open || failed then s.indexes else s.indexes - {x})
    case IndexesDone => SetStage(s, p, ToListDirs, true, true)
    case ListDirs(failed) =>
      SetStage(s, p, if failed then Finished else DroppingDirs(s.dirs), true, !failed)
    case DropDir(d, failed) =>
      SetStage(s, p, DroppingDirs(StageOf(s, p).dirs - {d}), true, !failed)
        .(dirs := if Keeps(s.procs[p].snapshots.open, d) || failed then s.dirs else s.dirs - {d})
    case DirsDone => SetStage(s, p, Finished, true, true)
    case Release => SetPhase(s, p, Swept).(locks := s.locks - {s.procs[p].phase.h})
  }

  function SetTasks(s: State, p: Pid, tasks: Tasks): State
    requires p in s.procs
  {
    SetProc(s, p, s.procs[p].(tasks := tasks))
  }

  /** Saving a record, which may fail and leave it as it was. */
  function Recorded(s: State, id: Id, job: Job, saved: bool): map<Id, Record> {
    if saved then s.jobs[id := Readable(job)] else s.jobs
  }

  function ApplyDuty(s: State, p: Pid, d: Duty): State
    requires CanServe(s, p, d)
  {
    var t := s.procs[p].tasks;
    match d
    case StartJob(id, work, saved) =>
      SetTasks(s, p, t.(running := t.running + {id})).(jobs := Recorded(s, id, Job(Queued, work), saved))
    case UpdateJob(id, state, work, saved) =>
      SetTasks(s, p, if InFlight(state) then t else t.(running := t.running - {id}))
        .(jobs := Recorded(s, id, Job(state, work), saved))
    case ResumeRead(id) => SetTasks(s, p, t.(resumes := t.resumes[id := s.jobs[id].job]))
    case ResumeWrite(id, saved) =>
      SetTasks(s, p, t.(running := t.running + {id}, resumes := t.resumes - {id}))
        .(jobs := Recorded(s, id, t.resumes[id].(state := Running), saved))
    case DiscardRead(id) => SetTasks(s, p, t.(discards := t.discards + {id}))
    case DiscardDir(id) => s.(dirs := s.dirs - {JobDir(id)})
    case DiscardRecord(id, failed) =>
      SetTasks(s, p, t.(discards := t.discards - {id})).(jobs := if failed then s.jobs else s.jobs - {id})
    case MakeJobDir(id) => s.(dirs := s.dirs + {JobDir(id)})
    case DropJobDir(id) => s.(dirs := s.dirs - {JobDir(id)})
  }

  /** A session of snapshot x closes: its index goes, and the directory, which is
      named after the snapshot and not after the session. */
  function Closed(s: State, p: Pid, x: Id): State
    requires p in s.procs
  {
    var h := s.procs[p].snapshots;
    SetSnapshots(s, p, h.(open := h.open - {x}, built := h.built - {x}))
      .(dirs := s.dirs - {OpenDir(x)}, indexes := if x in h.built then s.indexes - {x} else s.indexes)
  }

  function SetSnapshots(s: State, p: Pid, snapshots: Snapshots): State
    requires p in s.procs
  {
    SetProc(s, p, s.procs[p].(snapshots := snapshots))
  }

  function SetPurge(s: State, p: Pid, purge: Purge): State
    requires p in s.procs
  {
    SetProc(s, p, s.procs[p].(purge := purge))
  }

  function ApplyWork(s: State, p: Pid, w: Work): State
    requires CanWork(s, p, w)
  {
    var q := s.procs[p];
    var h := q.snapshots;
    match w
    case OpenSnapshot(x) =>
      if x in h.open then SetSnapshots(Closed(s, p, x), p, h.(built := h.built - {x}))
      else SetSnapshots(s, p, h.(open := h.open + {x})).(dirs := s.dirs + {OpenDir(x)})
    case OpenFails(x) => s.(dirs := s.dirs - {OpenDir(x)})
    case BuildIndex(x) => SetSnapshots(s, p, h.(built := h.built + {x})).(indexes := s.indexes + {x})
    case CloseSnapshot(x) => Closed(s, p, x)
    case RestoreOpens(x) => SetSnapshots(s, p, h.(restoring := h.restoring + {x})).(dirs := s.dirs + {OpenDir(x)})
    case RestoreCloses(x) => SetSnapshots(s, p, h.(restoring := h.restoring - {x})).(dirs := s.dirs - {OpenDir(x)})
    case PurgeBegin => SetPurge(s, p, PurgingIndexes(h.open))
    case PurgeReadIndexes => SetPurge(s, p, RemovingIndexes(q.purge.open, s.indexes - q.purge.open))
    case PurgeIndex(x) => SetPurge(s, p, RemovingIndexes(q.purge.open, q.purge.indexes - {x})).(indexes := s.indexes - {x})
    case PurgeList(failed) => SetPurge(s, p, PurgingDirs(q.purge.open, if failed then {} else NotTerminal(s)))
    case PurgeReadDirs => SetPurge(s, p, RemovingDirs(set d | d in s.dirs && !PurgeKeeps(q.purge, d)))
    case PurgeDir(d) => SetPurge(s, p, RemovingDirs(q.purge.dirs - {d})).(dirs := s.dirs - {d})
    case PurgeListAgain(failed) => SetPurge(s, p, PurgingJobs(if failed then {} else Ended(s)))
    case PurgeJob(id) => SetPurge(s, p, PurgingJobs(q.purge.finished - {id})).(jobs := s.jobs - {id})
    case PurgeEnd => SetPurge(s, p, NoPurge)
    case Reload => SetProc(s, p, q.(copy := s.file, readAt := |s.commits|, readAsEditor := CanEdit(s, p)))
    case Commit(e) =>
      SetProc(s, p, q.(copy := q.copy + [e], readAt := |s.commits| + 1))
        .(file := q.copy + [e], commits := s.commits + [e])
  }

  function Apply(s: State, a: Action): State
    requires Enabled(s, a)
  {
    match a
    case Lives(p, l) => ApplyLife(s, p, l)
    case Sweeps(p, w) => ApplySweep(s, p, w)
    case Serves(p, d) => ApplyDuty(s, p, d)
    case Works(p, w) => ApplyWork(s, p, w)
  }

  /** Nobody is here; what earlier runs left behind can be anything. Edits are
      counted from here on. */
  predicate Initial(s: State) {
    s.procs == map[] && s.locks == map[] && s.window.None? && s.file == [] && s.commits == []
  }

  /** The state after a run, or None when some step of it was not possible. */
  function After(start: State, run: seq<Action>): Option<State> {
    if run == [] then Some(start)
    else
      match After(start, run[..|run| - 1])
      case Some(s) => if Enabled(s, run[|run| - 1]) then Some(Apply(s, run[|run| - 1])) else None
      case None => None
  }

  // ----------------------------------------------------------------- invariants

  /** Claims and the kernel's table agree, one handle to a process. */
  ghost predicate ClaimsAgree(s: State) {
    && (forall p :: p in s.procs && ClaimOf(s.procs[p].phase).Some? ==>
          var (h, mode) := ClaimOf(s.procs[p].phase).value; h in s.locks && s.locks[h] == mode)
    && (forall p, q :: p in s.procs && q in s.procs && p != q && ClaimOf(s.procs[p].phase).Some? && ClaimOf(s.procs[q].phase).Some? ==>
          ClaimOf(s.procs[p].phase).value.0 != ClaimOf(s.procs[q].phase).value.0)
    && Exclusion(s.locks)
  }

  /** Only a process with its own claim has snapshots open and anything to do with
      jobs, and only of what it has open has it written indexes. */
  ghost predicate OnlyTheActiveWork(s: State) {
    forall p :: p in s.procs ==> Settled(s.procs[p])
  }

  predicate Settled(q: Proc) {
    q.snapshots.built <= q.snapshots.open && (!q.phase.Active? ==> q.snapshots == NoSnapshots && q.tasks == NoTasks && q.purge.NoPurge?)
  }

  /** What a sweep listed is still what is recorded; and unless it met an error
      every job in flight is among what it has still to visit. */
  ghost predicate SweepIsCurrent(s: State) {
    forall p :: p in s.procs && s.procs[p].phase.Sweeping? ==> StageIsCurrent(s, s.procs[p].phase.stage, s.procs[p].phase.clean)
  }

  ghost predicate StageIsCurrent(s: State, stage: Stage, clean: bool) {
    match stage
    case ToListJobs => clean
    case Adopting(pending) =>
      && clean
      && (forall id :: id in pending ==> id in s.jobs && s.jobs[id] == Readable(pending[id]))
      && (forall id :: id in s.jobs && s.jobs[id].Readable? && InFlight(s.jobs[id].job.state) ==> id in pending)
    case _ => clean ==> NoneInFlight(s.jobs)
  }

  ghost predicate NoneInFlight(jobs: map<Id, Record>) {
    forall id :: id in jobs && jobs[id].Readable? ==> !InFlight(jobs[id].job.state)
  }

  /** Unless it met an error, a sweep leaves behind no index and no directory. */
  ghost predicate SweepIsTidy(s: State) {
    forall p :: p in s.procs && s.procs[p].phase.Sweeping? && s.procs[p].phase.tidy ==> StageIsTidy(s, s.procs[p].phase.stage)
  }

  ghost predicate StageIsTidy(s: State, stage: Stage) {
    match stage
    case DroppingIndexes(pending) => s.indexes <= pending
    case ToListDirs => s.indexes == {}
    case DroppingDirs(pending) => s.indexes == {} && s.dirs <= pending
    case Finished => s.indexes == {} && s.dirs == {}
    case _ => true
  }

  ghost predicate WindowIsActive(s: State) {
    s.window.Some? ==> IsActive(s, s.window.value) && s.procs[s.window.value].phase.mode.Shared?
  }

  ghost predicate Inv(s: State) {
    ClaimsAgree(s) && OnlyTheActiveWork(s) && SweepIsCurrent(s) && SweepIsTidy(s) && WindowIsActive(s)
  }

  /** A sweep, and an exclusive claim, leave no other process a claim. */
  lemma ExclusiveIsAlone(s: State, p: Pid, q: Pid)
    requires ClaimsAgree(s) && p in s.procs && q in s.procs && p != q
    requires ClaimOf(s.procs[p].phase).Some? && ClaimOf(s.procs[p].phase).value.1.Exclusive?
    ensures ClaimOf(s.procs[q].phase).None?
  {
  }

  // ------------------------------------------------- what a step leaves alone

  /** Every process but p is as it was. */
  ghost predicate OthersStay(s: State, t: State, p: Pid) {
    t.procs - {p} == s.procs - {p}
  }

  lemma OtherStays(s: State, t: State, p: Pid, q: Pid)
    requires OthersStay(s, t, p) && q != p
    ensures q in s.procs <==> q in t.procs
    ensures q in s.procs ==> t.procs[q] == s.procs[q]
  {
    assert q in s.procs <==> q in s.procs - {p};
    assert q in t.procs <==> q in t.procs - {p};
    assert q in s.procs ==> (s.procs - {p})[q] == s.procs[q] && (t.procs - {p})[q] == t.procs[q];
  }

  lemma LifeFrame(s: State, p: Pid, l: Life)
    requires CanLive(s, p, l)
    ensures OthersStay(s, ApplyLife(s, p, l), p)
    ensures ApplyLife(s, p, l).jobs == s.jobs
    ensures ApplyLife(s, p, l).file == s.file && ApplyLife(s, p, l).commits == s.commits
    ensures !l.Exit? ==> ApplyLife(s, p, l).dirs == s.dirs && ApplyLife(s, p, l).indexes == s.indexes
  {
  }

  lemma SweepFrame(s: State, p: Pid, w: Sweep)
    requires CanSweep(s, p, w)
    ensures OthersStay(s, ApplySweep(s, p, w), p)
    ensures p in s.procs && p in ApplySweep(s, p, w).procs
    ensures var q := ApplySweep(s, p, w).procs[p]; q == s.procs[p].(phase := q.phase) && (q.phase.Sweeping? || q.phase.Swept?)
    ensures ApplySweep(s, p, w).window == s.window
    ensures ApplySweep(s, p, w).file == s.file && ApplySweep(s, p, w).commits == s.commits
  {
  }

  lemma DutyFrame(s: State, p: Pid, d: Duty)
    requires CanServe(s, p, d)
    ensures OthersStay(s, ApplyDuty(s, p, d), p)
    ensures p in ApplyDuty(s, p, d).procs
    ensures var q := ApplyDuty(s, p, d).procs[p]; q == s.procs[p].(tasks := q.tasks)
    ensures ApplyDuty(s, p, d).locks == s.locks && ApplyDuty(s, p, d).window == s.window
    ensures ApplyDuty(s, p, d).file == s.file && ApplyDuty(s, p, d).commits == s.commits
    ensures ApplyDuty(s, p, d).indexes == s.indexes
  {
  }

  lemma WorkFrame(s: State, p: Pid, w: Work)
    requires CanWork(s, p, w)
    ensures OthersStay(s, ApplyWork(s, p, w), p)
    ensures p in ApplyWork(s, p, w).procs && ApplyWork(s, p, w).procs[p].phase == s.procs[p].phase
    ensures ApplyWork(s, p, w).locks == s.locks && ApplyWork(s, p, w).window == s.window
  {
  }

  // ---------------------------------------------------- the invariants are kept

  lemma ClaimKept(s: State, t: State, p: Pid)
    requires ClaimsAgree(s) && OthersStay(s, t, p) && t.locks == s.locks
    requires p in s.procs && p in t.procs && ClaimOf(t.procs[p].phase) == ClaimOf(s.procs[p].phase)
    ensures ClaimsAgree(t)
  {
    forall q | q != p ensures (q in s.procs <==> q in t.procs) && (q in s.procs ==> t.procs[q] == s.procs[q]) {
      OtherStays(s, t, p, q);
    }
  }

  lemma ClaimTaken(s: State, t: State, p: Pid, h: Handle, mode: Mode)
    requires ClaimsAgree(s) && OthersStay(s, t, p) && t.locks == s.locks[h := mode]
    requires p in s.procs && ClaimOf(s.procs[p].phase).None? && h !in s.locks && Grants(s.locks, mode)
    requires p in t.procs && ClaimOf(t.procs[p].phase) == Some((h, mode))
    ensures ClaimsAgree(t)
  {
    forall q | q != p ensures (q in s.procs <==> q in t.procs) && (q in s.procs ==> t.procs[q] == s.procs[q]) {
      OtherStays(s, t, p, q);
    }
    GrantKeepsExclusion(s.locks, h, mode);
  }

  lemma ClaimDropped(s: State, t: State, p: Pid)
    requires ClaimsAgree(s) && OthersStay(s, t, p)
    requires p in t.procs ==> ClaimOf(t.procs[p].phase).None?
    requires t.locks == if p in s.procs && ClaimOf(s.procs[p].phase).Some? then s.locks - {ClaimOf(s.procs[p].phase).value.0} else s.locks
    ensures ClaimsAgree(t)
  {
    forall q | q != p ensures (q in s.procs <==> q in t.procs) && (q in s.procs ==> t.procs[q] == s.procs[q]) {
      OtherStays(s, t, p, q);
    }
  }

  lemma ClaimsStayAgreedInLife(s: State, p: Pid, l: Life)
    requires ClaimsAgree(s) && CanLive(s, p, l)
    ensures ClaimsAgree(ApplyLife(s, p, l))
  {
    var t := ApplyLife(s, p, l);
    LifeFrame(s, p, l);
    match l {
      case Claim(h, mode) => ClaimTaken(s, t, p, h, mode);
      case BecomeWindow => ClaimKept(s, t, p);
      case _ => ClaimDropped(s, t, p);
    }
  }

  lemma ClaimsStayAgreedInSweep(s: State, p: Pid, w: Sweep)
    requires ClaimsAgree(s) && CanSweep(s, p, w)
    ensures ClaimsAgree(ApplySweep(s, p, w))
  {
    var t := ApplySweep(s, p, w);
    SweepFrame(s, p, w);
    match w {
      case Begin(h) => ClaimTaken(s, t, p, h, Exclusive);
      case Release => ClaimDropped(s, t, p);
      case _ => ClaimKept(s, t, p);
    }
  }

  lemma ClaimsStayAgreed(s: State, a: Action)
    requires ClaimsAgree(s) && Enabled(s, a)
    ensures ClaimsAgree(Apply(s, a))
  {
    match a
    case Lives(p, l) => ClaimsStayAgreedInLife(s, p, l);
    case Sweeps(p, w) => ClaimsStayAgreedInSweep(s, p, w);
    case Serves(p, d) =>
      DutyFrame(s, p, d);
      ClaimKept(s, ApplyDuty(s, p, d), p);
    case Works(p, w) =>
      WorkFrame(s, p, w);
      ClaimKept(s, ApplyWork(s, p, w), p);
  }

  ghost predicate SameHome(s: State, t: State) {
    t.jobs == s.jobs && t.dirs == s.dirs && t.indexes == s.indexes
  }

  /** What any step leaves alone, gathered. */
  lemma FrameOf(s: State, a: Action)
    requires Enabled(s, a)
    ensures OthersStay(s, Apply(s, a), a.p)
    ensures a.Sweeps? ==> a.p in Apply(s, a).procs && !Apply(s, a).procs[a.p].phase.Active?
                          && Apply(s, a).procs[a.p].snapshots == s.procs[a.p].snapshots
    ensures !a.Lives? ==> a.p in s.procs && Apply(s, a).window == s.window
    ensures a.Works? || a.Serves? ==> a.p in Apply(s, a).procs && Apply(s, a).procs[a.p].phase == s.procs[a.p].phase
    ensures !InStage(s, a.p) && !IsActive(s, a.p) ==> SameHome(s, Apply(s, a))
  {
    match a
    case Lives(p, l) => LifeFrame(s, p, l);
    case Sweeps(p, w) => SweepFrame(s, p, w);
    case Serves(p, d) => DutyFrame(s, p, d);
    case Works(p, w) => WorkFrame(s, p, w);
  }

  lemma WorkKeepsSettled(s: State, p: Pid, w: Work)
    requires CanWork(s, p, w) && Settled(s.procs[p])
    ensures p in ApplyWork(s, p, w).procs && Settled(ApplyWork(s, p, w).procs[p])
  {
  }

  lemma LifeKeepsSettled(s: State, p: Pid, l: Life)
    requires CanLive(s, p, l) && (p in s.procs ==> Settled(s.procs[p]))
    ensures p in ApplyLife(s, p, l).procs ==> Settled(ApplyLife(s, p, l).procs[p])
  {
  }

  lemma OnlyTheActiveGoOnWorking(s: State, a: Action)
    requires OnlyTheActiveWork(s) && Enabled(s, a)
    ensures OnlyTheActiveWork(Apply(s, a))
  {
    var t := Apply(s, a);
    FrameOf(s, a);
    forall q | q in t.procs ensures Settled(t.procs[q]) {
      if q != a.p {
        OtherStays(s, t, a.p, q);
      } else {
        match a
        case Lives(p, l) => LifeKeepsSettled(s, p, l);
        case Sweeps(p, w) => SweepFrame(s, p, w);
        case Serves(p, d) => DutyFrame(s, p, d);
        case Works(p, w) => WorkKeepsSettled(s, p, w);
      }
    }
  }

  lemma WindowStaysActive(s: State, a: Action)
    requires WindowIsActive(s) && Enabled(s, a)
    ensures WindowIsActive(Apply(s, a))
  {
    var t := Apply(s, a);
    FrameOf(s, a);
    if t.window.Some? && t.window.value != a.p {
      OtherStays(s, t, a.p, t.window.value);
    }
  }

  /** While a process sweeps, no step of another changes the home folder. */
  lemma OthersLeaveHome(s: State, a: Action, q: Pid)
    requires ClaimsAgree(s) && Enabled(s, a) && q != a.p && InStage(s, q)
    ensures SameHome(s, Apply(s, a))
  {
    if a.p in s.procs {
      ExclusiveIsAlone(s, q, a.p);
    }
    FrameOf(s, a);
  }

  lemma AdoptStaysCurrent(s: State, p: Pid, id: Id, failed: bool)
    requires SweepIsCurrent(s) && CanSweep(s, p, Adopt(id, failed))
    ensures var t := ApplySweep(s, p, Adopt(id, failed));
            StageIsCurrent(t, t.procs[p].phase.stage, t.procs[p].phase.clean)
  {
  }

  lemma OwnSweepStaysCurrent(s: State, p: Pid, w: Sweep)
    requires SweepIsCurrent(s) && CanSweep(s, p, w) && !w.Release?
    ensures var t := ApplySweep(s, p, w);
            StageIsCurrent(t, t.procs[p].phase.stage, t.procs[p].phase.clean)
  {
    match w
    case Adopt(id, failed) => AdoptStaysCurrent(s, p, id, failed);
    case _ =>
  }

  lemma SweepStaysCurrent(s: State, a: Action)
    requires ClaimsAgree(s) && SweepIsCurrent(s) && Enabled(s, a)
    ensures SweepIsCurrent(Apply(s, a))
  {
    var t := Apply(s, a);
    FrameOf(s, a);
    forall q | q in t.procs && t.procs[q].phase.Sweeping?
      ensures StageIsCurrent(t, t.procs[q].phase.stage, t.procs[q].phase.clean)
    {
      if q != a.p {
        OtherStays(s, t, a.p, q);
        OthersLeaveHome(s, a, q);
      } else if a.Sweeps? {
        OwnSweepStaysCurrent(s, q, a.sweep);
      }
    }
  }

  lemma OwnSweepStaysTidy(s: State, p: Pid, w: Sweep)
    requires OnlyTheActiveWork(s) && SweepIsTidy(s) && CanSweep(s, p, w)
    requires ApplySweep(s, p, w).procs[p].phase.Sweeping? && ApplySweep(s, p, w).procs[p].phase.tidy
    ensures StageIsTidy(ApplySweep(s, p, w), ApplySweep(s, p, w).procs[p].phase.stage)
  {
  }

  lemma SweepStaysTidy(s: State, a: Action)
    requires Inv(s) && Enabled(s, a)
    ensures SweepIsTidy(Apply(s, a))
  {
    var t := Apply(s, a);
    FrameOf(s, a);
    forall q | q in t.procs && t.procs[q].phase.Sweeping? && t.procs[q].phase.tidy ensures StageIsTidy(t, t.procs[q].phase.stage) {
      if q != a.p {
        OtherStays(s, t, a.p, q);
        OthersLeaveHome(s, a, q);
      } else if a.Sweeps? {
        OwnSweepStaysTidy(s, a.p, a.sweep);
      }
    }
  }

  lemma InvIsKept(s: State, a: Action)
    requires Inv(s) && Enabled(s, a)
    ensures Inv(Apply(s, a))
  {
    ClaimsStayAgreed(s, a);
    OnlyTheActiveGoOnWorking(s, a);
    SweepStaysCurrent(s, a);
    SweepStaysTidy(s, a);
    WindowStaysActive(s, a);
  }

  lemma {:induction false} InvAlways(start: State, run: seq<Action>)
    requires Initial(start) && After(start, run).Some?
    ensures Inv(After(start, run).value)
  {
    if run != [] {
      InvAlways(start, run[..|run| - 1]);
      InvIsKept(After(start, run[..|run| - 1]).value, run[|run| - 1]);
    }
  }
}
