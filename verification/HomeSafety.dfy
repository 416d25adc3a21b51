/** What the protocol promises, over every run: a live process's jobs, working
    directories and indexes are out of reach of everybody else's sweep; and what
    else can reach them, and when. */
module HomeSafety {
  import opened Prelude
  import opened Claims
  import opened HomeProtocol

  /** A process that holds the folder to itself, sweeping or by its own claim, is
      the only one there that holds it at all. */
  lemma ExclusiveIsAlwaysAlone(start: State, run: seq<Action>, p: Pid, q: Pid)
    requires Initial(start) && After(start, run).Some?
    requires var s := After(start, run).value;
             p in s.procs && q in s.procs && p != q && ClaimOf(s.procs[p].phase).Some? && ClaimOf(s.procs[p].phase).value.1.Exclusive?
    ensures var s := After(start, run).value;
            !InStage(s, q) && !IsActive(s, q) && s.locks.Keys == {ClaimOf(s.procs[p].phase).value.0}
  {
    InvAlways(start, run);
    ExclusiveIsAlone(After(start, run).value, p, q);
  }

  /** Beside a process that holds its claim, no other can begin a sweep or take
      any step of one. */
  lemma NoSweepBeside(s: State, p: Pid, w: Sweep, q: Pid)
    requires ClaimsAgree(s) && q != p && IsActive(s, q)
    ensures !CanSweep(s, p, w)
  {
    if p in s.procs && ClaimOf(s.procs[p].phase).Some? && ClaimOf(s.procs[p].phase).value.1.Exclusive? {
      ExclusiveIsAlone(s, p, q);
    }
  }

  // ------------------------------------------------------ directories and indexes

  /** Something a process may have under way in the folder. */
  datatype Thing = Dir(d: DirName) | Index(x: Id)

  predicate Has(s: State, th: Thing) {
    match th
    case Dir(d) => d in s.dirs
    case Index(x) => x in s.indexes
  }

  /** A session of snapshot x ends with the step: closed, replaced by opening the
      snapshot again, or with its process. It may not be the only one there is, and
      all of one snapshot share one directory and one index. */
  predicate Ends(s: State, a: Action, x: Id) {
    && a.p in s.procs && x in s.procs[a.p].snapshots.open
    && (a == Works(a.p, CloseSnapshot(x)) || a == Works(a.p, OpenSnapshot(x)) || a == Lives(a.p, Exit))
  }

  /** The steps of a process outside a sweep that take a thing away. */
  predicate Takes(s: State, a: Action, th: Thing) {
    match th
    case Index(x) => (Ends(s, a, x) && x in s.procs[a.p].snapshots.built) || a == Works(a.p, PurgeIndex(x))
    case Dir(OpenDir(x)) =>
      Ends(s, a, x) || a == Works(a.p, OpenFails(x)) || a == Works(a.p, RestoreCloses(x)) || a == Works(a.p, PurgeDir(OpenDir(x)))
    case Dir(JobDir(id)) =>
      a == Serves(a.p, DropJobDir(id)) || a == Serves(a.p, DiscardDir(id)) || a == Works(a.p, PurgeDir(JobDir(id)))
  }

  lemma WorkTakes(s: State, p: Pid, w: Work, th: Thing)
    requires CanWork(s, p, w) && Has(s, th)
    ensures Has(ApplyWork(s, p, w), th) <==> !Takes(s, Works(p, w), th)
  {
  }

  lemma DutyTakes(s: State, p: Pid, d: Duty, th: Thing)
    requires CanServe(s, p, d) && Has(s, th)
    ensures Has(ApplyDuty(s, p, d), th) <==> !Takes(s, Serves(p, d), th)
  {
  }

  lemma LifeTakes(s: State, p: Pid, l: Life, th: Thing)
    requires CanLive(s, p, l) && Has(s, th) && OnlyTheActiveWork(s)
    ensures Has(ApplyLife(s, p, l), th) <==> !Takes(s, Lives(p, l), th)
  {
  }

  /** The steps that make one. */
  predicate Makes(s: State, a: Action, th: Thing) {
    match th
    case Index(x) => a == Works(a.p, BuildIndex(x))
    case Dir(OpenDir(x)) =>
      a == Works(a.p, RestoreOpens(x)) || (a == Works(a.p, OpenSnapshot(x)) && a.p in s.procs && x !in s.procs[a.p].snapshots.open)
    case Dir(JobDir(id)) => a == Serves(a.p, MakeJobDir(id))
  }

  /** A thing that is not there is there after a step if and only if the step makes it. */
  lemma StepMakes(s: State, a: Action, th: Thing)
    requires Enabled(s, a) && !Has(s, th)
    ensures Has(Apply(s, a), th) <==> Makes(s, a, th)
  {
    match a
    case Lives(p, l) => LifeMakes(s, p, l, th);
    case Sweeps(p, w) => SweepMakes(s, p, w, th);
    case Serves(p, d) => DutyMakes(s, p, d, th);
    case Works(p, w) => WorkMakes(s, p, w, th);
  }

  lemma LifeMakes(s: State, p: Pid, l: Life, th: Thing)
    requires CanLive(s, p, l) && !Has(s, th)
    ensures !Has(ApplyLife(s, p, l), th)
  {
  }

  lemma SweepMakes(s: State, p: Pid, w: Sweep, th: Thing)
    requires CanSweep(s, p, w) && !Has(s, th)
    ensures !Has(ApplySweep(s, p, w), th)
  {
  }

  lemma DutyMakes(s: State, p: Pid, d: Duty, th: Thing)
    requires CanServe(s, p, d) && !Has(s, th)
    ensures Has(ApplyDuty(s, p, d), th) <==> Makes(s, Serves(p, d), th)
  {
  }

  lemma WorkMakes(s: State, p: Pid, w: Work, th: Thing)
    requires CanWork(s, p, w) && !Has(s, th)
    ensures Has(ApplyWork(s, p, w), th) <==> Makes(s, Works(p, w), th)
  {
  }

  /** However a process leaves, nothing of it stays: its claim is free for others, and so is
      the place of the desktop window; and nobody else is touched. */
  lemma LeavingFreesTheFolder(s: State, p: Pid, l: Life)
    requires ClaimsAgree(s) && CanLive(s, p, l) && (l.GiveUp? || l.Exit? || l.Crash?)
    ensures var t := ApplyLife(s, p, l);
            && p !in t.procs && OthersStay(s, t, p)
            && t.window == (if s.window == Some(p) then None else s.window)
            && t.locks == match ClaimOf(s.procs[p].phase) case Some((h, _)) => s.locks - {h} case None => s.locks
  {
    LifeFrame(s, p, l);
  }

  /** A process can be gone at any time; and one that holds its claim can leave, and can
      open and read what it likes. */
  lemma WhatCanBeDone(s: State, p: Pid, x: Id)
    requires p in s.procs
    ensures CanLive(s, p, Crash) && (s.procs[p].phase == Swept ==> CanLive(s, p, GiveUp))
    ensures IsActive(s, p) ==>
              && CanLive(s, p, Exit) && CanWork(s, p, OpenSnapshot(x)) && CanWork(s, p, OpenFails(x))
              && CanWork(s, p, RestoreOpens(x)) && CanWork(s, p, Reload)
  {
  }

  /** And it can end what it has begun. */
  lemma WhatCanBeEnded(s: State, p: Pid, x: Id)
    requires IsActive(s, p)
    ensures x in s.procs[p].snapshots.open ==> CanWork(s, p, BuildIndex(x)) && CanWork(s, p, CloseSnapshot(x))
    ensures x in s.procs[p].snapshots.restoring ==> CanWork(s, p, RestoreCloses(x))
    ensures x in s.procs[p].tasks.running ==> CanServe(s, p, MakeJobDir(x)) && CanServe(s, p, DropJobDir(x))
  {
  }

  /** Whatever step may meet an error may also meet none, and the other way round. */
  lemma WhatCanFail(s: State, p: Pid, x: Id, d: DirName)
    ensures CanSweep(s, p, ListJobs(true)) <==> CanSweep(s, p, ListJobs(false))
    ensures CanSweep(s, p, Adopt(x, true)) <==> CanSweep(s, p, Adopt(x, false))
    ensures CanSweep(s, p, ListIndexes(true)) <==> CanSweep(s, p, ListIndexes(false))
    ensures CanSweep(s, p, DropIndex(x, true)) <==> CanSweep(s, p, DropIndex(x, false))
    ensures CanSweep(s, p, ListDirs(true)) <==> CanSweep(s, p, ListDirs(false))
    ensures CanSweep(s, p, DropDir(d, true)) <==> CanSweep(s, p, DropDir(d, false))
  {
  }

  lemma WhatElseCanFail(s: State, p: Pid, x: Id)
    ensures CanWork(s, p, PurgeList(true)) <==> CanWork(s, p, PurgeList(false))
    ensures CanWork(s, p, PurgeListAgain(true)) <==> CanWork(s, p, PurgeListAgain(false))
    ensures CanServe(s, p, ResumeWrite(x, true)) <==> CanServe(s, p, ResumeWrite(x, false))
    ensures CanServe(s, p, DiscardRecord(x, true)) <==> CanServe(s, p, DiscardRecord(x, false))
  {
  }

  // --------------------------------------------------------------------- records

  /** The steps of a process outside a sweep that may write or remove a record. */
  predicate Writes(a: Action, id: Id) {
    match a
    case Serves(_, StartJob(i, _, saved)) => i == id && saved
    case Serves(_, UpdateJob(i, _, _, saved)) => i == id && saved
    case Serves(_, ResumeWrite(i, saved)) => i == id && saved
    case Serves(_, DiscardRecord(i, failed)) => i == id && !failed
    case Works(_, PurgeJob(i)) => i == id
    case _ => false
  }

  /** What those leave behind: the job as it is now, a resumed one as it was read, or no
      record at all. */
  lemma WhatIsWritten(s: State, a: Action, id: Id)
    requires Enabled(s, a) && !a.Sweeps? && Writes(a, id)
    ensures var t := Apply(s, a);
            match a
            case Serves(p, StartJob(_, work, _)) => id in t.jobs && t.jobs[id] == Readable(Job(Queued, work)) && Runs(t, p, id)
            case Serves(p, UpdateJob(_, st, work, _)) =>
              id in t.jobs && t.jobs[id] == Readable(Job(st, work)) && (Runs(t, p, id) <==> st == Queued || st == Running)
            case Serves(p, ResumeWrite(_, _)) =>
              id in t.jobs && t.jobs[id] == Readable(Job(Running, s.procs[p].tasks.resumes[id].work)) && Runs(t, p, id)
            case _ => id !in t.jobs
  {
  }

  predicate SameRecord(s: State, t: State, id: Id) {
    (id in t.jobs <==> id in s.jobs) && (id in s.jobs ==> t.jobs[id] == s.jobs[id])
  }

  lemma RecordsStay(s: State, a: Action, id: Id)
    requires Enabled(s, a) && !a.Sweeps? && !Writes(a, id)
    ensures SameRecord(s, Apply(s, a), id)
  {
    match a
    case Lives(p, l) => LifeFrame(s, p, l);
    case Serves(p, d) =>
    case Works(p, w) => WorkLeavesJobs(s, p, w);
  }

  lemma WorkLeavesJobs(s: State, p: Pid, w: Work)
    requires CanWork(s, p, w)
    ensures ApplyWork(s, p, w).jobs == if w.PurgeJob? then s.jobs - {w.id} else s.jobs
  {
  }

  // ---------------------------------------------------------- steps of the others

  /** No step of another process touches what a live one holds, has open or has to
      do; a directory or index goes if and only if the step is one that Takes lists,
      and a record changes only by one that Writes lists. None of them is a sweep. */
  lemma OthersAreSpared(s: State, a: Action, q: Pid)
    requires Inv(s) && Enabled(s, a) && q != a.p && IsActive(s, q)
    ensures !a.Sweeps? && IsActive(Apply(s, a), q) && Apply(s, a).procs[q] == s.procs[q]
    ensures forall th :: Has(s, th) ==> (Has(Apply(s, a), th) <==> !Takes(s, a, th))
    ensures forall id :: !Writes(a, id) ==> SameRecord(s, Apply(s, a), id)
  {
    if a.Sweeps? {
      NoSweepBeside(s, a.p, a.sweep, q);
    }
    FrameOf(s, a);
    OtherStays(s, Apply(s, a), a.p, q);
    forall th | Has(s, th) ensures Has(Apply(s, a), th) <==> !Takes(s, a, th) {
      StepTakes(s, a, th);
    }
    forall id | !Writes(a, id) ensures SameRecord(s, Apply(s, a), id) {
      RecordsStay(s, a, id);
    }
  }

  lemma StepTakes(s: State, a: Action, th: Thing)
    requires Enabled(s, a) && !a.Sweeps? && Has(s, th) && OnlyTheActiveWork(s)
    ensures Has(Apply(s, a), th) <==> !Takes(s, a, th)
  {
    match a
    case Lives(p, l) => LifeTakes(s, p, l, th);
    case Serves(p, d) => DutyTakes(s, p, d, th);
    case Works(p, w) => WorkTakes(s, p, w, th);
  }

  // ------------------------------------------------------------ a job left alone

  ghost predicate InFlightRecord(s: State, id: Id) {
    RecordedAs(s, id, InFlight)
  }

  /** Nobody but q runs the job, and nobody else has read its record, to discard or
      resume it or as a finished one, without having acted on it. */
  ghost predicate NobodyElse(s: State, q: Pid, id: Id) {
    forall p :: p in s.procs && p != q ==> !Pending(s.procs[p], id) && id !in s.procs[p].tasks.running
  }

  /** A purge that has listed jobs has listed this one, and one that has read directories
      has not got its among those to remove. */
  predicate Spares(pg: Purge, id: Id) {
    && (pg.PurgingDirs? ==> id in pg.jobs)
    && (pg.RemovingDirs? ==> JobDir(id) !in pg.dirs)
  }

  /** Whoever else is purging directories spares the job's. */
  ghost predicate Listed(s: State, q: Pid, id: Id) {
    forall p :: p in s.procs && p != q ==> Spares(s.procs[p].purge, id)
  }

  /** Nobody else's purge has the job's directory among those to remove. */
  ghost predicate NotOnAList(s: State, q: Pid, id: Id) {
    forall p :: p in s.procs && p != q && s.procs[p].purge.RemovingDirs? ==> JobDir(id) !in s.procs[p].purge.dirs
  }

  /** A process runs a job that is recorded as in flight, and is alone with it. */
  ghost predicate Alone(s: State, q: Pid, id: Id) {
    IsActive(s, q) && Runs(s, q, id) && InFlightRecord(s, id) && NobodyElse(s, q, id)
  }

  /** No step another process can take now writes or removes the record of a running
      job or takes its directory, if and only if nobody else runs it, or has read its
      record and not yet acted, or has its directory among those a purge is to remove. */
  lemma WhenAJobIsOutOfReach(s: State, q: Pid, id: Id)
    requires Inv(s) && IsActive(s, q) && Runs(s, q, id) && InFlightRecord(s, id)
    ensures (forall a :: Enabled(s, a) && a.p != q ==> !Writes(a, id) && !Takes(s, a, Dir(JobDir(id))))
            <==> NobodyElse(s, q, id) && NotOnAList(s, q, id)
  {
    if NobodyElse(s, q, id) && NotOnAList(s, q, id) {
      forall a | Enabled(s, a) && a.p != q ensures !Writes(a, id) && !Takes(s, a, Dir(JobDir(id))) {
        if a.p in s.procs { assert !Pending(s.procs[a.p], id); }
      }
    } else if !NobodyElse(s, q, id) {
      var p :| p in s.procs && p != q && (Pending(s.procs[p], id) || id in s.procs[p].tasks.running);
      OtherCanWrite(s, p, id);
    } else {
      var p :| p in s.procs && p != q && s.procs[p].purge.RemovingDirs? && JobDir(id) in s.procs[p].purge.dirs;
      OtherCanTake(s, p, id);
    }
  }

  lemma OtherCanTake(s: State, p: Pid, id: Id)
    requires Inv(s) && p in s.procs && s.procs[p].purge.RemovingDirs? && JobDir(id) in s.procs[p].purge.dirs
    ensures exists a :: Enabled(s, a) && a.p == p && Takes(s, a, Dir(JobDir(id)))
  {
    assert Settled(s.procs[p]);
    var a := Works(p, PurgeDir(JobDir(id)));
    assert Enabled(s, a) && a.p == p && Takes(s, a, Dir(JobDir(id)));
  }

  lemma OtherCanWrite(s: State, p: Pid, id: Id)
    requires Inv(s) && p in s.procs && (Pending(s.procs[p], id) || id in s.procs[p].tasks.running)
    ensures exists a :: Enabled(s, a) && a.p == p && Writes(a, id)
  {
    assert Settled(s.procs[p]);
    var t := s.procs[p].tasks;
    var a := if id in t.discards then Serves(p, DiscardRecord(id, false))
             else if id in t.resumes then Serves(p, ResumeWrite(id, true))
             else if id in t.running then Serves(p, UpdateJob(id, Failed, 0, true))
             else Works(p, PurgeJob(id));
    assert Enabled(s, a) && a.p == p && Writes(a, id);
  }

  /** A record is read to discard the job unless it is queued or running, and to resume it
      when it is interrupted. */
  lemma WhatMayBeRead(s: State, p: Pid, id: Id)
    requires IsActive(s, p)
    ensures CanServe(s, p, DiscardRead(id)) <==>
            id in s.jobs && s.jobs[id].Readable? && !s.jobs[id].job.state.Queued? && !s.jobs[id].job.state.Running?
    ensures CanServe(s, p, ResumeRead(id)) <==> id in s.jobs && s.jobs[id].Readable? && s.jobs[id].job.state.Interrupted?
  {
  }

  /** The desktop window may edit, and so may who holds the folder to itself; nobody else. */
  lemma WhoMayEdit(s: State, p: Pid, e: Edit)
    ensures Enabled(s, Works(p, Commit(e))) <==> IsActive(s, p) && (s.procs[p].phase.mode == Exclusive || s.window == Some(p))
    ensures IsActive(s, p) && s.procs[p].phase.mode == Shared && s.window == None ==>
              Enabled(s, Lives(p, BecomeWindow)) && Enabled(Apply(s, Lives(p, BecomeWindow)), Works(p, Commit(e)))
  {
  }

  /** A process comes to have read a record, to act on it later, only while the job
      is not in flight. */
  lemma ReadWhileAtRest(s: State, a: Action, id: Id)
    requires Enabled(s, a) && a.p in s.procs && !Pending(s.procs[a.p], id)
    requires a.p in Apply(s, a).procs && Pending(Apply(s, a).procs[a.p], id)
    ensures RecordedAs(s, id, st => !InFlight(st))
  {
    match a
    case Serves(p, d) => DutyPends(s, p, d, id);
    case Works(p, w) => WorkPends(s, p, w, id);
    case Lives(p, l) => LifePends(s, p, l);
    case Sweeps(p, w) => SweepFrame(s, p, w);
  }

  lemma DutyPends(s: State, p: Pid, d: Duty, id: Id)
    requires CanServe(s, p, d) && !Pending(s.procs[p], id)
    ensures p in ApplyDuty(s, p, d).procs && (Pending(ApplyDuty(s, p, d).procs[p], id) ==> RecordedAs(s, id, st => !InFlight(st)))
  {
  }

  lemma WorkPends(s: State, p: Pid, w: Work, id: Id)
    requires CanWork(s, p, w) && !Pending(s.procs[p], id)
    ensures p in ApplyWork(s, p, w).procs && (Pending(ApplyWork(s, p, w).procs[p], id) ==> RecordedAs(s, id, st => !InFlight(st)))
  {
  }

  lemma LifePends(s: State, p: Pid, l: Life)
    requires CanLive(s, p, l) && p in s.procs && p in ApplyLife(s, p, l).procs
    ensures ApplyLife(s, p, l).procs[p].tasks == s.procs[p].tasks && ApplyLife(s, p, l).procs[p].purge == s.procs[p].purge
  {
  }

  /** A purge keeps only its own process's open snapshots: reading the directories, it
      puts that of a snapshot another process has open on its list exactly when its own
      has not got it open and no unfinished job bears its name. */
  lemma PurgeReachesAcross(s: State, p: Pid, q: Pid, x: Id)
    requires IsActive(s, p) && IsActive(s, q) && p != q && x in s.procs[q].snapshots.open && OpenDir(x) in s.dirs
    requires s.procs[p].purge.PurgingDirs?
    ensures Enabled(s, Works(p, PurgeReadDirs))
    ensures Enabled(Apply(s, Works(p, PurgeReadDirs)), Works(p, PurgeDir(OpenDir(x))))
            <==> x !in s.procs[p].purge.open && x !in s.procs[p].purge.jobs
  {
  }

  /** And what is on the list is taken, with the snapshot still open. */
  lemma PurgeTakesWhatItListed(s: State, p: Pid, q: Pid, x: Id)
    requires IsActive(s, q) && p != q && x in s.procs[q].snapshots.open && Enabled(s, Works(p, PurgeDir(OpenDir(x))))
    ensures var t := Apply(s, Works(p, PurgeDir(OpenDir(x)))); OpenDir(x) !in t.dirs && IsActive(t, q) && t.procs[q] == s.procs[q]
    ensures var t := Apply(s, Works(p, PurgeDir(OpenDir(x)))); !Enabled(t, Works(p, PurgeDir(OpenDir(x))))
  {
  }

  // ---------------------------------------------------------- over whole runs

  /** A job its process is alone with stays so, whatever step another takes; and so
      does its directory, once listed, unless a purge fails to list. */
  lemma AloneStays(s: State, a: Action, q: Pid, id: Id)
    requires Inv(s) && Enabled(s, a) && q != a.p && Alone(s, q, id)
    ensures Alone(Apply(s, a), q, id) && SameRecord(s, Apply(s, a), id)
  {
    var t := Apply(s, a);
    OthersAreSpared(s, a, q);
    NotWritten(s, a, q, id);
    forall p | p in t.procs && p != q ensures !Pending(t.procs[p], id) && id !in t.procs[p].tasks.running {
      if p == a.p {
        NoneComes(s, a, id);
      } else {
        FrameOf(s, a);
        OtherStays(s, t, a.p, p);
      }
    }
  }

  lemma NotWritten(s: State, a: Action, q: Pid, id: Id)
    requires Enabled(s, a) && q != a.p && NobodyElse(s, q, id) && id in s.jobs
    ensures !Writes(a, id)
  {
    if a.p in s.procs { assert !Pending(s.procs[a.p], id); }
  }

  /** Nobody comes to run a job, or to have read its record, while it is in flight. */
  lemma NoneComes(s: State, a: Action, id: Id)
    requires Enabled(s, a) && InFlightRecord(s, id) && a.p in Apply(s, a).procs
    requires a.p in s.procs ==> !Pending(s.procs[a.p], id) && id !in s.procs[a.p].tasks.running
    ensures var r := Apply(s, a).procs[a.p]; !Pending(r, id) && id !in r.tasks.running
  {
    match a
    case Serves(p, d) => NoneComesByDuty(s, p, d, id);
    case Works(p, w) =>
      WorkPends(s, p, w, id);
      WorkKeepsTasks(s, p, w);
    case Lives(p, l) =>
      if p in s.procs { LifePends(s, p, l); }
    case Sweeps(p, w) => SweepFrame(s, p, w);
  }

  lemma NoneComesByDuty(s: State, p: Pid, d: Duty, id: Id)
    requires CanServe(s, p, d) && InFlightRecord(s, id) && !Pending(s.procs[p], id) && id !in s.procs[p].tasks.running
    ensures p in ApplyDuty(s, p, d).procs
    ensures var r := ApplyDuty(s, p, d).procs[p]; !Pending(r, id) && id !in r.tasks.running
  {
  }

  lemma WorkKeepsTasks(s: State, p: Pid, w: Work)
    requires CanWork(s, p, w)
    ensures p in ApplyWork(s, p, w).procs && ApplyWork(s, p, w).procs[p].tasks == s.procs[p].tasks
  {
  }

  lemma ListedStays(s: State, a: Action, q: Pid, id: Id)
    requires Inv(s) && Enabled(s, a) && q != a.p && Alone(s, q, id) && Listed(s, q, id) && a != Works(a.p, PurgeList(true))
    ensures Listed(Apply(s, a), q, id) && (JobDir(id) in s.dirs ==> JobDir(id) in Apply(s, a).dirs)
  {
    var t := Apply(s, a);
    WhenAJobIsOutOfReach(s, q, id);
    OthersAreSpared(s, a, q);
    assert JobDir(id) in s.dirs ==> Has(s, Dir(JobDir(id)));
    forall p | p in t.procs && p != q ensures Spares(t.procs[p].purge, id) {
      if p == a.p {
        PurgeLists(s, a, id);
      } else {
        FrameOf(s, a);
        OtherStays(s, t, a.p, p);
      }
    }
  }

  lemma PurgeLists(s: State, a: Action, id: Id)
    requires Enabled(s, a) && InFlightRecord(s, id) && a != Works(a.p, PurgeList(true))
    requires a.p in s.procs ==> Spares(s.procs[a.p].purge, id)
    requires a.p in Apply(s, a).procs
    ensures Spares(Apply(s, a).procs[a.p].purge, id)
  {
    match a
    case Serves(p, d) => DutyFrame(s, p, d);
    case Works(p, w) => WorkLists(s, p, w, id);
    case Lives(p, l) =>
      if p in s.procs { LifePends(s, p, l); }
    case Sweeps(p, w) => SweepFrame(s, p, w);
  }

  lemma WorkLists(s: State, p: Pid, w: Work, id: Id)
    requires CanWork(s, p, w) && InFlightRecord(s, id) && w != PurgeList(true)
    requires Spares(s.procs[p].purge, id)
    ensures p in ApplyWork(s, p, w).procs && Spares(ApplyWork(s, p, w).procs[p].purge, id)
  {
  }

  ghost predicate NoneBy(run: seq<Action>, q: Pid) {
    forall i :: 0 <= i < |run| ==> run[i].p != q
  }

  ghost predicate NoListingFails(run: seq<Action>) {
    forall i :: 0 <= i < |run| ==> run[i] != Works(run[i].p, PurgeList(true))
  }

  /** Some step of the run takes the thing away. */
  predicate TakenIn(s: State, run: seq<Action>, th: Thing) {
    run != [] && After(s, run[..|run| - 1]).Some?
    && (TakenIn(s, run[..|run| - 1], th) || Takes(After(s, run[..|run| - 1]).value, run[|run| - 1], th))
  }

  lemma {:induction false} SparedFrom(s: State, run: seq<Action>, q: Pid)
    requires Inv(s) && IsActive(s, q) && After(s, run).Some? && NoneBy(run, q)
    ensures var t := After(s, run).value; Inv(t) && IsActive(t, q) && t.procs[q] == s.procs[q]
    ensures forall th :: Has(s, th) && !TakenIn(s, run, th) ==> Has(After(s, run).value, th)
  {
    if run != [] {
      var before, a := run[..|run| - 1], run[|run| - 1];
      SparedFrom(s, before, q);
      var m := After(s, before).value;
      OthersAreSpared(m, a, q);
      InvIsKept(m, a);
      assert forall th :: !TakenIn(s, run, th) ==> !TakenIn(s, before, th) && !Takes(m, a, th);
    }
  }

  lemma {:induction false} AloneFrom(s: State, run: seq<Action>, q: Pid, id: Id)
    requires Inv(s) && Alone(s, q, id) && After(s, run).Some? && NoneBy(run, q)
    ensures var t := After(s, run).value; Inv(t) && Alone(t, q, id) && SameRecord(s, t, id)
    ensures var t := After(s, run).value;
            Listed(s, q, id) && NoListingFails(run) ==> Listed(t, q, id) && (JobDir(id) in s.dirs ==> JobDir(id) in t.dirs)
  {
    if run != [] {
      var before, a := run[..|run| - 1], run[|run| - 1];
      AloneFrom(s, before, q, id);
      var m := After(s, before).value;
      AloneStays(m, a, q, id);
      InvIsKept(m, a);
      if Listed(s, q, id) && NoListingFails(run) {
        ListedStays(m, a, q, id);
      }
    }
  }

  /** However a process came to hold its claim, and whatever any number of others do
      while it takes no step of its own, sweeping included: what it has to do stays
      what it was, and every directory and index stays unless a step that Takes lists
      takes it. */
  lemma LiveProcessIsSpared(start: State, lead: seq<Action>, run: seq<Action>, q: Pid)
    requires Initial(start) && After(start, lead).Some?
    requires IsActive(After(start, lead).value, q) && NoneBy(run, q) && After(After(start, lead).value, run).Some?
    ensures var s, t := After(start, lead).value, After(After(start, lead).value, run).value;
            IsActive(t, q) && t.procs[q] == s.procs[q] && forall th :: Has(s, th) && !TakenIn(s, run, th) ==> Has(t, th)
  {
    InvAlways(start, lead);
    SparedFrom(After(start, lead).value, run, q);
  }

  /** Over the same stretch a job its process is alone with keeps its record, and with
      every purge listing it its directory: it is not interrupted, discarded, resumed
      or purged by anybody. */
  lemma LiveJobIsSpared(start: State, lead: seq<Action>, run: seq<Action>, q: Pid, id: Id)
    requires Initial(start) && After(start, lead).Some?
    requires Alone(After(start, lead).value, q, id) && NoneBy(run, q) && After(After(start, lead).value, run).Some?
    ensures var s, t := After(start, lead).value, After(After(start, lead).value, run).value;
            Alone(t, q, id) && SameRecord(s, t, id)
            && (Listed(s, q, id) && NoListingFails(run) && JobDir(id) in s.dirs ==> JobDir(id) in t.dirs)
  {
    InvAlways(start, lead);
    AloneFrom(After(start, lead).value, run, q, id);
  }

  /** A job that was just started is one its process is alone with. */
  lemma StartedAlone(s: State, p: Pid, id: Id, work: nat)
    requires CanServe(s, p, StartJob(id, work, true))
    ensures Alone(ApplyDuty(s, p, StartJob(id, work, true)), p, id)
  {
    var t := ApplyDuty(s, p, StartJob(id, work, true));
    DutyFrame(s, p, StartJob(id, work, true));
    forall q | q in t.procs && q != p ensures !Pending(t.procs[q], id) && id !in t.procs[q].tasks.running {
      OtherStays(s, t, p, q);
    }
  }

  /** A job that was just resumed is one its process is alone with, exactly when
      nobody else runs it or has read its record and not yet acted. */
  lemma ResumedAlone(s: State, p: Pid, id: Id)
    requires CanServe(s, p, ResumeWrite(id, true))
    ensures Alone(ApplyDuty(s, p, ResumeWrite(id, true)), p, id) <==> NobodyElse(s, p, id)
  {
    var t := ApplyDuty(s, p, ResumeWrite(id, true));
    DutyFrame(s, p, ResumeWrite(id, true));
    forall q | q != p ensures (q in s.procs <==> q in t.procs) && (q in s.procs ==> t.procs[q] == s.procs[q]) {
      OtherStays(s, t, p, q);
    }
  }

  // -------------------------------------------------------------------- the sweep

  /** A sweep marks interrupted only what no process runs, and loses nothing else of
      the record: the copy it listed is still the record. */
  lemma AdoptChangesOnlyTheState(s: State, p: Pid, id: Id)
    requires Inv(s) && CanSweep(s, p, Adopt(id, false))
    ensures id in s.jobs && s.jobs[id].Readable?
    ensures ApplySweep(s, p, Adopt(id, false)).jobs ==
            var j := s.jobs[id].job;
            if j.state.Queued? || j.state.Running? then s.jobs[id := Readable(j.(state := Interrupted))] else s.jobs
    ensures forall q :: q in s.procs ==> s.procs[q].tasks == NoTasks
  {
    forall q | q in s.procs ensures s.procs[q].tasks == NoTasks {
      if q != p { ExclusiveIsAlone(s, p, q); }
      assert Settled(s.procs[q]);
    }
  }

  ghost predicate NoneUnderWay(jobs: map<Id, Record>) {
    forall id :: id in jobs && jobs[id].Readable? ==> !jobs[id].job.state.Queued? && !jobs[id].job.state.Running?
  }

  /** A step of a sweep that meets an error. */
  predicate Failing(w: Sweep) {
    match w
    case ListJobs(failed) => failed
    case Adopt(_, failed) => failed
    case ListIndexes(failed) => failed
    case DropIndex(_, failed) => failed
    case ListDirs(failed) => failed
    case DropDir(_, failed) => failed
    case _ => false
  }

  /** A process that has started sweeps if nobody holds the folder, and otherwise, unless
      something fails, goes on without. */
  lemma SweepsOrSkips(s: State, p: Pid, h: Handle)
    requires p in s.procs && s.procs[p].phase == Loaded && h !in s.locks
    ensures CanSweep(s, p, Begin(h)) <==> s.locks == map[]
    ensures CanLive(s, p, SkipSweep(false)) <==> s.locks != map[]
  {
  }

  /** A sweep under way can always go on without an error; and one that has met none so
      far is clean and tidy still. */
  lemma SweepGoesOn(s: State, p: Pid) returns (w: Sweep)
    requires InStage(s, p)
    ensures CanSweep(s, p, w) && !Failing(w)
  {
    match StageOf(s, p) {
      case ToListJobs => w := ListJobs(false);
      case Adopting(jobs) =>
        w := JobsDone;
        if jobs != map[] { var id :| id in jobs; w := Adopt(id, false); }
      case ToListIndexes => w := ListIndexes(false);
      case DroppingIndexes(indexes) =>
        w := IndexesDone;
        if indexes != {} { var x :| x in indexes; w := DropIndex(x, false); }
      case ToListDirs => w := ListDirs(false);
      case DroppingDirs(dirs) =>
        w := DirsDone;
        if dirs != {} { var d :| d in dirs; w := DropDir(d, false); }
      case Finished => w := Release;
    }
  }

  lemma OnlyErrorsSpoil(s: State, p: Pid, w: Sweep)
    requires CanSweep(s, p, w) && !Failing(w) && (InStage(s, p) ==> s.procs[p].phase.clean && s.procs[p].phase.tidy)
    ensures p in ApplySweep(s, p, w).procs
    ensures var ph := ApplySweep(s, p, w).procs[p].phase; ph.Sweeping? ==> ph.clean && ph.tidy
  {
  }

  /** When a sweep that met no error gives the folder back, no readable record is
      left queued or running, and no index or working directory is left at all. */
  lemma CleanSweepFinishesTheJob(start: State, run: seq<Action>, p: Pid)
    requires Initial(start) && After(start, run).Some? && CanSweep(After(start, run).value, p, Release)
    ensures var s := After(start, run).value;
            (s.procs[p].phase.clean ==> NoneUnderWay(ApplySweep(s, p, Release).jobs))
            && (s.procs[p].phase.tidy ==> ApplySweep(s, p, Release).indexes == {} && ApplySweep(s, p, Release).dirs == {})
  {
    InvAlways(start, run);
  }

  /** Opening a snapshot makes its working directory, unless it is open already: then
      the session it replaces takes the directory of the new one with it. */
  lemma ReopeningLosesTheDirectory(s: State, p: Pid, x: Id)
    requires IsActive(s, p)
    ensures Enabled(s, Works(p, OpenSnapshot(x)))
    ensures var t := Apply(s, Works(p, OpenSnapshot(x)));
            p in t.procs && x in t.procs[p].snapshots.open && (OpenDir(x) in t.dirs <==> x !in s.procs[p].snapshots.open)
  {
  }
}
