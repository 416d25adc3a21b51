/** Clearing local working data by hand: exactly what goes and what is kept. */
module HomePurge {
  import opened Prelude
  import opened Claims
  import opened HomeProtocol
  import opened HomeSafety
  import opened HomeRuns

  /** A readable record of a job that has not come to its end: one in flight, or
      interrupted and still to be resumed. */
  predicate Unfinished(s: State, id: Id) {
    id in s.jobs && s.jobs[id].Readable? && var st := s.jobs[id].job.state; st.Queued? || st.Running? || st.Interrupted?
  }

  /** One of a job that has: it is not resumed any more. */
  predicate HasEnded(s: State, id: Id) {
    id in s.jobs && s.jobs[id].Readable? && var st := s.jobs[id].job.state; st.Completed? || st.Failed? || st.Cancelled?
  }

  function Own(s: State, p: Pid): set<Id>
    requires p in s.procs
  {
    s.procs[p].snapshots.open
  }

  /** A working directory a purge is to keep: named after a job that has not ended, or
      of a snapshot its own process has open. */
  predicate IsKept(s: State, p: Pid, d: DirName)
    requires p in s.procs
  {
    Unfinished(s, d.id) || (d.OpenDir? && d.id in Own(s, p))
  }

  // ------------------------------------------------------------- what it lists

  lemma ListsUnfinished(s: State, p: Pid)
    requires CanWork(s, p, PurgeList(false))
    ensures p in ApplyWork(s, p, PurgeList(false)).procs
    ensures var pg := ApplyWork(s, p, PurgeList(false)).procs[p].purge;
            pg.PurgingDirs? && pg.open == s.procs[p].purge.open && forall id :: id in pg.jobs <==> Unfinished(s, id)
  {
  }

  /** With no other step between listing the jobs and reading the directories: those to
      be removed are all there are but the ones named after an unfinished job and those
      of the process's own open snapshots. */
  lemma WhatIsToBeRemoved(s: State, p: Pid, d: DirName)
    requires CanWork(s, p, PurgeList(false))
    ensures var m := ApplyWork(s, p, PurgeList(false));
            CanWork(m, p, PurgeReadDirs) && p in ApplyWork(m, p, PurgeReadDirs).procs
            && var pg := ApplyWork(m, p, PurgeReadDirs).procs[p].purge;
               pg.RemovingDirs?
               && (d in pg.dirs <==> d in s.dirs && !Unfinished(s, d.id) && !(d.OpenDir? && d.id in s.procs[p].purge.open))
  {
    ListsUnfinished(s, p);
  }

  /** The records to be removed are those of the jobs that have ended. */
  lemma ListsEnded(s: State, p: Pid)
    requires CanWork(s, p, PurgeListAgain(false))
    ensures p in ApplyWork(s, p, PurgeListAgain(false)).procs
    ensures var pg := ApplyWork(s, p, PurgeListAgain(false)).procs[p].purge;
            pg.PurgingJobs? && forall id :: id in pg.finished <==> HasEnded(s, id)
  {
  }

  // ------------------------------------------------------------ one whole purge

  /** The steps of a purge whose listings succeed, after its first. */
  predicate PurgeStep(w: Work) {
    || w.PurgeReadIndexes? || w.PurgeIndex? || w == PurgeList(false) || w.PurgeReadDirs? || w.PurgeDir?
    || w == PurgeListAgain(false) || w.PurgeJob?
  }

  ghost predicate OnePurge(run: seq<Action>, p: Pid) {
    forall i :: 0 <= i < |run| ==> run[i].Works? && run[i].p == p && PurgeStep(run[i].work)
  }

  /** The indexes there still are: the process's own, and those yet to go. */
  ghost predicate IndexesLeft(s: State, t: State, p: Pid, left: set<Id>)
    requires p in s.procs
  {
    && (forall x :: x in left ==> x in s.indexes && x !in Own(s, p))
    && forall x :: x in t.indexes <==> x in s.indexes && (x in Own(s, p) || x in left)
  }

  ghost predicate DirsLeft(s: State, t: State, p: Pid, left: set<DirName>)
    requires p in s.procs
  {
    && (forall d :: d in left ==> d in s.dirs && !IsKept(s, p, d))
    && forall d :: d in t.dirs <==> d in s.dirs && (IsKept(s, p, d) || d in left)
  }

  ghost predicate JobsLeft(s: State, t: State, left: set<Id>) {
    && (forall id :: id in left ==> HasEnded(s, id))
    && (forall id :: id in t.jobs <==> id in s.jobs && (!HasEnded(s, id) || id in left))
    && forall id :: id in t.jobs ==> t.jobs[id] == s.jobs[id]
  }

  /** How far a purge that began in s has come in t. */
  ghost predicate Exact(s: State, t: State, p: Pid) {
    && p in s.procs && IsActive(t, p)
    && match t.procs[p].purge
       case NoPurge => false
       case PurgingIndexes(open) => open == Own(s, p) && SameHome(s, t)
       case RemovingIndexes(open, left) => open == Own(s, p) && t.jobs == s.jobs && t.dirs == s.dirs && IndexesLeft(s, t, p, left)
       case PurgingDirs(open, jobs) =>
         open == Own(s, p) && t.jobs == s.jobs && t.dirs == s.dirs && IndexesLeft(s, t, p, {})
         && forall id :: id in jobs <==> Unfinished(s, id)
       case RemovingDirs(left) => t.jobs == s.jobs && IndexesLeft(s, t, p, {}) && DirsLeft(s, t, p, left)
       case PurgingJobs(left) => IndexesLeft(s, t, p, {}) && DirsLeft(s, t, p, {}) && JobsLeft(s, t, left)
  }

  lemma BeginsExactly(s: State, p: Pid)
    requires CanWork(s, p, PurgeBegin)
    ensures Exact(s, ApplyWork(s, p, PurgeBegin), p)
  {
  }

  lemma IndexStepIsExact(s: State, t: State, p: Pid, w: Work)
    requires Exact(s, t, p) && CanWork(t, p, w) && (w.PurgeReadIndexes? || w.PurgeIndex? || w == PurgeList(false))
    ensures Exact(s, ApplyWork(t, p, w), p)
  {
  }

  lemma DirStepIsExact(s: State, t: State, p: Pid, w: Work)
    requires Exact(s, t, p) && CanWork(t, p, w) && (w.PurgeReadDirs? || w.PurgeDir?)
    ensures Exact(s, ApplyWork(t, p, w), p)
  {
  }

  lemma JobStepIsExact(s: State, t: State, p: Pid, w: Work)
    requires Exact(s, t, p) && CanWork(t, p, w) && (w == PurgeListAgain(false) || w.PurgeJob?)
    ensures Exact(s, ApplyWork(t, p, w), p)
  {
  }

  lemma {:induction false} StaysExact(s: State, t: State, p: Pid, run: seq<Action>)
    requires Exact(s, t, p) && OnePurge(run, p) && After(t, run).Some?
    ensures Exact(s, After(t, run).value, p)
  {
    if run != [] {
      var before, a := run[..|run| - 1], run[|run| - 1];
      StaysExact(s, t, p, before);
      var m := After(t, before).value;
      if a.work.PurgeReadDirs? || a.work.PurgeDir? {
        DirStepIsExact(s, m, p, a.work);
      } else if a.work.PurgeListAgain? || a.work.PurgeJob? {
        JobStepIsExact(s, m, p, a.work);
      } else {
        IndexStepIsExact(s, m, p, a.work);
      }
    }
  }

  /** Nothing a purge is to keep is gone: the records of unfinished and of unreadable
      jobs, the directories of unfinished ones, and what its own snapshots need. */
  ghost predicate KeptWhole(s: State, t: State, p: Pid)
    requires p in s.procs
  {
    && (forall id :: id in s.jobs && !HasEnded(s, id) ==> id in t.jobs && t.jobs[id] == s.jobs[id])
    && (forall id :: Unfinished(s, id) && JobDir(id) in s.dirs ==> JobDir(id) in t.dirs)
    && (forall x :: x in Own(s, p) && OpenDir(x) in s.dirs ==> OpenDir(x) in t.dirs)
    && (forall x :: x in Own(s, p) && x in s.indexes ==> x in t.indexes)
  }

  /** And nothing else is left. */
  ghost predicate Cleared(s: State, t: State, p: Pid)
    requires p in s.procs
  {
    && (forall id :: HasEnded(s, id) ==> id !in t.jobs)
    && (forall d :: d in t.dirs ==> d in s.dirs && IsKept(s, p, d))
    && (forall x :: x in t.indexes ==> x in Own(s, p))
  }

  /** One purge, with no listing that fails and nobody else about: whatever it has come
      to, it has kept what it is to keep, an interrupted job's record and directory
      among it; and when it has come to its end, everything else has gone. */
  lemma PurgeIsExact(s: State, p: Pid, run: seq<Action>)
    requires CanWork(s, p, PurgeBegin) && OnePurge(run, p) && After(ApplyWork(s, p, PurgeBegin), run).Some?
    ensures var t := After(ApplyWork(s, p, PurgeBegin), run).value;
            KeptWhole(s, t, p) && p in t.procs && (t.procs[p].purge == PurgingJobs({}) ==> Cleared(s, t, p))
  {
    BeginsExactly(s, p);
    StaysExact(s, ApplyWork(s, p, PurgeBegin), p, run);
  }

  // ------------------------------------------------------- it comes to its end

  function StepsToCome(pg: Purge): nat {
    match pg
    case NoPurge => 6
    case PurgingIndexes(_) => 5
    case RemovingIndexes(_, _) => 4
    case PurgingDirs(_, _) => 3
    case RemovingDirs(_) => 2
    case PurgingJobs(_) => 1
  }

  function YetToGo(pg: Purge): nat {
    match pg
    case RemovingIndexes(_, left) => |left|
    case RemovingDirs(left) => |left|
    case PurgingJobs(left) => |left|
    case _ => 0
  }

  /** A purge under way can always go on, and is nearer its end then. */
  lemma PurgeGoesOn(s: State, p: Pid) returns (w: Work)
    requires IsActive(s, p) && !s.procs[p].purge.NoPurge? && s.procs[p].purge != PurgingJobs({})
    ensures PurgeStep(w) && CanWork(s, p, w) && IsActive(ApplyWork(s, p, w), p)
    ensures var a, b := s.procs[p].purge, ApplyWork(s, p, w).procs[p].purge;
            StepsToCome(b) < StepsToCome(a) || (StepsToCome(b) == StepsToCome(a) && YetToGo(b) < YetToGo(a))
    ensures !ApplyWork(s, p, w).procs[p].purge.NoPurge?
  {
    var pg := s.procs[p].purge;
    if YetToGo(pg) == 0 {
      w := match pg
           case PurgingIndexes(_) => PurgeReadIndexes
           case RemovingIndexes(_, _) => PurgeList(false)
           case PurgingDirs(_, _) => PurgeReadDirs
           case _ => PurgeListAgain(false);
    } else {
      w := OneMoreGoes(s, p);
    }
  }

  lemma OneMoreGoes(s: State, p: Pid) returns (w: Work)
    requires IsActive(s, p) && YetToGo(s.procs[p].purge) > 0
    ensures PurgeStep(w) && CanWork(s, p, w) && IsActive(ApplyWork(s, p, w), p)
    ensures var a, b := s.procs[p].purge, ApplyWork(s, p, w).procs[p].purge;
            !b.NoPurge? && StepsToCome(b) == StepsToCome(a) && YetToGo(b) < YetToGo(a)
  {
    match s.procs[p].purge {
      case RemovingIndexes(_, left) =>
        var x :| x in left;
        w := PurgeIndex(x);
      case RemovingDirs(left) =>
        var d :| d in left;
        w := PurgeDir(d);
      case PurgingJobs(left) =>
        var id :| id in left;
        w := PurgeJob(id);
    }
  }

  lemma {:induction false} PurgeEnds(s: State, p: Pid) returns (run: seq<Action>)
    requires IsActive(s, p) && !s.procs[p].purge.NoPurge?
    ensures OnePurge(run, p) && After(s, run).Some? && p in After(s, run).value.procs
    ensures After(s, run).value.procs[p].purge == PurgingJobs({})
    decreases StepsToCome(s.procs[p].purge), YetToGo(s.procs[p].purge)
  {
    run := [];
    if s.procs[p].purge != PurgingJobs({}) {
      var w := PurgeGoesOn(s, p);
      var t := ApplyWork(s, p, w);
      var more := PurgeEnds(t, p);
      Leads(s, [], s, Works(p, w), t);
      assert [] + [Works(p, w)] == [Works(p, w)];
      AfterBoth(s, [Works(p, w)], more);
      run := [Works(p, w)] + more;
    }
  }

  /** A purge can be carried out wherever one can begin, and then it has removed exactly
      what it is to remove. */
  lemma PurgeCanBeCarriedOut(s: State, p: Pid) returns (run: seq<Action>)
    requires CanWork(s, p, PurgeBegin)
    ensures OnePurge(run, p) && After(ApplyWork(s, p, PurgeBegin), run).Some?
    ensures var t := After(ApplyWork(s, p, PurgeBegin), run).value; KeptWhole(s, t, p) && Cleared(s, t, p)
  {
    run := PurgeEnds(ApplyWork(s, p, PurgeBegin), p);
    PurgeIsExact(s, p, run);
  }

  /** A purge ends at any time, and another can begin. */
  lemma PurgeMayBeRepeated(s: State, p: Pid)
    requires IsActive(s, p)
    ensures CanWork(s, p, PurgeEnd) && CanWork(ApplyWork(s, p, PurgeEnd), p, PurgeBegin) && SameHome(s, ApplyWork(s, p, PurgeEnd))
  {
  }

  // --------------------------------------------- an interrupted job left alone

  /** A job is recorded as interrupted, and nobody runs it, or has read its record to act
      on it, or is about to remove its directory in a purge. */
  ghost predicate Resting(s: State, id: Id) {
    && id in s.jobs && s.jobs[id].Readable? && s.jobs[id].job.state.Interrupted?
    && forall p :: p in s.procs ==> RestsBeside(s.procs[p], id)
  }

  predicate RestsBeside(q: Proc, id: Id) {
    !Pending(q, id) && id !in q.tasks.running && Spares(q.purge, id)
  }

  /** A step that reads the record to discard or to resume the job, or with which a purge
      fails to list the jobs. */
  predicate Disturbs(a: Action, id: Id) {
    a == Serves(a.p, DiscardRead(id)) || a == Serves(a.p, ResumeRead(id)) || a == Works(a.p, PurgeList(true))
  }

  lemma DutyLeavesResting(s: State, p: Pid, d: Duty, id: Id)
    requires Resting(s, id) && CanServe(s, p, d) && !Disturbs(Serves(p, d), id)
    ensures var t := ApplyDuty(s, p, d);
            p in t.procs && RestsBeside(t.procs[p], id) && SameRecord(s, t, id) && (JobDir(id) in s.dirs ==> JobDir(id) in t.dirs)
  {
    assert RestsBeside(s.procs[p], id);
  }

  lemma WorkLeavesResting(s: State, p: Pid, w: Work, id: Id)
    requires Resting(s, id) && CanWork(s, p, w) && !Disturbs(Works(p, w), id)
    ensures var t := ApplyWork(s, p, w);
            p in t.procs && RestsBeside(t.procs[p], id) && SameRecord(s, t, id) && (JobDir(id) in s.dirs ==> JobDir(id) in t.dirs)
  {
    assert RestsBeside(s.procs[p], id);
    WorkKeepsTasks(s, p, w);
    WorkLeavesJobs(s, p, w);
    if JobDir(id) in s.dirs { WorkTakes(s, p, w, Dir(JobDir(id))); }
    PurgeStaysBeside(s, p, w, id);
    NotAmongTheEnded(s, p, w, id);
  }

  lemma PurgeStaysBeside(s: State, p: Pid, w: Work, id: Id)
    requires CanWork(s, p, w) && w != PurgeList(true) && Unfinished(s, id) && Spares(s.procs[p].purge, id)
    ensures p in ApplyWork(s, p, w).procs && Spares(ApplyWork(s, p, w).procs[p].purge, id)
  {
  }

  lemma NotAmongTheEnded(s: State, p: Pid, w: Work, id: Id)
    requires CanWork(s, p, w) && Unfinished(s, id) && !(s.procs[p].purge.PurgingJobs? && id in s.procs[p].purge.finished)
    ensures p in ApplyWork(s, p, w).procs
    ensures var pg := ApplyWork(s, p, w).procs[p].purge; !(pg.PurgingJobs? && id in pg.finished)
  {
  }

  lemma LifeLeavesResting(s: State, p: Pid, l: Life, id: Id)
    requires Resting(s, id) && CanLive(s, p, l)
    ensures var t := ApplyLife(s, p, l);
            (p in t.procs ==> RestsBeside(t.procs[p], id)) && SameRecord(s, t, id) && (JobDir(id) in s.dirs ==> JobDir(id) in t.dirs)
  {
    assert p in s.procs ==> RestsBeside(s.procs[p], id);
  }

  lemma StaysResting(s: State, a: Action, q: Pid, id: Id)
    requires Inv(s) && Enabled(s, a) && IsActive(s, q) && q != a.p && Resting(s, id) && !Disturbs(a, id)
    ensures Resting(Apply(s, a), id) && SameRecord(s, Apply(s, a), id) && (JobDir(id) in s.dirs ==> JobDir(id) in Apply(s, a).dirs)
  {
    var t := Apply(s, a);
    OthersAreSpared(s, a, q);
    match a {
      case Lives(p, l) => LifeLeavesResting(s, p, l, id);
      case Serves(p, d) => DutyLeavesResting(s, p, d, id);
      case Works(p, w) => WorkLeavesResting(s, p, w, id);
    }
    FrameOf(s, a);
    forall p | p in t.procs ensures RestsBeside(t.procs[p], id) {
      if p != a.p { OtherStays(s, t, a.p, p); }
    }
  }

  predicate NeverDisturbed(run: seq<Action>, id: Id) {
    run == [] || (NeverDisturbed(run[..|run| - 1], id) && !Disturbs(run[|run| - 1], id))
  }

  /** Beside a live process an interrupted job that nobody discards or resumes keeps its
      record and its directory, however many others come and go, purge and crash. */
  lemma {:induction false} InterruptedJobIsKept(s: State, run: seq<Action>, q: Pid, id: Id)
    requires Inv(s) && IsActive(s, q) && NoneBy(run, q) && After(s, run).Some?
    requires Resting(s, id) && NeverDisturbed(run, id)
    ensures var t := After(s, run).value;
            Inv(t) && IsActive(t, q) && Resting(t, id) && SameRecord(s, t, id) && (JobDir(id) in s.dirs ==> JobDir(id) in t.dirs)
  {
    if run != [] {
      var before, a := run[..|run| - 1], run[|run| - 1];
      InterruptedJobIsKept(s, before, q, id);
      var m := After(s, before).value;
      OthersAreSpared(m, a, q);
      StaysResting(m, a, q, id);
      InvIsKept(m, a);
    }
  }
}
