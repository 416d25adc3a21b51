/** Runs of the home folder, step by step, from an empty folder. */
module HomeRuns {
  import opened Prelude
  import opened Claims
  import opened HomeProtocol

  lemma Leads(start: State, run: seq<Action>, s: State, a: Action, t: State)
    requires After(start, run) == Some(s) && Enabled(s, a) && Apply(s, a) == t
    ensures After(start, run + [a]) == Some(t)
  {
    assert (run + [a])[..|run + [a]| - 1] == run;
  }

  lemma {:induction false} AfterBoth(start: State, run: seq<Action>, more: seq<Action>)
    requires After(start, run).Some?
    ensures After(start, run + more) == After(After(start, run).value, more)
  {
    if more == [] {
      assert run + more == run;
    } else {
      var last := more[|more| - 1];
      AfterBoth(start, run, more[..|more| - 1]);
      assert (run + more)[..|run + more| - 1] == run + more[..|more| - 1];
    }
  }

  lemma Two(s: State, a: Action, m: State, b: Action, t: State)
    requires Enabled(s, a) && m == Apply(s, a) && Enabled(m, b) && t == Apply(m, b)
    ensures After(s, [a, b]) == Some(t)
  {
    Leads(s, [], s, a, m);
    assert [] + [a] == [a];
    Leads(s, [a], m, b, t);
    assert [a] + [b] == [a, b];
  }

  // ------------------------------------------------------ a sweep of an empty folder

  /** A process that has opened nothing and done nothing. */
  function Idle(ph: Phase): Proc {
    Proc(ph, NoSnapshots, NoTasks, NoPurge, [], 0, false)
  }

  /** A folder with nothing in it. */
  function Home(procs: map<Pid, Proc>, locks: Table): State {
    State(procs, locks, map[], {}, {}, [], [], None)
  }

  function Sweeper(others: map<Pid, Proc>, p: Pid, stage: Stage): State {
    Home(others[p := Idle(Sweeping(0, stage, true, true))], map[0 := Exclusive])
  }

  function EmptySweep(p: Pid): seq<Action> {
    [Sweeps(p, Begin(0)), Sweeps(p, ListJobs(false))]
    + [Sweeps(p, JobsDone), Sweeps(p, ListIndexes(false))]
    + [Sweeps(p, IndexesDone), Sweeps(p, ListDirs(false))]
    + [Sweeps(p, DirsDone), Sweeps(p, Release)]
  }

  lemma SweepBegins(others: map<Pid, Proc>, p: Pid)
    ensures After(Home(others[p := Idle(Loaded)], map[]), [Sweeps(p, Begin(0)), Sweeps(p, ListJobs(false))])
            == Some(Sweeper(others, p, Adopting(map[])))
  {
    var s := Home(others[p := Idle(Loaded)], map[]);
    var m := Sweeper(others, p, ToListJobs);
    assert ApplySweep(s, p, Begin(0)) == m;
    assert ReadableJobs(m) == map[];
    assert ApplySweep(m, p, ListJobs(false)) == Sweeper(others, p, Adopting(map[]));
    Two(s, Sweeps(p, Begin(0)), m, Sweeps(p, ListJobs(false)), Sweeper(others, p, Adopting(map[])));
  }

  lemma SweepFindsNoJobs(others: map<Pid, Proc>, p: Pid)
    ensures After(Sweeper(others, p, Adopting(map[])), [Sweeps(p, JobsDone), Sweeps(p, ListIndexes(false))])
            == Some(Sweeper(others, p, DroppingIndexes({})))
  {
    var s, m := Sweeper(others, p, Adopting(map[])), Sweeper(others, p, ToListIndexes);
    assert ApplySweep(s, p, JobsDone) == m;
    assert ApplySweep(m, p, ListIndexes(false)) == Sweeper(others, p, DroppingIndexes({}));
    Two(s, Sweeps(p, JobsDone), m, Sweeps(p, ListIndexes(false)), Sweeper(others, p, DroppingIndexes({})));
  }

  lemma SweepFindsNoIndexes(others: map<Pid, Proc>, p: Pid)
    ensures After(Sweeper(others, p, DroppingIndexes({})), [Sweeps(p, IndexesDone), Sweeps(p, ListDirs(false))])
            == Some(Sweeper(others, p, DroppingDirs({})))
  {
    var s, m := Sweeper(others, p, DroppingIndexes({})), Sweeper(others, p, ToListDirs);
    assert ApplySweep(s, p, IndexesDone) == m;
    assert ApplySweep(m, p, ListDirs(false)) == Sweeper(others, p, DroppingDirs({}));
    Two(s, Sweeps(p, IndexesDone), m, Sweeps(p, ListDirs(false)), Sweeper(others, p, DroppingDirs({})));
  }

  lemma SweepFindsNoDirs(others: map<Pid, Proc>, p: Pid)
    ensures After(Sweeper(others, p, DroppingDirs({})), [Sweeps(p, DirsDone), Sweeps(p, Release)])
            == Some(Home(others[p := Idle(Swept)], map[]))
  {
    var s, m := Sweeper(others, p, DroppingDirs({})), Sweeper(others, p, Finished);
    assert ApplySweep(s, p, DirsDone) == m;
    assert ApplySweep(m, p, Release) == Home(others[p := Idle(Swept)], map[]);
    Two(s, Sweeps(p, DirsDone), m, Sweeps(p, Release), Home(others[p := Idle(Swept)], map[]));
  }

  lemma EmptySweepRuns(others: map<Pid, Proc>, p: Pid)
    ensures After(Home(others[p := Idle(Loaded)], map[]), EmptySweep(p)) == Some(Home(others[p := Idle(Swept)], map[]))
  {
    var s := Home(others[p := Idle(Loaded)], map[]);
    var a, b := [Sweeps(p, Begin(0)), Sweeps(p, ListJobs(false))], [Sweeps(p, JobsDone), Sweeps(p, ListIndexes(false))];
    var c, d := [Sweeps(p, IndexesDone), Sweeps(p, ListDirs(false))], [Sweeps(p, DirsDone), Sweeps(p, Release)];
    SweepBegins(others, p);
    SweepFindsNoJobs(others, p);
    SweepFindsNoIndexes(others, p);
    SweepFindsNoDirs(others, p);
    AfterBoth(s, a, b);
    AfterBoth(s, a + b, c);
    AfterBoth(s, a + b + c, d);
  }

  // ------------------------------------------------ two processes side by side

  /** Two processes that hold the folder shared, with these snapshots, tasks and
      purges under way. */
  function Beside(h0: Snapshots, t0: Tasks, g0: Purge, h1: Snapshots, t1: Tasks, jobs: map<Id, Record>, dirs: set<DirName>): State {
    State(map[0 := Proc(Active(0, Shared), h0, t0, g0, [], 0, false), 1 := Proc(Active(1, Shared), h1, t1, NoPurge, [], 0, false)],
          map[0 := Shared, 1 := Shared], jobs, dirs, {}, [], [], None)
  }

  /** The first starts, sweeps the empty folder and claims it; the second starts, is
      refused the sweep, and claims the folder beside the first. */
  function Arrivals(): seq<Action> {
    ([Lives(0, Start)] + EmptySweep(0))
    + [Lives(0, Claim(0, Shared)), Lives(1, Start)]
    + [Lives(1, SkipSweep(false)), Lives(1, Claim(1, Shared))]
  }

  lemma FirstSweeps()
    ensures After(Home(map[], map[]), [Lives(0, Start)] + EmptySweep(0)) == Some(Home(map[0 := Idle(Swept)], map[]))
  {
    var s := Home(map[], map[]);
    var none: map<Pid, Proc> := map[];
    assert ApplyLife(s, 0, Start) == Home(none[0 := Idle(Loaded)], map[]);
    Leads(s, [], s, Lives(0, Start), Home(none[0 := Idle(Loaded)], map[]));
    assert [] + [Lives(0, Start)] == [Lives(0, Start)];
    EmptySweepRuns(none, 0);
    AfterBoth(s, [Lives(0, Start)], EmptySweep(0));
    assert none[0 := Idle(Swept)] == map[0 := Idle(Swept)];
  }

  lemma FirstClaims(m: State)
    requires m == Home(map[0 := Idle(Active(0, Shared)), 1 := Idle(Loaded)], map[0 := Shared])
    ensures After(Home(map[0 := Idle(Swept)], map[]), [Lives(0, Claim(0, Shared)), Lives(1, Start)]) == Some(m)
  {
    var s, c := Home(map[0 := Idle(Swept)], map[]), Home(map[0 := Idle(Active(0, Shared))], map[0 := Shared]);
    assert ApplyLife(s, 0, Claim(0, Shared)) == c;
    assert ApplyLife(c, 1, Start) == m;
    Two(s, Lives(0, Claim(0, Shared)), c, Lives(1, Start), m);
  }

  lemma SecondJoins(m: State)
    requires m == Home(map[0 := Idle(Active(0, Shared)), 1 := Idle(Loaded)], map[0 := Shared])
    ensures After(m, [Lives(1, SkipSweep(false)), Lives(1, Claim(1, Shared))])
            == Some(Beside(NoSnapshots, NoTasks, NoPurge, NoSnapshots, NoTasks, map[], {}))
  {
    var t := Beside(NoSnapshots, NoTasks, NoPurge, NoSnapshots, NoTasks, map[], {});
    var k := Home(map[0 := Idle(Active(0, Shared)), 1 := Idle(Swept)], map[0 := Shared]);
    assert 0 in m.locks && !Grants(m.locks, Exclusive);
    assert ApplyLife(m, 1, SkipSweep(false)) == k;
    assert ApplyLife(k, 1, Claim(1, Shared)) == t;
    Two(m, Lives(1, SkipSweep(false)), k, Lives(1, Claim(1, Shared)), t);
  }

  lemma BothArrive()
    ensures After(Home(map[], map[]), Arrivals()) == Some(Beside(NoSnapshots, NoTasks, NoPurge, NoSnapshots, NoTasks, map[], {}))
  {
    var m := Home(map[0 := Idle(Active(0, Shared)), 1 := Idle(Loaded)], map[0 := Shared]);
    FirstSweeps();
    FirstClaims(m);
    SecondJoins(m);
    var s, a := Home(map[], map[]), [Lives(0, Start)] + EmptySweep(0);
    var b, c := [Lives(0, Claim(0, Shared)), Lives(1, Start)], [Lives(1, SkipSweep(false)), Lives(1, Claim(1, Shared))];
    AfterBoth(s, a, b);
    AfterBoth(s, a + b, c);
  }

  // --------------------------------------- a purge takes another's open snapshot

  function PurgeAcross(x: Id): seq<Action> {
    [Works(1, OpenSnapshot(x)), Works(0, PurgeBegin)] + [Works(0, PurgeReadIndexes)]
    + [Works(0, PurgeList(false)), Works(0, PurgeReadDirs)] + [Works(0, PurgeDir(OpenDir(x)))]
  }

  /** From an empty folder: the second process opens a snapshot, the first purges, and
      the snapshot is still open and its directory gone. */
  lemma PurgeTakesAnOpenSnapshot(x: Id)
    ensures After(Home(map[], map[]), Arrivals() + PurgeAcross(x)).Some?
    ensures var t := After(Home(map[], map[]), Arrivals() + PurgeAcross(x)).value;
            IsActive(t, 1) && x in t.procs[1].snapshots.open && OpenDir(x) !in t.dirs
  {
    var h := Snapshots({x}, {}, {});
    var s0 := Beside(NoSnapshots, NoTasks, NoPurge, NoSnapshots, NoTasks, map[], {});
    var s1 := Beside(NoSnapshots, NoTasks, NoPurge, h, NoTasks, map[], {OpenDir(x)});
    var s2 := Beside(NoSnapshots, NoTasks, PurgingIndexes({}), h, NoTasks, map[], {OpenDir(x)});
    var s3 := Beside(NoSnapshots, NoTasks, RemovingIndexes({}, {}), h, NoTasks, map[], {OpenDir(x)});
    var s4 := Beside(NoSnapshots, NoTasks, RemovingDirs({OpenDir(x)}), h, NoTasks, map[], {OpenDir(x)});
    var s5 := Beside(NoSnapshots, NoTasks, RemovingDirs({}), h, NoTasks, map[], {});
    SnapshotIsOpened(x, s0, s1, s2);
    PurgeFindsNoIndexes(x, s2, s3);
    PurgeComesToIt(x, s3, s4);
    PurgeRemovesIt(x, s4, s5);
    var a, b := [Works(1, OpenSnapshot(x)), Works(0, PurgeBegin)], [Works(0, PurgeReadIndexes)];
    var c := [Works(0, PurgeList(false)), Works(0, PurgeReadDirs)];
    Leads(s0, a, s2, Works(0, PurgeReadIndexes), s3);
    AfterBoth(s0, a + b, c);
    Leads(s0, a + b + c, s4, Works(0, PurgeDir(OpenDir(x))), s5);
    BothArrive();
    AfterBoth(Home(map[], map[]), Arrivals(), PurgeAcross(x));
  }

  lemma FirstOpening(x: Id, s: State, t: State)
    requires s == Beside(NoSnapshots, NoTasks, NoPurge, NoSnapshots, NoTasks, map[], {})
    requires t == Beside(NoSnapshots, NoTasks, NoPurge, Snapshots({x}, {}, {}), NoTasks, map[], {OpenDir(x)})
    ensures ApplyWork(s, 1, OpenSnapshot(x)) == t
  {
    assert NoSnapshots.(open := NoSnapshots.open + {x}) == Snapshots({x}, {}, {});
    assert s.dirs + {OpenDir(x)} == {OpenDir(x)};
  }

  lemma SnapshotIsOpened(x: Id, s0: State, s1: State, s2: State)
    requires s0 == Beside(NoSnapshots, NoTasks, NoPurge, NoSnapshots, NoTasks, map[], {})
    requires s1 == Beside(NoSnapshots, NoTasks, NoPurge, Snapshots({x}, {}, {}), NoTasks, map[], {OpenDir(x)})
    requires s2 == Beside(NoSnapshots, NoTasks, PurgingIndexes({}), Snapshots({x}, {}, {}), NoTasks, map[], {OpenDir(x)})
    ensures After(s0, [Works(1, OpenSnapshot(x)), Works(0, PurgeBegin)]) == Some(s2)
  {
    FirstOpening(x, s0, s1);
    assert ApplyWork(s1, 0, PurgeBegin) == s2;
    Two(s0, Works(1, OpenSnapshot(x)), s1, Works(0, PurgeBegin), s2);
  }

  lemma PurgeFindsNoIndexes(x: Id, s2: State, s3: State)
    requires s2 == Beside(NoSnapshots, NoTasks, PurgingIndexes({}), Snapshots({x}, {}, {}), NoTasks, map[], {OpenDir(x)})
    requires s3 == Beside(NoSnapshots, NoTasks, RemovingIndexes({}, {}), Snapshots({x}, {}, {}), NoTasks, map[], {OpenDir(x)})
    ensures CanWork(s2, 0, PurgeReadIndexes) && ApplyWork(s2, 0, PurgeReadIndexes) == s3
  {
    assert s2.indexes - {} == {};
  }

  lemma PurgeLists(x: Id, s3: State, k: State)
    requires s3 == Beside(NoSnapshots, NoTasks, RemovingIndexes({}, {}), Snapshots({x}, {}, {}), NoTasks, map[], {OpenDir(x)})
    requires k == Beside(NoSnapshots, NoTasks, PurgingDirs({}, {}), Snapshots({x}, {}, {}), NoTasks, map[], {OpenDir(x)})
    ensures CanWork(s3, 0, PurgeList(false)) && ApplyWork(s3, 0, PurgeList(false)) == k
  {
    assert NotTerminal(s3) == {};
  }

  lemma PurgeReads(x: Id, k: State, s4: State)
    requires k == Beside(NoSnapshots, NoTasks, PurgingDirs({}, {}), Snapshots({x}, {}, {}), NoTasks, map[], {OpenDir(x)})
    requires s4 == Beside(NoSnapshots, NoTasks, RemovingDirs({OpenDir(x)}), Snapshots({x}, {}, {}), NoTasks, map[], {OpenDir(x)})
    ensures CanWork(k, 0, PurgeReadDirs) && ApplyWork(k, 0, PurgeReadDirs) == s4
  {
    assert (set d | d in k.dirs && !PurgeKeeps(PurgingDirs({}, {}), d)) == {OpenDir(x)};
  }

  lemma PurgeComesToIt(x: Id, s3: State, s4: State)
    requires s3 == Beside(NoSnapshots, NoTasks, RemovingIndexes({}, {}), Snapshots({x}, {}, {}), NoTasks, map[], {OpenDir(x)})
    requires s4 == Beside(NoSnapshots, NoTasks, RemovingDirs({OpenDir(x)}), Snapshots({x}, {}, {}), NoTasks, map[], {OpenDir(x)})
    ensures After(s3, [Works(0, PurgeList(false)), Works(0, PurgeReadDirs)]) == Some(s4)
  {
    var k := Beside(NoSnapshots, NoTasks, PurgingDirs({}, {}), Snapshots({x}, {}, {}), NoTasks, map[], {OpenDir(x)});
    PurgeLists(x, s3, k);
    PurgeReads(x, k, s4);
    Two(s3, Works(0, PurgeList(false)), k, Works(0, PurgeReadDirs), s4);
  }

  lemma PurgeRemovesIt(x: Id, s4: State, s5: State)
    requires s4 == Beside(NoSnapshots, NoTasks, RemovingDirs({OpenDir(x)}), Snapshots({x}, {}, {}), NoTasks, map[], {OpenDir(x)})
    requires s5 == Beside(NoSnapshots, NoTasks, RemovingDirs({}), Snapshots({x}, {}, {}), NoTasks, map[], {})
    ensures CanWork(s4, 0, PurgeDir(OpenDir(x))) && ApplyWork(s4, 0, PurgeDir(OpenDir(x))) == s5
  {
    var d := {OpenDir(x)};
    assert d - {OpenDir(x)} == {};
  }

  // ------------------------------------ a discard, or a resume, that read before

  /** Two processes that have only jobs to do with, and one job recorded. */
  function Working(t0: Tasks, t1: Tasks, jobs: map<Id, Record>, dirs: set<DirName>): State {
    Beside(NoSnapshots, t0, NoPurge, NoSnapshots, t1, jobs, dirs)
  }

  function Holds(id: Id, job: Job): map<Id, Record> {
    map[id := Readable(job)]
  }

  /** The first process starts a job that is then interrupted, as a connection that
      drops leaves it. */
  function Interruption(id: Id, w: nat): seq<Action> {
    [Serves(0, StartJob(id, w, true)), Serves(0, UpdateJob(id, Interrupted, w, true))]
  }

  lemma JobStarts(id: Id, w: nat, s: State, t: State)
    requires s == Working(NoTasks, NoTasks, map[], {})
    requires t == Working(Tasks({id}, {}, map[]), NoTasks, Holds(id, Job(Queued, w)), {})
    ensures CanServe(s, 0, StartJob(id, w, true)) && ApplyDuty(s, 0, StartJob(id, w, true)) == t
  {
    assert Unused(s, id);
    assert NoTasks.(running := NoTasks.running + {id}) == Tasks({id}, {}, map[]);
  }

  lemma JobDrops(id: Id, w: nat, s: State, t: State)
    requires s == Working(Tasks({id}, {}, map[]), NoTasks, Holds(id, Job(Queued, w)), {})
    requires t == Working(NoTasks, NoTasks, Holds(id, Job(Interrupted, w)), {})
    ensures CanServe(s, 0, UpdateJob(id, Interrupted, w, true)) && ApplyDuty(s, 0, UpdateJob(id, Interrupted, w, true)) == t
  {
    assert s.procs[0].tasks.(running := {id} - {id}) == NoTasks;
  }

  lemma JobIsInterrupted(id: Id, w: nat)
    ensures After(Home(map[], map[]), Arrivals() + Interruption(id, w)) == Some(Working(NoTasks, NoTasks, Holds(id, Job(Interrupted, w)), {}))
  {
    var s0, s2 := Working(NoTasks, NoTasks, map[], {}), Working(NoTasks, NoTasks, Holds(id, Job(Interrupted, w)), {});
    var s1 := Working(Tasks({id}, {}, map[]), NoTasks, Holds(id, Job(Queued, w)), {});
    JobStarts(id, w, s0, s1);
    JobDrops(id, w, s1, s2);
    Two(s0, Serves(0, StartJob(id, w, true)), s1, Serves(0, UpdateJob(id, Interrupted, w, true)), s2);
    BothArrive();
    AfterBoth(Home(map[], map[]), Arrivals(), Interruption(id, w));
  }

  /** The second reads the record to discard the job; the first reads it and resumes
      the job; and only then does the second act. */
  function LateDiscard(id: Id): seq<Action> {
    [Serves(1, DiscardRead(id)), Serves(0, ResumeRead(id))]
    + [Serves(0, ResumeWrite(id, true)), Serves(0, MakeJobDir(id))]
    + [Serves(1, DiscardDir(id)), Serves(1, DiscardRecord(id, false))]
  }

  lemma ReadToDiscard(id: Id, j: Job, s: State, t: State)
    requires j.state == Interrupted && s == Working(NoTasks, NoTasks, Holds(id, j), {})
    requires t == Working(NoTasks, Tasks({}, {id}, map[]), Holds(id, j), {})
    ensures CanServe(s, 1, DiscardRead(id)) && ApplyDuty(s, 1, DiscardRead(id)) == t
  {
    assert NoTasks.(discards := NoTasks.discards + {id}) == Tasks({}, {id}, map[]);
  }

  lemma ReadToResume(id: Id, j: Job, t1: Tasks, s: State, t: State)
    requires j.state == Interrupted && s == Working(NoTasks, t1, Holds(id, j), {})
    requires t == Working(Tasks({}, {}, map[id := j]), t1, Holds(id, j), {})
    ensures CanServe(s, 0, ResumeRead(id)) && ApplyDuty(s, 0, ResumeRead(id)) == t
  {
    assert NoTasks.(resumes := NoTasks.resumes[id := j]) == Tasks({}, {}, map[id := j]);
  }

  lemma BothRead(id: Id, j: Job, s: State)
    requires j.state == Interrupted && s == Working(Tasks({}, {}, map[id := j]), Tasks({}, {id}, map[]), Holds(id, j), {})
    ensures After(Working(NoTasks, NoTasks, Holds(id, j), {}), [Serves(1, DiscardRead(id)), Serves(0, ResumeRead(id))]) == Some(s)
  {
    var a, b := Working(NoTasks, NoTasks, Holds(id, j), {}), Working(NoTasks, Tasks({}, {id}, map[]), Holds(id, j), {});
    ReadToDiscard(id, j, a, b);
    ReadToResume(id, j, Tasks({}, {id}, map[]), b, s);
    Two(a, Serves(1, DiscardRead(id)), b, Serves(0, ResumeRead(id)), s);
  }

  lemma FirstResuming(id: Id, j: Job, t1: Tasks, s: State, t: State)
    requires s == Working(Tasks({}, {}, map[id := j]), t1, Holds(id, j), {})
    requires t == Working(Tasks({id}, {}, map[]), t1, Holds(id, j.(state := Running)), {})
    ensures CanServe(s, 0, ResumeWrite(id, true)) && ApplyDuty(s, 0, ResumeWrite(id, true)) == t
  {
    assert s.procs[0].tasks.(running := {} + {id}, resumes := map[id := j] - {id}) == Tasks({id}, {}, map[]);
    assert Holds(id, j)[id := Readable(j.(state := Running))] == Holds(id, j.(state := Running));
  }

  lemma FirstResumes(id: Id, j: Job, s: State, t: State)
    requires j.state == Interrupted && s == Working(Tasks({}, {}, map[id := j]), Tasks({}, {id}, map[]), Holds(id, j), {})
    requires t == Working(Tasks({id}, {}, map[]), Tasks({}, {id}, map[]), Holds(id, j.(state := Running)), {JobDir(id)})
    ensures After(s, [Serves(0, ResumeWrite(id, true)), Serves(0, MakeJobDir(id))]) == Some(t)
  {
    var m := Working(Tasks({id}, {}, map[]), Tasks({}, {id}, map[]), Holds(id, j.(state := Running)), {});
    FirstResuming(id, j, Tasks({}, {id}, map[]), s, m);
    assert m.dirs + {JobDir(id)} == {JobDir(id)};
    assert ApplyDuty(m, 0, MakeJobDir(id)) == t;
    Two(s, Serves(0, ResumeWrite(id, true)), m, Serves(0, MakeJobDir(id)), t);
  }

  lemma SecondDiscards(id: Id, j: Job, s: State)
    requires s == Working(Tasks({id}, {}, map[]), Tasks({}, {id}, map[]), Holds(id, j), {JobDir(id)})
    ensures After(s, [Serves(1, DiscardDir(id)), Serves(1, DiscardRecord(id, false))])
            == Some(Working(Tasks({id}, {}, map[]), NoTasks, map[], {}))
  {
    var m := Working(Tasks({id}, {}, map[]), Tasks({}, {id}, map[]), Holds(id, j), {});
    assert s.dirs - {JobDir(id)} == {};
    assert ApplyDuty(s, 1, DiscardDir(id)) == m;
    assert Holds(id, j) - {id} == map[];
    assert m.procs[1].tasks.(discards := {id} - {id}) == NoTasks;
    assert ApplyDuty(m, 1, DiscardRecord(id, false)) == Working(Tasks({id}, {}, map[]), NoTasks, map[], {});
    Two(s, Serves(1, DiscardDir(id)), m, Serves(1, DiscardRecord(id, false)), Working(Tasks({id}, {}, map[]), NoTasks, map[], {}));
  }

  /** From an empty folder, without any purge: a live process is running a job whose
      record and directory another has taken. */
  lemma DiscardTakesARunningJob(id: Id, w: nat)
    ensures var run := Arrivals() + Interruption(id, w) + LateDiscard(id);
            After(Home(map[], map[]), run).Some?
            && var t := After(Home(map[], map[]), run).value;
               IsActive(t, 0) && Runs(t, 0, id) && id !in t.jobs && JobDir(id) !in t.dirs
  {
    var j := Job(Interrupted, w);
    var s := Working(NoTasks, NoTasks, Holds(id, j), {});
    var read := Working(Tasks({}, {}, map[id := j]), Tasks({}, {id}, map[]), Holds(id, j), {});
    var resumed := Working(Tasks({id}, {}, map[]), Tasks({}, {id}, map[]), Holds(id, j.(state := Running)), {JobDir(id)});
    var a := [Serves(1, DiscardRead(id)), Serves(0, ResumeRead(id))];
    var b := [Serves(0, ResumeWrite(id, true)), Serves(0, MakeJobDir(id))];
    var c := [Serves(1, DiscardDir(id)), Serves(1, DiscardRecord(id, false))];
    BothRead(id, j, read);
    FirstResumes(id, j, read, resumed);
    SecondDiscards(id, j.(state := Running), resumed);
    AfterBoth(s, a, b);
    AfterBoth(s, a + b, c);
    JobIsInterrupted(id, w);
    AfterBoth(Home(map[], map[]), Arrivals() + Interruption(id, w), LateDiscard(id));
  }

  /** Both read the record to resume the job; the first resumes it and gets on with
      it, and then the second resumes it from what it had read. */
  function LateResume(id: Id, v: nat): seq<Action> {
    [Serves(1, ResumeRead(id)), Serves(0, ResumeRead(id))]
    + [Serves(0, ResumeWrite(id, true)), Serves(0, UpdateJob(id, Running, v, true))]
    + [Serves(1, ResumeWrite(id, true))]
  }

  lemma SecondReads(id: Id, j: Job, s: State, t: State)
    requires j.state == Interrupted && s == Working(NoTasks, NoTasks, Holds(id, j), {})
    requires t == Working(NoTasks, Tasks({}, {}, map[id := j]), Holds(id, j), {})
    ensures CanServe(s, 1, ResumeRead(id)) && ApplyDuty(s, 1, ResumeRead(id)) == t
  {
    assert NoTasks.(resumes := NoTasks.resumes[id := j]) == Tasks({}, {}, map[id := j]);
  }

  lemma BothReadToResume(id: Id, j: Job, s: State)
    requires j.state == Interrupted && s == Working(Tasks({}, {}, map[id := j]), Tasks({}, {}, map[id := j]), Holds(id, j), {})
    ensures After(Working(NoTasks, NoTasks, Holds(id, j), {}), [Serves(1, ResumeRead(id)), Serves(0, ResumeRead(id))]) == Some(s)
  {
    var a, b := Working(NoTasks, NoTasks, Holds(id, j), {}), Working(NoTasks, Tasks({}, {}, map[id := j]), Holds(id, j), {});
    SecondReads(id, j, a, b);
    ReadToResume(id, j, Tasks({}, {}, map[id := j]), b, s);
    Two(a, Serves(1, ResumeRead(id)), b, Serves(0, ResumeRead(id)), s);
  }

  lemma FirstGetsOn(id: Id, j: Job, v: nat, s: State, t: State)
    requires j.state == Interrupted && s == Working(Tasks({}, {}, map[id := j]), Tasks({}, {}, map[id := j]), Holds(id, j), {})
    requires t == Working(Tasks({id}, {}, map[]), Tasks({}, {}, map[id := j]), Holds(id, Job(Running, v)), {})
    ensures After(s, [Serves(0, ResumeWrite(id, true)), Serves(0, UpdateJob(id, Running, v, true))]) == Some(t)
  {
    var m := Working(Tasks({id}, {}, map[]), Tasks({}, {}, map[id := j]), Holds(id, j.(state := Running)), {});
    FirstResuming(id, j, Tasks({}, {}, map[id := j]), s, m);
    assert m.jobs[id := Readable(Job(Running, v))] == Holds(id, Job(Running, v));
    assert ApplyDuty(m, 0, UpdateJob(id, Running, v, true)) == t;
    Two(s, Serves(0, ResumeWrite(id, true)), m, Serves(0, UpdateJob(id, Running, v, true)), t);
  }

  lemma SecondResumes(id: Id, j: Job, v: nat, s: State, t: State)
    requires s == Working(Tasks({id}, {}, map[]), Tasks({}, {}, map[id := j]), Holds(id, Job(Running, v)), {})
    requires t == Working(Tasks({id}, {}, map[]), Tasks({id}, {}, map[]), Holds(id, j.(state := Running)), {})
    ensures After(s, [Serves(1, ResumeWrite(id, true))]) == Some(t)
  {
    assert s.procs[1].tasks.(running := {} + {id}, resumes := map[id := j] - {id}) == Tasks({id}, {}, map[]);
    assert s.jobs[id := Readable(j.(state := Running))] == Holds(id, j.(state := Running));
    assert ApplyDuty(s, 1, ResumeWrite(id, true)) == t;
    Leads(s, [], s, Serves(1, ResumeWrite(id, true)), t);
    assert [] + [Serves(1, ResumeWrite(id, true))] == [Serves(1, ResumeWrite(id, true))];
  }

  /** From an empty folder: two live processes run one job, and the progress v that the
      first had recorded is gone from the record. */
  lemma ResumeOverwritesARunningJob(id: Id, w: nat, v: nat)
    ensures var run := Arrivals() + Interruption(id, w) + LateResume(id, v);
            After(Home(map[], map[]), run).Some?
            && var t := After(Home(map[], map[]), run).value;
               Runs(t, 0, id) && Runs(t, 1, id) && id in t.jobs && t.jobs[id] == Readable(Job(Running, w))
  {
    var j := Job(Interrupted, w);
    var s := Working(NoTasks, NoTasks, Holds(id, j), {});
    var read := Working(Tasks({}, {}, map[id := j]), Tasks({}, {}, map[id := j]), Holds(id, j), {});
    var on := Working(Tasks({id}, {}, map[]), Tasks({}, {}, map[id := j]), Holds(id, Job(Running, v)), {});
    var both := Working(Tasks({id}, {}, map[]), Tasks({id}, {}, map[]), Holds(id, j.(state := Running)), {});
    var a := [Serves(1, ResumeRead(id)), Serves(0, ResumeRead(id))];
    var b := [Serves(0, ResumeWrite(id, true)), Serves(0, UpdateJob(id, Running, v, true))];
    BothReadToResume(id, j, read);
    FirstGetsOn(id, j, v, read, on);
    SecondResumes(id, j, v, on, both);
    AfterBoth(s, a, b);
    AfterBoth(s, a + b, [Serves(1, ResumeWrite(id, true))]);
    JobIsInterrupted(id, w);
    AfterBoth(Home(map[], map[]), Arrivals() + Interruption(id, w), LateResume(id, v));
  }
}
