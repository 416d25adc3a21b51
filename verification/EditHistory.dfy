/** Edits of config.yaml by several processes: when the file ends up carrying
    every edit that was committed, in the order they were. */
module EditHistory {
  import opened Prelude
  import opened Claims
  import opened HomeProtocol
  import opened HomeRuns

  /** Two processes never have the right to edit at once. */
  lemma OneEditor(s: State, p: Pid, q: Pid)
    requires ClaimsAgree(s) && WindowIsActive(s) && CanEdit(s, p) && CanEdit(s, q)
    ensures p == q
  {
  }

  /** A copy never carries more than had been committed when it was read. */
  ghost predicate CopiesAreBounded(s: State) {
    && |s.file| <= |s.commits|
    && forall p :: p in s.procs ==> |s.procs[p].copy| <= s.procs[p].readAt <= |s.commits|
  }

  /** A copy read with the right to edit is the file for as long as that lasts. */
  ghost predicate EditorsAreCurrent(s: State) {
    forall p :: p in s.procs && s.procs[p].readAsEditor ==>
      CanEdit(s, p) && s.procs[p].readAt == |s.commits| && s.procs[p].copy == s.file
  }

  ghost predicate EditInv(s: State) {
    Inv(s) && CopiesAreBounded(s) && EditorsAreCurrent(s)
  }

  /** Nothing has been lost, and what everyone read is a stretch of what was. */
  ghost predicate Whole(s: State) {
    && s.file == s.commits
    && forall p :: p in s.procs ==> s.procs[p].readAt <= |s.commits| && s.procs[p].copy == s.commits[..s.procs[p].readAt]
  }

  /** Something has been lost, and nobody has a copy that still carries it all. */
  ghost predicate Broken(s: State) {
    && |s.file| < |s.commits|
    && forall p :: p in s.procs && s.procs[p].readAt == |s.commits| ==> |s.procs[p].copy| < |s.commits|
  }

  // ------------------------------------------------------------------ one step

  /** The steps that neither read nor write config.yaml. */
  predicate Bystander(a: Action) {
    !(a.Lives? && a.life.Start?) && !(a.Works? && (a.work.Commit? || a.work.Reload?))
  }

  lemma BystanderKeepsText(s: State, a: Action, q: Pid)
    requires Enabled(s, a) && Bystander(a) && q in Apply(s, a).procs
    ensures q in s.procs
    ensures Apply(s, a).procs[q].copy == s.procs[q].copy && Apply(s, a).procs[q].readAt == s.procs[q].readAt
    ensures Apply(s, a).procs[q].readAsEditor == s.procs[q].readAsEditor
    ensures CanEdit(s, q) ==> CanEdit(Apply(s, a), q)
  {
    FrameOf(s, a);
    if q != a.p {
      OtherStays(s, Apply(s, a), a.p, q);
      if CanEdit(s, q) { OthersKeepTheRight(s, a, q); }
    } else {
      match a
      case Lives(p, l) => LifeKeepsText(s, p, l);
      case Sweeps(p, w) => SweepFrame(s, p, w);
      case Serves(p, d) => DutyFrame(s, p, d);
      case Works(p, w) => WorkKeepsText(s, p, w);
    }
  }

  lemma LifeKeepsText(s: State, p: Pid, l: Life)
    requires CanLive(s, p, l) && !l.Start? && p in ApplyLife(s, p, l).procs
    ensures ApplyLife(s, p, l).procs[p] == s.procs[p].(phase := ApplyLife(s, p, l).procs[p].phase)
    ensures CanEdit(s, p) ==> CanEdit(ApplyLife(s, p, l), p)
  {
  }

  lemma WorkKeepsText(s: State, p: Pid, w: Work)
    requires CanWork(s, p, w) && !w.Commit? && !w.Reload?
    ensures p in ApplyWork(s, p, w).procs && ApplyWork(s, p, w).file == s.file && ApplyWork(s, p, w).commits == s.commits
    ensures var q, r := s.procs[p], ApplyWork(s, p, w).procs[p];
            r.copy == q.copy && r.readAt == q.readAt && r.readAsEditor == q.readAsEditor && r.phase == q.phase
  {
  }

  lemma OthersKeepTheRight(s: State, a: Action, q: Pid)
    requires Enabled(s, a) && q != a.p && CanEdit(s, q)
    ensures CanEdit(Apply(s, a), q)
  {
    FrameOf(s, a);
    OtherStays(s, Apply(s, a), a.p, q);
    match a
    case Lives(p, l) => LifeLeavesTheWindow(s, p, l);
    case _ =>
  }

  lemma LifeLeavesTheWindow(s: State, p: Pid, l: Life)
    requires CanLive(s, p, l)
    ensures s.window.Some? && s.window != Some(p) ==> ApplyLife(s, p, l).window == s.window
  {
  }

  lemma BystanderKeepsFile(s: State, a: Action)
    requires Enabled(s, a) && Bystander(a)
    ensures Apply(s, a).file == s.file && Apply(s, a).commits == s.commits
  {
    match a
    case Lives(p, l) => LifeFrame(s, p, l);
    case Sweeps(p, w) => SweepFrame(s, p, w);
    case Serves(p, d) => DutyFrame(s, p, d);
    case Works(p, w) => WorkKeepsText(s, p, w);
  }

  /** What the three other steps do to the file and to the process that takes them. */
  lemma ReadingStep(s: State, a: Action)
    requires Enabled(s, a) && !Bystander(a) && !(a.Works? && a.work.Commit?)
    ensures var t := Apply(s, a);
            a.p in t.procs && t.procs[a.p].copy == s.file == t.file && t.procs[a.p].readAt == |s.commits| && t.commits == s.commits
    ensures Apply(s, a).procs[a.p].readAsEditor ==> CanEdit(Apply(s, a), a.p)
  {
  }

  lemma CommitStep(s: State, p: Pid, e: Edit)
    requires CanWork(s, p, Commit(e))
    ensures var t := ApplyWork(s, p, Commit(e));
            t.file == s.procs[p].copy + [e] && t.commits == s.commits + [e] && CanEdit(t, p)
    ensures var r := ApplyWork(s, p, Commit(e)).procs[p];
            r.copy == s.procs[p].copy + [e] && r.readAt == |s.commits| + 1 && r.readAsEditor == s.procs[p].readAsEditor
  {
  }

  /** Who reads the file again has read it with the right to edit exactly when he has that
      right; and an editor who does so and commits adds his edit to what the file says. */
  lemma ReloadThenCommit(s: State, p: Pid, e: Edit)
    requires IsActive(s, p)
    ensures CanWork(s, p, Reload)
    ensures var m := ApplyWork(s, p, Reload);
            p in m.procs && (m.procs[p].readAsEditor <==> CanEdit(s, p))
            && (CanEdit(s, p) ==> CanWork(m, p, Commit(e)) && ApplyWork(m, p, Commit(e)).file == s.file + [e])
  {
    WorkFrame(s, p, Reload);
  }

  lemma CopiesStayBounded(s: State, a: Action)
    requires CopiesAreBounded(s) && Enabled(s, a)
    ensures CopiesAreBounded(Apply(s, a))
  {
    var t := Apply(s, a);
    FileStep(s, a);
    forall q | q in t.procs ensures |t.procs[q].copy| <= t.procs[q].readAt <= |t.commits| {
      TextOf(s, a, q);
    }
  }

  /** The file and the history after any step. */
  lemma FileStep(s: State, a: Action)
    requires Enabled(s, a)
    ensures var t := Apply(s, a);
            if a.Works? && a.work.Commit?
            then t.file == s.procs[a.p].copy + [a.work.e] && t.commits == s.commits + [a.work.e]
            else t.file == s.file && t.commits == s.commits
  {
    if Bystander(a) {
      BystanderKeepsFile(s, a);
    } else if a.Works? && a.work.Commit? {
      CommitStep(s, a.p, a.work.e);
    } else {
      ReadingStep(s, a);
    }
  }

  /** The copy any process has after any step: its old one, or the file as it is. */
  lemma TextOf(s: State, a: Action, q: Pid)
    requires Enabled(s, a) && q in Apply(s, a).procs
    ensures var t := Apply(s, a);
            if Bystander(a) || q != a.p
            then q in s.procs && t.procs[q].copy == s.procs[q].copy && t.procs[q].readAt == s.procs[q].readAt
                 && t.procs[q].readAsEditor == s.procs[q].readAsEditor
            else t.procs[q].copy == t.file && t.procs[q].readAt == |t.commits|
  {
    if Bystander(a) {
      BystanderKeepsText(s, a, q);
    } else if q != a.p {
      FrameOf(s, a);
      OtherStays(s, Apply(s, a), a.p, q);
    } else if a.Works? && a.work.Commit? {
      CommitStep(s, a.p, a.work.e);
    } else {
      ReadingStep(s, a);
    }
  }

  lemma EditorsStayCurrent(s: State, a: Action)
    requires ClaimsAgree(s) && WindowIsActive(s) && EditorsAreCurrent(s) && Enabled(s, a)
    ensures EditorsAreCurrent(Apply(s, a))
  {
    var t := Apply(s, a);
    FileStep(s, a);
    forall q | q in t.procs && t.procs[q].readAsEditor
      ensures CanEdit(t, q) && t.procs[q].readAt == |t.commits| && t.procs[q].copy == t.file
    {
      TextOf(s, a, q);
      EditorKeepsTheRight(s, a, q);
      if q != a.p && a.Works? && a.work.Commit? {
        OneEditor(s, q, a.p);
      }
    }
  }

  lemma EditorKeepsTheRight(s: State, a: Action, q: Pid)
    requires EditorsAreCurrent(s) && Enabled(s, a) && q in Apply(s, a).procs && Apply(s, a).procs[q].readAsEditor
    ensures CanEdit(Apply(s, a), q)
  {
    TextOf(s, a, q);
    if Bystander(a) {
      BystanderKeepsText(s, a, q);
    } else if q != a.p {
      OthersKeepTheRight(s, a, q);
    } else if a.Works? && a.work.Commit? {
      CommitStep(s, a.p, a.work.e);
    } else {
      ReadingStep(s, a);
    }
  }

  /** The step is a commit of a copy that others had committed past. */
  predicate Stale(s: State, a: Action) {
    a.Works? && a.work.Commit? && a.p in s.procs && s.procs[a.p].readAt < |s.commits|
  }

  lemma WholeStaysWhole(s: State, a: Action)
    requires Whole(s) && Enabled(s, a) && !Stale(s, a)
    ensures Whole(Apply(s, a))
  {
    var t := Apply(s, a);
    FileStep(s, a);
    forall q | q in t.procs ensures t.procs[q].readAt <= |t.commits| && t.procs[q].copy == t.commits[..t.procs[q].readAt] {
      TextOf(s, a, q);
    }
  }

  lemma StaleCommitBreaks(s: State, a: Action)
    requires CopiesAreBounded(s) && Enabled(s, a) && Stale(s, a)
    ensures Broken(Apply(s, a))
  {
    var t := Apply(s, a);
    FileStep(s, a);
    forall q | q in t.procs && t.procs[q].readAt == |t.commits| ensures |t.procs[q].copy| < |t.commits| {
      TextOf(s, a, q);
    }
  }

  lemma BrokenStaysBroken(s: State, a: Action)
    requires CopiesAreBounded(s) && Broken(s) && Enabled(s, a)
    ensures Broken(Apply(s, a))
  {
    var t := Apply(s, a);
    FileStep(s, a);
    forall q | q in t.procs && t.procs[q].readAt == |t.commits| ensures |t.procs[q].copy| < |t.commits| {
      TextOf(s, a, q);
    }
  }

  // ------------------------------------------------------------------ whole runs

  /** No commit of the run writes a copy that others had committed past. */
  predicate NeverStale(start: State, run: seq<Action>) {
    run == []
    || (NeverStale(start, run[..|run| - 1])
        && match After(start, run[..|run| - 1]) case Some(s) => !Stale(s, run[|run| - 1]) case None => true)
  }

  /** Every commit of the run is by a process that read its copy of the file while
      it had the right to edit. */
  predicate ReadUnderClaim(start: State, run: seq<Action>) {
    run == []
    || (ReadUnderClaim(start, run[..|run| - 1])
        && match After(start, run[..|run| - 1])
           case Some(s) =>
             var a := run[|run| - 1];
             a.Works? && a.work.Commit? && a.p in s.procs ==> s.procs[a.p].readAsEditor
           case None => true)
  }

  lemma {:induction false} WholeOrBroken(start: State, run: seq<Action>)
    requires Initial(start) && After(start, run).Some?
    ensures CopiesAreBounded(After(start, run).value)
    ensures if NeverStale(start, run) then Whole(After(start, run).value) else Broken(After(start, run).value)
  {
    if run != [] {
      var before, a := run[..|run| - 1], run[|run| - 1];
      WholeOrBroken(start, before);
      var s := After(start, before).value;
      CopiesStayBounded(s, a);
      if !NeverStale(start, before) {
        BrokenStaysBroken(s, a);
      } else if Stale(s, a) {
        StaleCommitBreaks(s, a);
      } else {
        WholeStaysWhole(s, a);
      }
    }
  }

  /** The file carries every edit ever committed, in the order they were, exactly
      when no commit wrote a copy that others had committed past. */
  lemma NoEditIsLost(start: State, run: seq<Action>)
    requires Initial(start) && After(start, run).Some?
    ensures After(start, run).value.file == After(start, run).value.commits <==> NeverStale(start, run)
  {
    WholeOrBroken(start, run);
  }

  lemma {:induction false} EditorsAlwaysCurrent(start: State, run: seq<Action>)
    requires Initial(start) && After(start, run).Some?
    ensures Inv(After(start, run).value) && EditorsAreCurrent(After(start, run).value)
  {
    if run != [] {
      var before, a := run[..|run| - 1], run[|run| - 1];
      EditorsAlwaysCurrent(start, before);
      InvIsKept(After(start, before).value, a);
      EditorsStayCurrent(After(start, before).value, a);
    }
  }

  lemma {:induction false} ReadUnderClaimIsNeverStale(start: State, run: seq<Action>)
    requires Initial(start) && After(start, run).Some? && ReadUnderClaim(start, run)
    ensures NeverStale(start, run)
  {
    if run != [] {
      ReadUnderClaimIsNeverStale(start, run[..|run| - 1]);
      EditorsAlwaysCurrent(start, run[..|run| - 1]);
    }
  }

  /** Reading the file while holding the claim, and not before it, is enough. */
  lemma EditsAreSerialised(start: State, run: seq<Action>)
    requires Initial(start) && After(start, run).Some? && ReadUnderClaim(start, run)
    ensures After(start, run).value.file == After(start, run).value.commits
  {
    ReadUnderClaimIsNeverStale(start, run);
    NoEditIsLost(start, run);
  }

  // ------------------------------------------------- the order the code follows

  /** Two commands on an empty folder read config.yaml. The first sweeps and claims the
      folder to itself, and the second is refused the sweep; the first commits an edit
      and leaves; then the second claims the folder to itself and commits one. */
  function LoadThenClaim(e: Edit, f: Edit): seq<Action> {
    ([Lives(0, Start), Lives(1, Start)] + EmptySweep(0))
    + [Lives(0, Claim(0, Exclusive)), Lives(1, SkipSweep(false))]
    + [Works(0, Commit(e)), Lives(0, Exit)]
    + [Lives(1, Claim(0, Exclusive)), Works(1, Commit(f))]
  }

  function Written(ph: Phase, copy: Text, readAt: nat): Proc {
    Idle(ph).(copy := copy, readAt := readAt)
  }

  lemma BothLoad(s: State)
    requires s == Home(map[1 := Idle(Loaded), 0 := Idle(Swept)], map[])
    ensures After(Home(map[], map[]), [Lives(0, Start), Lives(1, Start)] + EmptySweep(0)) == Some(s)
  {
    var none, other: map<Pid, Proc> := map[], map[1 := Idle(Loaded)];
    var m, l := Home(none[0 := Idle(Loaded)], map[]), Home(other[0 := Idle(Loaded)], map[]);
    assert ApplyLife(Home(map[], map[]), 0, Start) == m;
    assert ApplyLife(m, 1, Start) == l;
    Two(Home(map[], map[]), Lives(0, Start), m, Lives(1, Start), l);
    EmptySweepRuns(other, 0);
    AfterBoth(Home(map[], map[]), [Lives(0, Start), Lives(1, Start)], EmptySweep(0));
  }

  lemma SecondIsRefused(s: State, t: State)
    requires s == Home(map[1 := Idle(Loaded), 0 := Idle(Swept)], map[])
    requires t == Home(map[1 := Idle(Swept), 0 := Idle(Active(0, Exclusive))], map[0 := Exclusive])
    ensures After(s, [Lives(0, Claim(0, Exclusive)), Lives(1, SkipSweep(false))]) == Some(t)
  {
    var m := Home(map[1 := Idle(Loaded), 0 := Idle(Active(0, Exclusive))], map[0 := Exclusive]);
    assert ApplyLife(s, 0, Claim(0, Exclusive)) == m;
    assert 0 in m.locks && !Grants(m.locks, Exclusive);
    assert ApplyLife(m, 1, SkipSweep(false)) == t;
    Two(s, Lives(0, Claim(0, Exclusive)), m, Lives(1, SkipSweep(false)), t);
  }

  lemma FirstCommits(e: Edit, s: State, t: State)
    requires s == Home(map[1 := Idle(Swept), 0 := Idle(Active(0, Exclusive))], map[0 := Exclusive])
    requires t == Home(map[1 := Idle(Swept)], map[]).(file := [e], commits := [e])
    ensures After(s, [Works(0, Commit(e)), Lives(0, Exit)]) == Some(t)
  {
    var m := s.(procs := map[1 := Idle(Swept), 0 := Written(Active(0, Exclusive), [e], 1)], file := [e], commits := [e]);
    CommitStep(s, 0, e);
    assert [] + [e] == [e];
    assert s.procs[0 := Written(Active(0, Exclusive), [e], 1)] == m.procs;
    assert ApplyWork(s, 0, Commit(e)) == m;
    FirstLeaves(e, m, t);
    Two(s, Works(0, Commit(e)), m, Lives(0, Exit), t);
  }

  lemma FirstLeaves(e: Edit, s: State, t: State)
    requires s == State(map[1 := Idle(Swept), 0 := Written(Active(0, Exclusive), [e], 1)], map[0 := Exclusive], map[], {}, {}, [e], [e], None)
    requires t == Home(map[1 := Idle(Swept)], map[]).(file := [e], commits := [e])
    ensures CanLive(s, 0, Exit) && ApplyLife(s, 0, Exit) == t
  {
    assert s.procs - {0} == t.procs;
    assert s.locks - {0} == map[];
  }

  lemma SecondCommits(e: Edit, f: Edit, s: State)
    requires s == Home(map[1 := Idle(Swept)], map[]).(file := [e], commits := [e])
    ensures After(s, [Lives(1, Claim(0, Exclusive)), Works(1, Commit(f))]).Some?
    ensures var t := After(s, [Lives(1, Claim(0, Exclusive)), Works(1, Commit(f))]).value; t.commits == [e, f] && t.file == [f]
  {
    var m := ApplyLife(s, 1, Claim(0, Exclusive));
    CommitStep(m, 1, f);
    Two(s, Lives(1, Claim(0, Exclusive)), m, Works(1, Commit(f)), ApplyWork(m, 1, Commit(f)));
  }

  /** It is a run, and the first edit is gone at its end. */
  lemma LoadThenClaimLosesAnEdit(e: Edit, f: Edit)
    ensures Initial(Home(map[], map[])) && After(Home(map[], map[]), LoadThenClaim(e, f)).Some?
    ensures var t := After(Home(map[], map[]), LoadThenClaim(e, f)).value; t.commits == [e, f] && t.file == [f]
  {
    var start := Home(map[], map[]);
    var s1 := Home(map[1 := Idle(Loaded), 0 := Idle(Swept)], map[]);
    var s2 := Home(map[1 := Idle(Swept), 0 := Idle(Active(0, Exclusive))], map[0 := Exclusive]);
    var s3 := Home(map[1 := Idle(Swept)], map[]).(file := [e], commits := [e]);
    BothLoad(s1);
    SecondIsRefused(s1, s2);
    FirstCommits(e, s2, s3);
    SecondCommits(e, f, s3);
    var a := [Lives(0, Start), Lives(1, Start)] + EmptySweep(0);
    var b, c := [Lives(0, Claim(0, Exclusive)), Lives(1, SkipSweep(false))], [Works(0, Commit(e)), Lives(0, Exit)];
    AfterBoth(start, a, b);
    AfterBoth(start, a + b, c);
    AfterBoth(start, a + b + c, [Lives(1, Claim(0, Exclusive)), Works(1, Commit(f))]);
  }
}
