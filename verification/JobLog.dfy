/** The bounded log of each job with a cursor that counts the whole run, set
    against the unbounded history it stands for and a client that polls it. */
module JobLog {
  import opened Prelude

  const MaxLogLines: nat := 10_000

  datatype LogLine = LogLine(text: string, fromPortCloak: bool)

  datatype EventKind = Log | CloneCreated | CloneDestroyed | OtherKind

  datatype Event = Event(jobId: string, kind: EventKind, message: string, item: string)

  datatype LogView = LogView(lines: seq<LogLine>, next: int, reset: bool, truncated: bool)

  /** Which events are lines, and what they say. */
  function LogLineFor(e: Event): Option<LogLine> {
    match e.kind
    case Log => if e.message == "" then None else Some(LogLine(e.message, false))
    case CloneCreated => Some(LogLine("Ephemeral clone " + e.item + " is running.", true))
    case CloneDestroyed => Some(LogLine("Ephemeral clone " + e.item + " destroyed.", true))
    case OtherKind => None
  }

  /** The line the screen draws for an event at once, before the engine is asked. */
  function ScreenLine(e: Event): Option<LogLine> {
    if e.kind.Log? && e.message != "" then Some(LogLine(e.message, false))
    else if e.kind.CloneCreated? then Some(LogLine("Ephemeral clone " + e.item + " is running.", true))
    else if e.kind.CloneDestroyed? then Some(LogLine("Ephemeral clone " + e.item + " destroyed.", true))
    else None
  }

  /** The engine and the screen take the same events for lines, and make the same of them:
      what a subprocess said, unless it is empty, and what PortCloak says of its clones,
      which is marked as its own. */
  lemma SameLines(e: Event)
    ensures LogLineFor(e) == ScreenLine(e)
    ensures LogLineFor(e).Some? <==> (e.kind == Log && e.message != "") || e.kind == CloneCreated || e.kind == CloneDestroyed
    ensures LogLineFor(e).Some? ==> (LogLineFor(e).value.fromPortCloak <==> e.kind != Log)
    ensures LogLineFor(e).Some? && e.kind == Log ==> LogLineFor(e).value.text == e.message
    ensures e.kind == CloneCreated ==> LogLineFor(e).value.text == "Ephemeral clone " + e.item + " is running."
    ensures e.kind == CloneDestroyed ==> LogLineFor(e).value.text == "Ephemeral clone " + e.item + " destroyed."
  {
  }

  /** Everything each job has said since it was last forgotten. */
  type History = map<string, seq<LogLine>>

  function Said(h: History, jobId: string): seq<LogLine> {
    if jobId in h then h[jobId] else []
  }

  function Recorded(h: History, e: Event): History {
    match LogLineFor(e)
    case None => h
    case Some(line) => h[e.jobId := Said(h, e.jobId) + [line]]
  }

  /** A line goes to the end of its own job's history and to no other's. */
  lemma RecordedForItsJob(h: History, e: Event, jobId: string)
    ensures Said(Recorded(h, e), jobId) ==
            if jobId == e.jobId && LogLineFor(e).Some? then Said(h, jobId) + [LogLineFor(e).value] else Said(h, jobId)
  {
  }

  /** The answer to a cursor, told from the whole history: what follows the
      cursor when the newest MaxLogLines still reach back to it, otherwise all
      of those with Reset set. */
  function Answer(said: seq<LogLine>, after: int): LogView {
    var held := Last(said, MaxLogLines);
    var oldest := |said| - |held|;
    if after >= |said| then LogView([], |said|, false, oldest > 0)
    else if after <= oldest then LogView(held, |said|, true, oldest > 0)
    else LogView(said[after..], |said|, false, oldest > 0)
  }

  /** What an answer says: the cursor to ask from next is the number of lines ever said;
      it starts afresh, with the newest ten thousand, exactly when something is new and the
      caller has nothing or is ten thousand lines or more behind; otherwise it goes on from
      the caller's cursor; and it is marked as cut when more than ten thousand were said. */
  lemma WhatIsAnswered(said: seq<LogLine>, after: int)
    ensures var v := Answer(said, after);
            && v.next == |said|
            && (v.truncated <==> |said| > 10_000)
            && (v.reset <==> after < |said| && (after <= 0 || |said| - after >= 10_000))
            && v.lines == (if after >= |said| then []
                           else if !v.reset then said[after..]
                           else if |said| <= 10_000 then said
                           else said[|said| - 10_000..])
  {
  }

  /** The cap, as a recording applies it. */
  function Trim(held: seq<LogLine>): seq<LogLine> {
    var over := |held| - MaxLogLines;
    if over > 0 then held[over..] else held
  }

  class LogStore {
    var lines: map<string, seq<LogLine>>
    var said: map<string, int>
    ghost var history: History

    /** What is held is the newest part of the history, and the counts are whole. */
    ghost predicate Valid()
      reads this
    {
      && lines.Keys == history.Keys && said.Keys == history.Keys
      && forall j :: j in history ==> lines[j] == Last(history[j], MaxLogLines) && said[j] == |history[j]|
    }

    constructor ()
      ensures Valid() && history == map[]
    {
      lines, said, history := map[], map[], map[];
    }

    method Record(e: Event)
      requires Valid()
      modifies this
      ensures Valid() && history == Recorded(old(history), e)
    {
      match LogLineFor(e)
      case None =>
      case Some(line) =>
        TrimmedIsLast(Said(history, e.jobId), line);
        var held := Trim((if e.jobId in lines then lines[e.jobId] else []) + [line]);
        lines := lines[e.jobId := held];
        said := said[e.jobId := (if e.jobId in said then said[e.jobId] else 0) + 1];
        history := Recorded(history, e);
    }

    method Tail(jobId: string, after: int) returns (v: LogView)
      requires Valid()
      ensures v == Answer(Said(history, jobId), after)
      ensures |v.lines| <= MaxLogLines
    {
      var held := if jobId in lines then lines[jobId] else [];
      var count := if jobId in said then said[jobId] else 0;
      var oldest := count - |held|;
      assert held == Last(Said(history, jobId), MaxLogLines) && count == |Said(history, jobId)|;
      AnswerFromHeld(Said(history, jobId), after);
      if after >= count {
        v := LogView([], count, false, oldest > 0);
      } else if after <= oldest {
        v := LogView(held, count, true, oldest > 0);
      } else {
        v := LogView(held[after - oldest..], count, false, oldest > 0);
      }
    }

    method Forget(jobId: string)
      requires Valid()
      modifies this
      ensures Valid() && history == old(history) - {jobId}
    {
      lines := lines - {jobId};
      said := said - {jobId};
      history := history - {jobId};
    }
  }

  /** The answer told from what is held and how much was said. */
  lemma AnswerFromHeld(said: seq<LogLine>, after: int)
    ensures var held := Last(said, MaxLogLines);
            var oldest := |said| - |held|;
            Answer(said, after) ==
            if after >= |said| then LogView([], |said|, false, oldest > 0)
            else if after <= oldest then LogView(held, |said|, true, oldest > 0)
            else LogView(held[after - oldest..], |said|, false, oldest > 0)
    ensures |Answer(said, after).lines| <= MaxLogLines
  {
    HeldFrom(said, after);
  }

  /** The held lines after a cursor are the history after it. */
  lemma HeldFrom(said: seq<LogLine>, after: int)
    ensures var held := Last(said, MaxLogLines);
            var oldest := |said| - |held|;
            oldest < after < |said| ==> held[after - oldest..] == said[after..]
  {
  }

  lemma TrimmedIsLast(said: seq<LogLine>, line: LogLine)
    ensures Trim(Last(said, MaxLogLines) + [line]) == Last(said + [line], MaxLogLines)
    ensures said == [] ==> Trim([line]) == Last(said + [line], MaxLogLines)
  {
    LastGrows(said, line, MaxLogLines);
    assert [] + [line] == [line];
  }

  lemma LastGrows<T>(s: seq<T>, x: T, k: nat)
    requires k > 0
    ensures var held := Last(s, k) + [x];
            Last(s + [x], k) == if |held| - k > 0 then held[|held| - k..] else held
  {
    var held := Last(s, k) + [x];
    if |s| >= k {
      assert (s + [x])[|s| + 1 - k..] == s[|s| + 1 - k..] + [x];
    }
  }

  // ------------------------------------------------------------ a polling client

  /** What the screen keeps of one job: the lines handed over, newest last and
      never more than its own cap, and the cursor to ask from next. */
  datatype Client = Client(lines: seq<LogLine>, cursor: int)

  const NewClient := Client([], 0)

  function Take(c: Client, v: LogView, cap: nat): Client {
    if v.lines == [] && !v.reset then c.(cursor := if c.cursor < v.next then v.next else c.cursor)
    else Client(Last(if v.reset then v.lines else c.lines + v.lines, cap), v.next)
  }

  function Polled(c: Client, said: seq<LogLine>, cap: nat): Client {
    Take(c, Answer(said, c.cursor), cap)
  }

  datatype Happening = Recording(e: Event) | Polling | Forgetting(jobId: string)

  datatype World = World(history: History, client: Client)

  function Step(w: World, a: Happening, jobId: string, cap: nat): World {
    match a
    case Recording(e) => w.(history := Recorded(w.history, e))
    case Polling => w.(client := Polled(w.client, Said(w.history, jobId), cap))
    case Forgetting(j) => w.(history := w.history - {j})
  }

  /** The world after any interleaving of recordings on any jobs, polls of one
      job, and forgettings. */
  function Run(run: seq<Happening>, jobId: string, cap: nat): World {
    if run == [] then World(map[], NewClient)
    else Step(Run(run[..|run| - 1], jobId, cap), run[|run| - 1], jobId, cap)
  }

  /** The client's lines are one unbroken stretch of the history ending at its
      cursor: no hole, no line twice, none out of order. */
  ghost predicate Stretch(c: Client, said: seq<LogLine>) {
    |c.lines| <= c.cursor <= |said| && c.lines == said[c.cursor - |c.lines|..c.cursor]
  }

  predicate Remembered(run: seq<Happening>, jobId: string) {
    forall i :: 0 <= i < |run| ==> run[i] != Forgetting(jobId)
  }

  lemma PollKeepsStretch(c: Client, said: seq<LogLine>, cap: nat)
    requires Stretch(c, said)
    ensures Stretch(Polled(c, said, cap), said) && Polled(c, said, cap).cursor == |said|
  {
    var v := Answer(said, c.cursor);
    if c.cursor < |said| {
      AnswerReachesTheEnd(said, c.cursor);
      StretchExtends(c, said);
      var all := if v.reset then v.lines else c.lines + v.lines;
      SuffixIsStretch(all, said, cap);
      assert Polled(c, said, cap) == Client(Last(all, cap), |said|);
    }
  }

  lemma AnswerReachesTheEnd(said: seq<LogLine>, after: int)
    requires 0 <= after < |said|
    ensures var v := Answer(said, after);
            0 < |v.lines| <= |said| && v.lines == said[|said| - |v.lines|..] &&
            (!v.reset ==> v.lines == said[after..])
  {
    var held := Last(said, MaxLogLines);
    if after > |said| - |held| {
      assert |said| - |said[after..]| == after;
    }
  }

  lemma StretchExtends(c: Client, said: seq<LogLine>)
    requires Stretch(c, said)
    ensures c.lines + said[c.cursor..] == said[c.cursor - |c.lines|..]
  {
  }

  lemma SuffixIsStretch(t: seq<LogLine>, said: seq<LogLine>, cap: nat)
    requires |t| <= |said| && t == said[|said| - |t|..]
    ensures Stretch(Client(Last(t, cap), |said|), said)
  {
    var r := Last(t, cap);
    assert r == said[|said| - |r|..] == said[|said| - |r|..|said|];
  }

  lemma {:induction false} CursorIsSound(run: seq<Happening>, jobId: string, cap: nat)
    requires Remembered(run, jobId)
    ensures Stretch(Run(run, jobId, cap).client, Said(Run(run, jobId, cap).history, jobId))
    ensures |Run(run, jobId, cap).client.lines| <= cap
  {
    if run != [] {
      var before, last := run[..|run| - 1], run[|run| - 1];
      CursorIsSound(before, jobId, cap);
      var w := Run(before, jobId, cap);
      match last
      case Polling => PollKeepsStretch(w.client, Said(w.history, jobId), cap);
      case Recording(e) => StretchGrows(w, e, jobId);
      case Forgetting(j) => assert Said(w.history - {j}, jobId) == Said(w.history, jobId);
    }
  }

  lemma StretchGrows(w: World, e: Event, jobId: string)
    requires Stretch(w.client, Said(w.history, jobId))
    ensures Stretch(w.client, Said(Recorded(w.history, e), jobId))
  {
    var c, s, t := w.client, Said(w.history, jobId), Said(Recorded(w.history, e), jobId);
    assert s <= t;
    assert t[c.cursor - |c.lines|..c.cursor] == s[c.cursor - |c.lines|..c.cursor];
  }

  // ------------------------------------------------------- when nothing is missed

  /** Fewer than MaxLogLines lines arrived since each poll's predecessor. */
  predicate KeepsUp(run: seq<Happening>, jobId: string, cap: nat) {
    run == [] ||
    (KeepsUp(run[..|run| - 1], jobId, cap) &&
     (run[|run| - 1] == Polling ==>
        var w := Run(run[..|run| - 1], jobId, cap);
        |Said(w.history, jobId)| - w.client.cursor < MaxLogLines))
  }

  /** The client holds as much of the history up to its cursor as its cap allows. */
  ghost predicate HoldsAll(c: Client, said: seq<LogLine>, cap: nat) {
    0 <= c.cursor <= |said| && c.lines == Last(said[..c.cursor], cap)
  }

  lemma PollKeepsAll(c: Client, said: seq<LogLine>, cap: nat)
    requires HoldsAll(c, said, cap) && |said| - c.cursor < MaxLogLines
    ensures HoldsAll(Polled(c, said, cap), said, cap)
  {
    assert said[..|said|] == said;
    if c.cursor < |said| {
      AnswerReachesTheEnd(said, c.cursor);
      ContinueHoldsAll(c, said, cap);
      var v := Answer(said, c.cursor);
      var all := if v.reset then v.lines else c.lines + v.lines;
      assert Last(all, cap) == Last(said, cap);
      assert Polled(c, said, cap) == Client(Last(all, cap), |said|);
    }
  }

  lemma ContinueHoldsAll(c: Client, said: seq<LogLine>, cap: nat)
    requires HoldsAll(c, said, cap)
    ensures Last(c.lines + said[c.cursor..], cap) == Last(said, cap)
  {
    LastOfBoth(said[..c.cursor], said[c.cursor..], cap);
    assert said == said[..c.cursor] + said[c.cursor..];
  }

  /** Cutting off no more than what goes anyway changes nothing. */
  lemma LastOfLast<T>(s: seq<T>, n: nat, k: nat)
    requires n + k <= |s|
    ensures Last(s[n..], k) == Last(s, k)
  {
    assert s[n..][|s| - n - k..] == s[|s| - k..];
  }

  lemma LastOfBoth<T>(s: seq<T>, t: seq<T>, k: nat)
    ensures Last(Last(s, k) + t, k) == Last(s + t, k)
  {
    if |s| <= k {
      assert Last(s, k) == s;
    } else {
      var n := |s| - k;
      assert Last(s, k) == s[n..];
      DropOfBoth(s, t, n);
      LastOfLast(s + t, n, k);
    }
  }

  lemma RecordingKeepsAll(w: World, e: Event, jobId: string, cap: nat)
    requires HoldsAll(w.client, Said(w.history, jobId), cap)
    ensures HoldsAll(w.client, Said(Recorded(w.history, e), jobId), cap)
  {
    var s, t := Said(w.history, jobId), Said(Recorded(w.history, e), jobId);
    assert s <= t && t[..w.client.cursor] == s[..w.client.cursor];
  }

  /** A client that keeps up has the entire history, or the newest `cap` lines
      of it. */
  lemma {:induction false} KeepingUpMissesNothing(run: seq<Happening>, jobId: string, cap: nat)
    requires Remembered(run, jobId) && KeepsUp(run, jobId, cap)
    ensures HoldsAll(Run(run, jobId, cap).client, Said(Run(run, jobId, cap).history, jobId), cap)
  {
    if run != [] {
      var before, last := run[..|run| - 1], run[|run| - 1];
      KeepingUpMissesNothing(before, jobId, cap);
      var w := Run(before, jobId, cap);
      match last
      case Polling => PollKeepsAll(w.client, Said(w.history, jobId), cap);
      case Recording(e) => RecordingKeepsAll(w, e, jobId, cap);
      case Forgetting(j) =>
        assert Said(w.history - {j}, jobId) == Said(w.history, jobId);
    }
  }

  /** One poll by a client that trims nothing leaves it holding the whole history if
      and only if the client held everything up to its cursor and fewer than
      MaxLogLines lines were new to it, or it had not begun, its cursor still at the
      start, and the history fits the log's cap. */
  lemma WhenAPollHoldsEverything(c: Client, said: seq<LogLine>, cap: nat)
    requires Stretch(c, said) && |said| <= cap
    ensures Polled(c, said, cap).lines == said <==>
            (|said| - c.cursor < MaxLogLines && |c.lines| == c.cursor) || (c.cursor <= 0 && |said| <= MaxLogLines)
  {
    if c.cursor < |said| {
      AnswerReachesTheEnd(said, c.cursor);
      if !Answer(said, c.cursor).reset {
        StretchExtends(c, said);
      }
    } else {
      assert said[..|said|] == said;
    }
  }
}
