/** Replacing a file through a temporary one, on a disk that may lose power after
    any step. */
module AtomicWrite {
  import opened Prelude

  type Bytes = string
  type Inode = nat

  /** What a directory entry leads to. */
  type Entry = Option<Inode>

  /** A directory and its files. `live` and `data` are what running processes
      see. After a power loss each name may lead to any of the entries in `may`
      for it, independently of the other names, and a file in `dirty` may hold
      anything; one that is not holds its data. */
  datatype Disk = Disk(live: map<string, Inode>, data: map<Inode, Bytes>, dirty: set<Inode>, may: map<string, set<Entry>>)

  function Live(d: Disk, name: string): Entry {
    if name in d.live then Some(d.live[name]) else None
  }

  /** The entries a name may have after a power loss. A name never touched since
      the directory was last flushed has only the live one. */
  function May(d: Disk, name: string): set<Entry> {
    if name in d.may then d.may[name] else {Live(d, name)}
  }

  /** What a process reads under a name, None for no such file. */
  function Content(d: Disk, name: string): Option<Bytes> {
    match Live(d, name)
    case Some(i) => if i in d.data then Some(d.data[i]) else None
    case None => None
  }

  /** What may be read under a name after a power loss. */
  ghost predicate Survives(d: Disk, name: string, c: Option<Bytes>) {
    exists e :: e in May(d, name) && EntryReads(d, e, c)
  }

  ghost predicate EntryReads(d: Disk, e: Entry, c: Option<Bytes>) {
    match e
    case None => c == None
    case Some(i) => c.Some? && (i in d.dirty || (i in d.data && c.value == d.data[i]))
  }

  /** Every entry a name may have leads to a file that exists, and the live one
      is among them. */
  ghost predicate Sound(d: Disk) {
    && (forall name, i :: Some(i) in May(d, name) ==> i in d.data)
    && (forall name :: Live(d, name) in May(d, name))
  }

  // ------------------------------------------------------------- single steps

  function SetEntry(d: Disk, name: string, e: Entry): Disk {
    d.(live := match e case Some(i) => d.live[name := i] case None => d.live - {name},
       may := d.may[name := May(d, name) + {e}])
  }

  function Created(d: Disk, name: string, i: Inode): Disk {
    SetEntry(d.(data := d.data[i := []]), name, Some(i))
  }

  function Written(d: Disk, i: Inode, bytes: Bytes): Disk {
    d.(data := d.data[i := bytes], dirty := d.dirty + {i})
  }

  function Synced(d: Disk, i: Inode): Disk {
    d.(dirty := d.dirty - {i})
  }

  /** A rename: the new name leads to the file and the old name to nothing. */
  function Renamed(d: Disk, from: string, to: string, i: Inode): Disk {
    SetEntry(SetEntry(d, to, Some(i)), from, None)
  }

  /** Flushing the directory settles every pending entry. */
  function DirectorySynced(d: Disk): Disk {
    d.(may := map[])
  }

  lemma SetEntryChangesOneName(d: Disk, name: string, e: Entry)
    ensures var s := SetEntry(d, name, e);
            Live(s, name) == e && May(s, name) == May(d, name) + {e} && s.data == d.data && s.dirty == d.dirty
    ensures forall n :: n != name ==> Live(SetEntry(d, name, e), n) == Live(d, n) && May(SetEntry(d, name, e), n) == May(d, n)
  {
  }

  lemma SetEntryIsSound(d: Disk, name: string, e: Entry)
    requires Sound(d) && (e.Some? ==> e.value in d.data)
    ensures Sound(SetEntry(d, name, e))
  {
    SetEntryChangesOneName(d, name, e);
    forall n, i | Some(i) in May(SetEntry(d, name, e), n) ensures i in d.data {
      assert n == name || Some(i) in May(d, n);
    }
  }

  /** A rename right after the write, without the flush between: anything might be read
      under the name. */
  lemma RenameBeforeSyncMayReadAnything(d: Disk, from: string, to: string, i: Inode, body: Bytes, c: Bytes)
    requires from != to
    ensures Survives(Renamed(Written(d, i, body), from, to, i), to, Some(c))
  {
    var e := Renamed(Written(d, i, body), from, to, i);
    assert Some(i) in May(e, to) && EntryReads(e, Some(i), Some(c));
  }

  // --------------------------------------------------------------- whole saves

  /** At every step a name reads, live or after a power loss, as it could at the
      start or as the complete new content. */
  ghost predicate OldOrNew(start: Disk, now: Disk, path: string, body: Bytes) {
    && (Content(now, path) == Content(start, path) || Content(now, path) == Some(body))
    && (forall c :: Survives(now, path, c) ==> Survives(start, path, c) || c == Some(body))
  }

  ghost predicate AlwaysOldOrNew(start: Disk, states: seq<Disk>, path: string, body: Bytes) {
    forall k :: 0 <= k < |states| ==> OldOrNew(start, states[k], path, body)
  }

  /** At every step every other name reads as it did. */
  ghost predicate OthersUntouched(start: Disk, states: seq<Disk>, path: string, tmp: string) {
    forall k, name :: 0 <= k < |states| && name != path && name != tmp ==> Untouched(start, states[k], name)
  }

  lemma OneMoreBeside(start: Disk, trace: seq<Disk>, next: Disk, n: nat, path: string, tmp: string)
    requires n <= |trace| && OthersUntouched(start, trace[n..], path, tmp)
    requires forall name :: name != path && name != tmp ==> Untouched(start, next, name)
    ensures OthersUntouched(start, (trace + [next])[n..], path, tmp)
  {
    assert (trace + [next])[n..] == trace[n..] + [next];
  }

  lemma OneMoreState(start: Disk, trace: seq<Disk>, next: Disk, n: nat, path: string, body: Bytes)
    requires n <= |trace| && AlwaysOldOrNew(start, trace[n..], path, body) && OldOrNew(start, next, path, body)
    ensures AlwaysOldOrNew(start, (trace + [next])[n..], path, body)
  {
    assert (trace + [next])[n..] == trace[n..] + [next];
  }

  /** Other names read as they did, live and after a power loss. */
  ghost predicate Untouched(start: Disk, now: Disk, name: string) {
    && Content(now, name) == Content(start, name)
    && (forall c :: Survives(now, name, c) ==> Survives(start, name, c))
  }

  /** Apart from one file, started since, the disk has the files it started
      with, flushed or not as they were; and the name leads where it did. */
  ghost predicate OnlyPrivate(start: Disk, now: Disk, i: Inode, name: string) {
    && May(now, name) == May(start, name) && Live(now, name) == Live(start, name)
    && FilesKept(start, now, i)
  }

  ghost predicate OnlyTemporary(start: Disk, now: Disk, i: Inode, tmp: string) {
    FilesKept(start, now, i) && forall name :: name != tmp ==> OnlyPrivate(start, now, i, name)
  }

  lemma StillOnlyTemporary(start: Disk, now: Disk, next: Disk, i: Inode, tmp: string)
    requires OnlyTemporary(start, now, i, tmp) && i !in start.data && FilesKept(start, next, i)
    requires forall name :: name != tmp ==> May(next, name) == May(now, name) && Live(next, name) == Live(now, name)
    ensures OnlyTemporary(start, next, i, tmp)
  {
    forall name | name != tmp ensures OnlyPrivate(start, next, i, name) {
      assert OnlyPrivate(start, now, i, name);
    }
  }

  ghost predicate FilesKept(start: Disk, now: Disk, i: Inode) {
    forall j :: j in start.data && j != i ==>
      j in now.data && now.data[j] == start.data[j] && (j in now.dirty <==> j in start.dirty)
  }

  lemma PrivateFileIsUnseen(start: Disk, now: Disk, i: Inode, name: string)
    requires Sound(start) && i !in start.data && OnlyPrivate(start, now, i, name)
    ensures Untouched(start, now, name)
  {
    forall c | Survives(now, name, c) ensures Survives(start, name, c) {
      var e :| e in May(now, name) && EntryReads(now, e, c);
      assert EntryReads(start, e, c);
    }
  }

  lemma TemporaryIsUnseen(start: Disk, states: seq<Disk>, i: Inode, path: string, tmp: string)
    requires Sound(start) && i !in start.data && forall k :: 0 <= k < |states| ==> OnlyTemporary(start, states[k], i, tmp)
    ensures OthersUntouched(start, states, path, tmp)
  {
    forall k, name | 0 <= k < |states| && name != path && name != tmp ensures Untouched(start, states[k], name) {
      assert OnlyTemporary(start, states[k], i, tmp);
      PrivateFileIsUnseen(start, states[k], i, name);
    }
  }

  /** Once the name may lead to the new file as well, and that file is flushed,
      only its whole content is new to be read. */
  lemma RenamedReadsOldOrNew(start: Disk, now: Disk, i: Inode, path: string, body: Bytes)
    requires Sound(start) && i !in start.data && FilesKept(start, now, i)
    requires i in now.data && now.data[i] == body && i !in now.dirty
    requires Live(now, path) == Some(i) && May(now, path) <= May(start, path) + {Some(i)}
    ensures OldOrNew(start, now, path, body)
  {
    forall c | Survives(now, path, c) ensures Survives(start, path, c) || c == Some(body) {
      var e :| e in May(now, path) && EntryReads(now, e, c);
      if e != Some(i) {
        assert EntryReads(start, e, c);
      }
    }
  }

  class Directory {
    var disk: Disk
    /** Every state the disk has been in, so also every state a crash may find. */
    ghost var trace: seq<Disk>

    ghost predicate Valid()
      reads this
    {
      Sound(disk) && trace != [] && trace[|trace| - 1] == disk
    }

    constructor (d: Disk)
      requires Sound(d)
      ensures Valid() && disk == d && trace == [d]
    {
      disk := d;
      trace := [d];
    }

    method Step(next: Disk)
      requires Valid() && Sound(next)
      modifies this
      ensures Valid() && disk == next && trace == old(trace) + [next]
    {
      disk := next;
      trace := trace + [next];
    }

    /** The temporary file: created, restricted, written, flushed and closed,
        each of which may fail on a faulty disk and no other; a failed write may leave
        any prefix. */
    method WriteTemporary(tmp: string, i: Inode, body: Bytes, faulty: bool) returns (created: bool, complete: bool)
      requires Valid() && tmp !in disk.live && i !in disk.data && i !in disk.dirty
      modifies this
      ensures Valid() && old(trace) <= trace
      ensures forall k :: |old(trace)| <= k < |trace| ==> OnlyTemporary(old(disk), trace[k], i, tmp)
      ensures OnlyTemporary(old(disk), disk, i, tmp)
      ensures created ==> Live(disk, tmp) == Some(i)
      ensures !created ==> disk == old(disk) && !complete
      ensures complete ==> created && i in disk.data && disk.data[i] == body && i !in disk.dirty
      ensures !faulty ==> complete
    {
      created, complete := *, false;
      created := created || !faulty;
      if !created {
        return;
      }
      ghost var start := disk;
      EmptyFile(disk, i);
      SetEntryChangesOneName(disk.(data := disk.data[i := []]), tmp, Some(i));
      SetEntryIsSound(disk.(data := disk.data[i := []]), tmp, Some(i));
      Step(Created(disk, tmp, i));
      StillOnlyTemporary(start, start, disk, i, tmp);
      complete := FillTemporary(tmp, i, body, faulty, start, |old(trace)|);
    }

    /** All but the first of these. `start` is the disk the save began on. */
    method FillTemporary(tmp: string, i: Inode, body: Bytes, faulty: bool, ghost start: Disk, ghost n: nat) returns (complete: bool)
      requires Valid() && n <= |trace| && i !in start.data && i in disk.data && Live(disk, tmp) == Some(i)
      requires OnlyTemporary(start, disk, i, tmp) && forall k :: n <= k < |trace| ==> OnlyTemporary(start, trace[k], i, tmp)
      modifies this
      ensures Valid() && old(trace) <= trace && Live(disk, tmp) == Some(i)
      ensures OnlyTemporary(start, disk, i, tmp) && forall k :: n <= k < |trace| ==> OnlyTemporary(start, trace[k], i, tmp)
      ensures complete ==> i in disk.data && disk.data[i] == body && i !in disk.dirty
      ensures !faulty ==> complete
    {
      complete := false;
      var restricted: bool := *;
      if faulty && !restricted {
        return;
      }
      var written: nat :| written <= |body| && (faulty || written == |body|);
      assert body[..|body|] == body;
      ghost var made := disk;
      SameNamesStaySound(disk, Written(disk, i, body[..written]));
      Step(Written(disk, i, body[..written]));
      StillOnlyTemporary(start, made, disk, i, tmp);
      var synced: bool := *;
      if written < |body| || (faulty && !synced) {
        return;
      }
      ghost var filled := disk;
      SameNamesStaySound(disk, Synced(disk, i));
      Step(Synced(disk, i));
      StillOnlyTemporary(start, filled, disk, i, tmp);
      complete := *;
      complete := complete || !faulty;
    }

    /** A save. The temporary name and the file number are the system's choice.
        `directorySynced` reports the one step whose failure the code ignores. A save that
        meets no fault is made and flushed; and no temporary file is left behind, after a
        fault neither, unless its removal is stuck. */
    method WriteFileAtomic(path: string, body: Bytes, tmp: string, i: Inode, faulty: bool, stuck: bool) returns (ok: bool, directorySynced: bool)
      requires Valid() && tmp != path && tmp !in disk.live && i !in disk.data && i !in disk.dirty
      modifies this
      ensures Valid() && old(trace) <= trace
      ensures AlwaysOldOrNew(old(disk), trace[|old(trace)|..], path, body)
      ensures !faulty ==> ok && directorySynced
      ensures ok ==> Content(disk, path) == Some(body)
      ensures ok || !stuck ==> Live(disk, tmp) == None
      ensures !ok ==> Untouched(old(disk), disk, path)
      ensures directorySynced ==> ok && forall c :: Survives(disk, path, c) <==> c == Some(body)
      ensures OthersUntouched(old(disk), trace[|old(trace)|..], path, tmp)
      ensures forall name :: name != path && name != tmp ==> Untouched(old(disk), disk, name)
    {
      ghost var start, before := disk, trace;
      ok, directorySynced := false, false;
      var created, complete := WriteTemporary(tmp, i, body, faulty);
      forall name | name != tmp ensures Untouched(start, disk, name) {
        PrivateFileIsUnseen(start, disk, i, name);
      }
      forall k | |before| <= k < |trace| ensures OldOrNew(start, trace[k], path, body) {
        assert OnlyTemporary(start, trace[k], i, tmp);
        PrivateFileIsUnseen(start, trace[k], i, path);
      }
      TemporaryIsUnseen(start, trace[|before|..], i, path, tmp);
      if !created {
        return;
      }
      var renamed: bool := *;
      if complete && (renamed || !faulty) {
        directorySynced := PutInPlace(path, body, tmp, i, faulty, start, |before|);
        ok := true;
        return;
      }
      var removed: bool := *;
      if removed || !stuck {
        ghost var mid, states := disk, trace;
        SetEntryChangesOneName(disk, tmp, None);
        SetEntryIsSound(disk, tmp, None);
        Step(SetEntry(disk, tmp, None));
        forall name | name != tmp ensures Untouched(start, disk, name) {
          assert OnlyPrivate(start, mid, i, name);
          PrivateFileIsUnseen(start, disk, i, name);
        }
        OneMoreState(start, states, disk, |before|, path, body);
        OneMoreBeside(start, states, disk, |before|, path, tmp);
      }
    }

    /** The rename that puts the flushed file in place, and the flush of the
        directory after it. `start` is the disk the save began on. */
    method PutInPlace(path: string, body: Bytes, tmp: string, i: Inode, faulty: bool, ghost start: Disk, ghost n: nat) returns (directorySynced: bool)
      requires Valid() && tmp != path && n <= |trace| && Sound(start) && i !in start.data
      requires i in disk.data && disk.data[i] == body && i !in disk.dirty
      requires OnlyTemporary(start, disk, i, tmp)
      requires AlwaysOldOrNew(start, trace[n..], path, body) && OthersUntouched(start, trace[n..], path, tmp)
      modifies this
      ensures Valid() && old(trace) <= trace
      ensures AlwaysOldOrNew(start, trace[n..], path, body) && OthersUntouched(start, trace[n..], path, tmp)
      ensures Content(disk, path) == Some(body) && Live(disk, tmp) == None
      ensures !faulty ==> directorySynced
      ensures directorySynced ==> forall c :: Survives(disk, path, c) <==> c == Some(body)
      ensures forall name :: name != path && name != tmp ==> Untouched(start, disk, name)
    {
      ghost var mid, states := disk, trace;
      RenameIsSound(disk, tmp, path, i);
      Step(Renamed(disk, tmp, path, i));
      ghost var last := disk;
      assert OnlyPrivate(start, mid, i, path);
      RenamedReadsOldOrNew(start, disk, i, path, body);
      OneMoreState(start, states, disk, n, path, body);
      forall name | name != path && name != tmp ensures OnlyPrivate(start, last, i, name) && Untouched(start, disk, name) {
        assert OnlyPrivate(start, mid, i, name);
        PrivateFileIsUnseen(start, disk, i, name);
      }
      OneMoreBeside(start, states, disk, n, path, tmp);
      directorySynced := *;
      directorySynced := directorySynced || !faulty;
      if directorySynced {
        FlushDirectory(path, body, tmp, i, start, n);
      }
    }

    /** The flush of the directory: of the name it was all for only the new is left. */
    method FlushDirectory(path: string, body: Bytes, tmp: string, i: Inode, ghost start: Disk, ghost n: nat)
      requires Valid() && tmp != path && n <= |trace| && Sound(start) && i !in start.data && FilesKept(start, disk, i)
      requires i in disk.data && disk.data[i] == body && i !in disk.dirty && Live(disk, path) == Some(i) && Live(disk, tmp) == None
      requires forall name :: name != path && name != tmp ==> OnlyPrivate(start, disk, i, name)
      requires AlwaysOldOrNew(start, trace[n..], path, body) && OthersUntouched(start, trace[n..], path, tmp)
      modifies this
      ensures Valid() && old(trace) <= trace
      ensures AlwaysOldOrNew(start, trace[n..], path, body) && OthersUntouched(start, trace[n..], path, tmp)
      ensures Content(disk, path) == Some(body) && Live(disk, tmp) == None
      ensures forall c :: Survives(disk, path, c) <==> c == Some(body)
      ensures forall name :: name != path && name != tmp ==> Untouched(start, disk, name)
    {
      ghost var last, states := disk, trace;
      DirectorySyncIsSound(disk);
      Step(DirectorySynced(disk));
      RenamedReadsOldOrNew(start, disk, i, path, body);
      OneMoreState(start, states, disk, n, path, body);
      OnlyTheNewSurvives(disk, path, body, i);
      forall name | name != path && name != tmp ensures Untouched(start, disk, name) {
        assert OnlyPrivate(start, last, i, name);
        SettledNameIsUnseen(start, disk, i, name);
      }
      OneMoreBeside(start, states, disk, n, path, tmp);
    }
  }

  /** After any run of saves a name reads, live or after a power loss, as it
      could at the start or as what one of the saves was given, whole. */
  lemma {:induction false} RunOfSaves(states: seq<Disk>, path: string, bodies: seq<Bytes>)
    requires |states| == |bodies| + 1
    requires forall k :: 0 <= k < |bodies| ==> OldOrNew(states[k], states[k + 1], path, bodies[k])
    ensures var last := states[|bodies|];
            Content(last, path) == Content(states[0], path) || exists k :: 0 <= k < |bodies| && Content(last, path) == Some(bodies[k])
    ensures forall c :: Survives(states[|bodies|], path, c) ==>
              Survives(states[0], path, c) || exists k :: 0 <= k < |bodies| && c == Some(bodies[k])
  {
    if bodies != [] {
      var m := |bodies| - 1;
      RunOfSaves(states[..m + 1], path, bodies[..m]);
      assert OldOrNew(states[m], states[m + 1], path, bodies[m]);
      assert forall k :: 0 <= k < m ==> bodies[..m][k] == bodies[k];
    }
  }

  // ------------------------------------------------------ power losses between saves

  /** A disk as it may be found after a power loss: each name leads to one of the
      entries it might have, every file that was flushed holds its data, and nothing
      is pending any more. */
  ghost predicate AfterLoss(d: Disk, e: Disk) {
    && e.may == map[] && e.dirty == {}
    && forall name :: Live(e, name) in May(d, name) && EntryReads(d, Live(e, name), Content(e, name))
  }

  /** A disk found after a power loss is one that saves can go on with; what is read
      there is what may have survived, and a second loss does nothing more to it. */
  lemma LossReads(d: Disk, e: Disk, name: string)
    requires AfterLoss(d, e)
    ensures Sound(e) && Survives(d, name, Content(e, name))
    ensures forall c :: Survives(e, name, c) <==> c == Content(e, name)
  {
    forall n, i | Some(i) in May(e, n) ensures i in e.data {
      assert EntryReads(d, Live(e, n), Content(e, n));
    }
    assert May(e, name) == {Live(e, name)};
    assert EntryReads(e, Live(e, name), Content(e, name));
  }

  /** And whatever may survive under a name is found under it after some loss. */
  lemma SurvivorIsFound(d: Disk, name: string, c: Option<Bytes>) returns (e: Disk)
    requires Sound(d) && Survives(d, name, c)
    ensures AfterLoss(d, e) && Content(e, name) == c
  {
    var entry :| entry in May(d, name) && EntryReads(d, entry, c);
    var data := if entry.Some? then d.data[entry.value := c.value] else d.data;
    var live := match entry case Some(i) => d.live[name := i] case None => d.live - {name};
    e := Disk(live, data, {}, map[]);
    forall n ensures Live(e, n) in May(d, n) && EntryReads(d, Live(e, n), Content(e, n)) {
      assert Live(d, n) in May(d, n) && (n == name || Live(e, n) == Live(d, n));
    }
  }

  /** What happens to a disk: a save of a name, as far as it got, or a save of some
      other name, or a power loss. */
  datatype Event = Saving(body: Bytes) | SavingOther | Loss

  ghost predicate Happens(d: Disk, event: Event, e: Disk, path: string) {
    match event
    case Saving(body) => OldOrNew(d, e, path, body)
    case SavingOther => Untouched(d, e, path)
    case Loss => AfterLoss(d, e)
  }

  /** What is read under a name now, or may be after a power loss. */
  ghost predicate Reads(d: Disk, path: string, c: Option<Bytes>) {
    c == Content(d, path) || Survives(d, path, c)
  }

  lemma EventReads(d: Disk, event: Event, e: Disk, path: string, c: Option<Bytes>)
    requires Happens(d, event, e, path) && Reads(e, path, c)
    ensures Reads(d, path, c) || (event.Saving? && c == Some(event.body))
  {
    if event == Loss {
      LossReads(d, e, path);
    }
  }

  /** Over any run of saves and power losses, each save going on from what the last
      loss left and cut off wherever the next one fell: what is read under the name,
      now or after one more loss, could be read at the start or is the whole of what
      one of the saves was given. */
  lemma {:induction false} RunWithLosses(states: seq<Disk>, events: seq<Event>, path: string, c: Option<Bytes>)
    requires |states| == |events| + 1
    requires forall k :: 0 <= k < |events| ==> Happens(states[k], events[k], states[k + 1], path)
    requires Reads(states[|events|], path, c)
    ensures Reads(states[0], path, c) || exists k :: 0 <= k < |events| && events[k].Saving? && c == Some(events[k].body)
  {
    if events != [] {
      var m := |events| - 1;
      EventReads(states[m], events[m], states[m + 1], path, c);
      if Reads(states[m], path, c) {
        RunWithLosses(states[..m + 1], events[..m], path, c);
      }
    }
  }

  /** A save after which the directory was flushed outlives every loss: as long as
      nothing else is saved under the name, it is what is read. */
  lemma {:induction false} FlushedSaveStays(states: seq<Disk>, events: seq<Event>, path: string, body: Bytes)
    requires |states| == |events| + 1 && Sound(states[0])
    requires forall c :: Survives(states[0], path, c) <==> c == Some(body)
    requires forall k :: 0 <= k < |events| ==> Happens(states[k], events[k], states[k + 1], path) && !events[k].Saving?
    ensures Content(states[|events|], path) == Some(body)
    ensures forall c :: Survives(states[|events|], path, c) ==> c == Some(body)
  {
    ContentSurvives(states[0], path);
    forall c | Reads(states[|events|], path, c) ensures c == Some(body) {
      RunWithLosses(states, events, path, c);
    }
    var last := states[|events|];
    assert Reads(last, path, Content(last, path));
    forall c | Survives(last, path, c) ensures c == Some(body) {
      assert Reads(last, path, c);
    }
  }

  lemma ContentSurvives(d: Disk, path: string)
    requires Sound(d)
    ensures Survives(d, path, Content(d, path))
  {
    var e := Live(d, path);
    assert e in May(d, path);
    assert EntryReads(d, e, Content(d, path));
  }

  lemma SameNamesStaySound(d: Disk, e: Disk)
    requires Sound(d) && e.live == d.live && e.may == d.may && d.data.Keys <= e.data.Keys
    ensures Sound(e) && forall name :: May(e, name) == May(d, name) && Live(e, name) == Live(d, name)
  {
    assert forall name :: May(e, name) == May(d, name);
  }

  lemma DirectorySyncIsSound(d: Disk)
    requires Sound(d)
    ensures var e := DirectorySynced(d);
            Sound(e) && forall name :: May(e, name) == {Live(d, name)} && Live(e, name) == Live(d, name)
  {
    var e := DirectorySynced(d);
    forall name, i | Some(i) in May(e, name) ensures i in e.data {
      assert Live(d, name) in May(d, name);
    }
  }

  lemma EmptyFile(d: Disk, i: Inode)
    requires Sound(d)
    ensures var e := d.(data := d.data[i := []]);
            Sound(e) && forall name :: May(e, name) == May(d, name) && Live(e, name) == Live(d, name)
  {
    var e := d.(data := d.data[i := []]);
    assert forall name :: May(e, name) == May(d, name);
  }

  lemma RenameIsSound(d: Disk, from: string, to: string, i: Inode)
    requires Sound(d) && i in d.data && from != to
    ensures var r := Renamed(d, from, to, i);
            Sound(r) && r.data == d.data && r.dirty == d.dirty &&
            Live(r, to) == Some(i) && May(r, to) == May(d, to) + {Some(i)} &&
            forall name :: name != to && name != from ==> Live(r, name) == Live(d, name) && May(r, name) == May(d, name)
  {
    var s := SetEntry(d, to, Some(i));
    SetEntryChangesOneName(d, to, Some(i));
    SetEntryIsSound(d, to, Some(i));
    SetEntryChangesOneName(s, from, None);
    SetEntryIsSound(s, from, None);
  }

  lemma OnlyTheNewSurvives(d: Disk, path: string, body: Bytes, i: Inode)
    requires May(d, path) == {Some(i)} && i in d.data && d.data[i] == body && i !in d.dirty
    ensures forall c :: Survives(d, path, c) <==> c == Some(body)
  {
    assert Some(i) in May(d, path) && EntryReads(d, Some(i), Some(body));
  }

  /** Flushing the directory leaves each other name only what was live. */
  lemma SettledNameIsUnseen(start: Disk, now: Disk, i: Inode, name: string)
    requires Sound(start) && i !in start.data && FilesKept(start, now, i)
    requires Live(now, name) == Live(start, name) && May(now, name) == {Live(now, name)}
    requires Live(start, name) in May(start, name)
    ensures Untouched(start, now, name)
  {
    forall c | Survives(now, name, c) ensures Survives(start, name, c) {
      assert EntryReads(start, Live(start, name), c);
    }
  }
}
