/** The edits as the engine makes them: in place, on slices it has cloned. */
module ConfigEdits {
  import opened Prelude
  import opened ConfigModel
  import opened ConfigSlices

  ghost function CellsOf(ch: Change<Row>): set<object> {
    if ch.AddEnvironment? || ch.SaveEnvironment? || ch.AddStorage? || ch.SaveStorage? then Cells([ch.e]) else {}
  }

  /** The edit a change makes beside the stored environments, told by the values it
      points at. */
  ghost function EditOf(ch: Change<Row>, stored: seq<Row>): Edit
    reads CellsOf(ch)
    ensures OnEnvironments(ch) == OnEnvironments(EditOf(ch, stored)) && OnStorage(ch) == OnStorage(EditOf(ch, stored))
    ensures OnKeys(ch) == OnKeys(EditOf(ch, stored))
  {
    match ch
    case AddEnvironment(e) => AddEnvironment(Given(Entries([e])[0], false))
    case SaveEnvironment(original, e) => SaveEnvironment(original, Given(Entries([e])[0], Kept(stored, original, e)))
    case DuplicateEnvironment(name, newName) => DuplicateEnvironment(name, newName)
    case DeleteEnvironment(name, running) => DeleteEnvironment(name, running)
    case RecordEnvironmentProbe(name, stamp) => RecordEnvironmentProbe(name, stamp)
    case AddStorage(e) => AddStorage(Given(Entries([e])[0], false))
    case SaveStorage(original, e) => SaveStorage(original, Given(Entries([e])[0], false))
    case DuplicateStorage(name, newName) => DuplicateStorage(name, newName)
    case DeleteStorage(name, running) => DeleteStorage(name, running)
    case SetDefaultStorage(name) => SetDefaultStorage(name)
    case RecordStorageProbe(name, stamp) => RecordStorageProbe(name, stamp)
    case AddKey(k) => AddKey(k)
    case SaveKey(original, k) => SaveKey(original, k)
    case DeleteKey(name) => DeleteKey(name)
    case SetPreferences(p) => SetPreferences(p)
  }

  /** Only names and presets of what is stored matter to it. */
  lemma EditOfAlike(ch: Change<Row>, a: seq<Row>, b: seq<Row>)
    requires SamePresets(a, b)
    ensures EditOf(ch, a) == EditOf(ch, b)
  {
    if ch.SaveEnvironment? {
      KeptAlike(a, b, ch.original, ch.e);
    }
  }

  /** For a change of anything but environments not even those. */
  lemma EditOfOther(ch: Change<Row>, a: seq<Row>, b: seq<Row>)
    requires !OnEnvironments(ch)
    ensures EditOf(ch, a) == EditOf(ch, b)
  {
  }

  /** The row a change brings does not share its jump host with the slice. */
  ghost predicate HopIsItsOwn(ch: Change<Row>, s: Slice<Row>)
    requires Fits(s)
    reads s.arr
  {
    ch.SaveEnvironment? || ch.SaveStorage? ==> ch.e.hop != null ==> ch.e.hop !in Own(Elems(s))
  }

  method EditEnvironments(s: Slice<Row>, ch: Change<Row>) returns (r: Slice<Row>, reason: Outcome<()>)
    requires Fits(s) && OnEnvironments(ch) && HopIsItsOwn(ch, s)
    modifies s.arr
    ensures Fits(r) && (r.arr == s.arr || fresh(r.arr))
    ensures reason == Reason(EnvironmentsEdited(old(Entries(Elems(s))), old(EditOf(ch, Elems(s)))))
    ensures reason.Done? ==> Entries(Elems(r)) == EnvironmentsEdited(old(Entries(Elems(s))), old(EditOf(ch, Elems(s)))).value
  {
    r := s;
    match ch
    case AddEnvironment(e) => r, reason := AddRow(s, e);
    case SaveEnvironment(original, e) => reason := SaveRow(s, original, e, false);
    case DuplicateEnvironment(name, newName) => r, reason := DuplicateRow(s, name, newName);
    case DeleteEnvironment(name, running) =>
      if running { reason := InUse; } else { r, reason := DeleteRow(s, name); }
    case RecordEnvironmentProbe(name, stamp) => reason := RecordRow(s, name, stamp);
  }

  // ------------------------------------------------------------------- storage

  method AddStorageRow(s: Slice<Row>, e: Row) returns (r: Slice<Row>, reason: Outcome<()>)
    requires Fits(s)
    modifies s.arr
    ensures Fits(r) && (r.arr == s.arr || fresh(r.arr))
    ensures reason == Reason(AddedStorage(old(Entries(Elems(s))), old(EntryOf(e))))
    ensures reason.Done? ==> Entries(Elems(r)) == AddedStorage(old(Entries(Elems(s))), old(EntryOf(e))).value
  {
    ghost var es, x := Entries(Elems(s)), EntryOf(e);
    r, reason := AddRow(s, e);
    if reason.Done? {
      ghost var all := Entries(Elems(r));
      assert Add(es, x) == Done(all);
      if e.isDefault {
        MakeDefaultExclusive(r, e.name);
      } else if r.len == 1 {
        ghost var rows := Elems(r);
        r.arr[0] := r.arr[0].(isDefault := true);
        assert Elems(r) == [rows[0].(isDefault := true)];
      }
    }
  }

  method SaveStorageRow(s: Slice<Row>, original: string, e: Row) returns (reason: Outcome<()>)
    requires Fits(s) && (e.hop != null ==> e.hop !in Own(Elems(s)))
    modifies s.arr
    ensures reason == Reason(SavedStorage(old(Entries(Elems(s))), original, old(EntryOf(e))))
    ensures reason.Done? ==> Entries(Elems(s)) == SavedStorage(old(Entries(Elems(s))), original, old(EntryOf(e))).value
  {
    reason := SaveRow(s, original, e, true);
    if reason.Done? && e.isDefault {
      MakeDefaultExclusive(s, e.name);
    }
  }

  method DeleteStorageRow(s: Slice<Row>, name: string) returns (r: Slice<Row>, reason: Outcome<()>)
    requires Fits(s)
    modifies s.arr
    ensures Fits(r) && r.arr == s.arr
    ensures reason == Reason(DeletedStorage(old(Entries(Elems(s))), name))
    ensures reason.Done? ==> Entries(Elems(r)) == DeletedStorage(old(Entries(Elems(s))), name).value
  {
    ghost var rows, es := Elems(s), Entries(Elems(s));
    r := s;
    var i := FindRow(s, name);
    assert Elems(s) == rows && Entries(rows) == es;
    if i < 0 {
      return r, NotFound;
    }
    if s.arr[i].isDefault && s.len > 1 {
      return r, InUse;
    }
    r := RemoveRow(s, i);
    reason := Done(());
  }

  method SetDefaultRow(s: Slice<Row>, name: string) returns (reason: Outcome<()>)
    requires Fits(s)
    modifies s.arr
    ensures var es := old(Entries(Elems(s)));
            if name in EntryNames(es) then reason == Done(()) && Entries(Elems(s)) == OnlyDefault(es, name) else reason == NotFound
  {
    ghost var es := Entries(Elems(s));
    var i := FindRow(s, name);
    assert Entries(Elems(s)) == es;
    if i < 0 {
      return NotFound;
    }
    MakeDefaultExclusive(s, name);
    reason := Done(());
  }

  method EditStorage(s: Slice<Row>, ch: Change<Row>) returns (r: Slice<Row>, reason: Outcome<()>)
    requires Fits(s) && OnStorage(ch) && HopIsItsOwn(ch, s)
    modifies s.arr
    ensures Fits(r) && (r.arr == s.arr || fresh(r.arr))
    ensures reason == Reason(StorageEdited(old(Entries(Elems(s))), old(EditOf(ch, []))))
    ensures reason.Done? ==> Entries(Elems(r)) == StorageEdited(old(Entries(Elems(s))), old(EditOf(ch, []))).value
  {
    r := s;
    match ch
    case AddStorage(e) => r, reason := AddStorageRow(s, e);
    case SaveStorage(original, e) => reason := SaveStorageRow(s, original, e);
    case DuplicateStorage(name, newName) => r, reason := DuplicateRow(s, name, newName);
    case DeleteStorage(name, running) =>
      if running { reason := InUse; } else { r, reason := DeleteStorageRow(s, name); }
    case SetDefaultStorage(name) => reason := SetDefaultRow(s, name);
    case RecordStorageProbe(name, stamp) => reason := RecordRow(s, name, stamp);
  }

  // ---------------------------------------------------------------------- keys

  method FindKey(s: Slice<Key>, name: string) returns (i: int)
    requires Fits(s)
    ensures i == IndexOf(KeyNames(Elems(s)), name)
  {
    i := 0;
    while i < s.len
      invariant 0 <= i <= s.len
      invariant forall k :: 0 <= k < i ==> s.arr[k].name != name
    {
      if s.arr[i].name == name {
        assert KeyNames(Elems(s))[i] == name;
        return;
      }
      i := i + 1;
    }
    i := -1;
  }

  /** What an edit of the keys leaves where they were: a slice of the old length over
      the array that was written to. An added key is behind its end; a saved key is
      in it; a deleted key's place is taken, and the last key stands there twice. */
  function LeftBehind(ks: seq<Key>, e: Edit): seq<Key>
    requires OnKeys(e)
  {
    if !KeysEdited(ks, e).Done? || e.AddKey? then ks
    else if e.SaveKey? then KeysEdited(ks, e).value
    else KeysEdited(ks, e).value + [ks[|ks| - 1]]
  }

  method AddKeyTo(s: Slice<Key>, k: Key) returns (r: Slice<Key>, reason: Outcome<()>)
    requires Fits(s)
    modifies s.arr
    ensures Fits(r) && (r.arr == s.arr || fresh(r.arr)) && Elems(s) == old(Elems(s))
    ensures reason == Reason(AddedKey(old(Elems(s)), k)) && (reason.Done? ==> Elems(r) == AddedKey(old(Elems(s)), k).value)
  {
    r := s;
    var i := FindKey(s, k.name);
    if 0 <= i {
      return r, Exists;
    }
    r := Append(s, k);
    reason := Done(());
  }

  method SaveKeyIn(s: Slice<Key>, original: string, k: Key) returns (reason: Outcome<()>)
    requires Fits(s)
    modifies s.arr
    ensures reason == Reason(SavedKey(old(Elems(s)), original, k))
    ensures Elems(s) == if reason.Done? then SavedKey(old(Elems(s)), original, k).value else old(Elems(s))
  {
    var i := FindKey(s, original);
    if i < 0 {
      return NotFound;
    }
    if k.name != original {
      var j := FindKey(s, k.name);
      if 0 <= j {
        return Exists;
      }
    }
    s.arr[i] := k;
    reason := Done(());
  }

  method DeleteKeyFrom(s: Slice<Key>, name: string) returns (r: Slice<Key>, reason: Outcome<()>)
    requires Fits(s)
    modifies s.arr
    ensures Fits(r) && r.arr == s.arr && reason == Reason(DeletedKey(old(Elems(s)), name))
    ensures reason.Done? ==> Elems(r) == DeletedKey(old(Elems(s)), name).value && Elems(s) == Elems(r) + [old(Elems(s))[s.len - 1]]
    ensures !reason.Done? ==> Elems(s) == old(Elems(s))
  {
    r := s;
    var i := FindKey(s, name);
    if i < 0 {
      return r, NotFound;
    }
    r := RemoveAt(s, i);
    reason := Done(());
  }

  method EditKeys(s: Slice<Key>, ch: Change<Row>) returns (r: Slice<Key>, reason: Outcome<()>)
    requires Fits(s) && OnKeys(ch)
    modifies s.arr
    ensures Fits(r) && (r.arr == s.arr || fresh(r.arr))
    ensures reason == Reason(KeysEdited(old(Elems(s)), old(EditOf(ch, []))))
    ensures reason.Done? ==> Elems(r) == KeysEdited(old(Elems(s)), old(EditOf(ch, []))).value
    ensures Elems(s) == LeftBehind(old(Elems(s)), old(EditOf(ch, [])))
  {
    r := s;
    match ch
    case AddKey(k) => r, reason := AddKeyTo(s, k);
    case SaveKey(original, k) => reason := SaveKeyIn(s, original, k);
    case DeleteKey(name) => r, reason := DeleteKeyFrom(s, name);
  }
}
