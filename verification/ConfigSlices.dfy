/** The configuration as the engine holds it: slices over arrays, which appends and
    deletions work on in place, and rows that point at probe stamps and jump hosts. */
module ConfigSlices {
  import opened Prelude
  import opened ConfigModel

  class StampCell {
    var stamp: Stamp

    constructor (stamp: Stamp)
      ensures this.stamp == stamp
    {
      this.stamp := stamp;
    }
  }

  class HopCell {
    var hop: Hop

    constructor (hop: Hop)
      ensures this.hop == hop
    {
      this.hop := hop;
    }
  }

  class PresetCell {
    var preset: Preset

    constructor (preset: Preset)
      ensures this.preset == preset
    {
      this.preset := preset;
    }
  }

  datatype Row = Row(
    name: string,
    credentialRef: string,
    adminCredentialRef: string,
    isDefault: bool,
    probe: StampCell?,
    hop: HopCell?,
    preset: PresetCell?,
    rest: nat)

  /** A length over the front of an array; what is behind it is spare capacity. */
  datatype Slice<T> = Slice(arr: array<T>, len: nat)

  predicate Fits<T>(s: Slice<T>) {
    s.len <= s.arr.Length
  }

  function Elems<T>(s: Slice<T>): seq<T>
    requires Fits(s)
    reads s.arr
  {
    s.arr[..s.len]
  }

  // ------------------------------------------------------------- rows as entries

  function EntryOf(r: Row): Entry
    reads r.probe, r.hop, r.preset
  {
    Entry(r.name, r.credentialRef, r.adminCredentialRef, r.isDefault,
          if r.probe == null then None else Some(r.probe.stamp),
          if r.hop == null then None else Some(r.hop.hop),
          if r.preset == null then None else Some(r.preset.preset),
          r.rest)
  }

  /** The stamps and jump hosts that rows point at. */
  ghost function Own(rows: seq<Row>): set<object> {
    (set i | 0 <= i < |rows| && rows[i].probe != null :: rows[i].probe as object)
    + (set i | 0 <= i < |rows| && rows[i].hop != null :: rows[i].hop as object)
  }

  /** Everything rows point at; presets may be shared with other rows. */
  ghost function Cells(rows: seq<Row>): set<object> {
    Own(rows) + (set i | 0 <= i < |rows| && rows[i].preset != null :: rows[i].preset as object)
  }

  function Entries(rows: seq<Row>): (es: seq<Entry>)
    reads Cells(rows)
    ensures |es| == |rows| && forall i :: 0 <= i < |rows| ==> es[i] == EntryOf(rows[i])
  {
    seq(|rows|, i requires 0 <= i < |rows| reads Cells(rows) => EntryOf(rows[i]))
  }

  lemma EntriesPlus(rows: seq<Row>, r: Row)
    ensures Entries(rows + [r]) == Entries(rows) + [EntryOf(r)]
  {
  }

  lemma EntriesAt(rows: seq<Row>, i: nat, r: Row)
    requires i < |rows|
    ensures Entries(rows[i := r]) == Entries(rows)[i := EntryOf(r)]
  {
  }

  lemma EntriesWithout(rows: seq<Row>, i: nat)
    requires i < |rows|
    ensures Entries(Without(rows, i)) == Without(Entries(rows), i)
  {
  }

  // ------------------------------------------------------------------- slices

  /** append: in place while there is room, and otherwise into a new array. */
  method Append<T(0)>(s: Slice<T>, x: T) returns (r: Slice<T>)
    requires Fits(s)
    modifies s.arr
    ensures Fits(r) && if s.len < s.arr.Length then r.arr == s.arr else fresh(r.arr)
    ensures Elems(r) == old(Elems(s)) + [x] && Elems(s) == old(Elems(s))
  {
    if s.len < s.arr.Length {
      s.arr[s.len] := x;
      r := Slice(s.arr, s.len + 1);
    } else {
      var arr := new T[2 * s.len + 1];
      for i := 0 to s.len
        invariant arr[..i] == s.arr[..i]
        modifies arr
      {
        arr[i] := s.arr[i];
      }
      arr[s.len] := x;
      r := Slice(arr, s.len + 1);
      assert arr[..s.len] == s.arr[..s.len];
    }
  }

  /** append(s[:i], s[i+1:]...): the tail moves down one place, in place, and the old
      last element stays behind the new end. */
  method RemoveAt<T>(s: Slice<T>, i: nat) returns (r: Slice<T>)
    requires Fits(s) && i < s.len
    modifies s.arr
    ensures r == Slice(s.arr, s.len - 1)
    ensures Elems(r) == Without(old(Elems(s)), i)
    ensures Elems(s) == Without(old(Elems(s)), i) + [old(Elems(s))[s.len - 1]]
  {
    for j := i to s.len - 1
      invariant i <= j <= s.len - 1
      invariant forall k :: 0 <= k < i ==> s.arr[k] == old(s.arr[k])
      invariant forall k :: i <= k < j ==> s.arr[k] == old(s.arr[k + 1])
      invariant forall k :: j <= k < s.arr.Length ==> s.arr[k] == old(s.arr[k])
    {
      s.arr[j] := s.arr[j + 1];
    }
    r := Slice(s.arr, s.len - 1);
  }

  method CloneRow(row: Row) returns (r: Row)
    ensures r.probe != null ==> fresh(r.probe)
    ensures r.hop != null ==> fresh(r.hop)
    ensures EntryOf(r) == old(EntryOf(row)) && r.name == row.name && r.preset == row.preset
  {
    r := row;
    if row.probe != null {
      var cell := new StampCell(row.probe.stamp);
      r := r.(probe := cell);
    }
    if row.hop != null {
      var cell := new HopCell(row.hop.hop);
      r := r.(hop := cell);
    }
  }

  /** The rows bear the same names and point at the same presets. */
  ghost predicate SamePresets(a: seq<Row>, b: seq<Row>) {
    |a| == |b| && forall i :: 0 <= i < |a| ==> a[i].name == b[i].name && a[i].preset == b[i].preset
  }

  /** A copy of the rows with stamps and jump hosts of its own; the presets are the
      same objects. */
  method CloneRows(s: Slice<Row>) returns (r: Slice<Row>)
    requires Fits(s)
    ensures Fits(r) && fresh(r.arr)
    ensures Entries(Elems(r)) == old(Entries(Elems(s)))
    ensures fresh(Own(Elems(r))) && SamePresets(Elems(r), old(Elems(s)))
  {
    ghost var rows, es := Elems(s), Entries(Elems(s));
    var arr := new Row[s.len];
    ghost var out: seq<Row> := [];
    for i := 0 to s.len
      invariant |out| == i && arr[..i] == out && Elems(s) == rows && Entries(rows) == es
      invariant Entries(out) == es[..i] && fresh(Own(out)) && SamePresets(out, rows[..i])
      modifies arr
    {
      var row := NextClone(s, i, rows, es, out);
      arr[i] := row;
      out := out + [row];
    }
    r := Slice(arr, s.len);
    assert rows[..s.len] == rows && es[..s.len] == es && Elems(r) == out;
  }

  /** One more clone behind those there are. */
  method NextClone(s: Slice<Row>, i: nat, ghost rows: seq<Row>, ghost es: seq<Entry>, ghost out: seq<Row>) returns (row: Row)
    requires Fits(s) && i < s.len && rows == Elems(s) && es == Entries(rows)
    requires |out| == i && Entries(out) == es[..i] && SamePresets(out, rows[..i])
    ensures Elems(s) == rows && Entries(rows) == es
    ensures Entries(out + [row]) == es[..i + 1] && SamePresets(out + [row], rows[..i + 1])
    ensures forall o :: o in Own(out + [row]) ==> o in Own(out) || fresh(o)
  {
    row := CloneRow(s.arr[i]);
    assert Entries(rows) == es && Entries(out) == es[..i];
    OneMoreClone(rows, es, out, row);
  }

  lemma OneMoreClone(rows: seq<Row>, es: seq<Entry>, out: seq<Row>, row: Row)
    requires |out| < |rows| == |es|
    requires Entries(out) == es[..|out|] && SamePresets(out, rows[..|out|])
    requires EntryOf(row) == es[|out|] && row.name == rows[|out|].name && row.preset == rows[|out|].preset
    ensures Entries(out + [row]) == es[..|out| + 1] && SamePresets(out + [row], rows[..|out| + 1])
    ensures forall o :: o in Own(out + [row]) ==> o in Own(out) || o == row.probe || o == row.hop
  {
    EntriesPlus(out, row);
    OwnPlus(out, row);
    assert es[..|out| + 1] == es[..|out|] + [es[|out|]];
  }

  /** One more row adds only what it points at itself. */
  lemma OwnPlus(rows: seq<Row>, r: Row)
    ensures forall o :: o in Own(rows + [r]) ==> o in Own(rows) || o == r.probe || o == r.hop
  {
  }

  /** Rows that point at the same things point at the same set of things. */
  lemma SamePointers(a: seq<Row>, b: seq<Row>)
    requires |a| == |b|
    requires forall i :: 0 <= i < |a| ==> a[i].probe == b[i].probe && a[i].hop == b[i].hop && a[i].preset == b[i].preset
    ensures Cells(a) == Cells(b)
  {
    PointersWithin(a, b);
    PointersWithin(b, a);
  }

  lemma PointersWithin(a: seq<Row>, b: seq<Row>)
    requires |a| == |b|
    requires forall i :: 0 <= i < |a| ==> a[i].probe == b[i].probe && a[i].hop == b[i].hop && a[i].preset == b[i].preset
    ensures Cells(a) <= Cells(b)
  {
    forall o | o in Cells(a) ensures o in Cells(b) {
      var i :| 0 <= i < |a| && (a[i].probe == o || a[i].hop == o || a[i].preset == o);
      assert b[i].probe == o || b[i].hop == o || b[i].preset == o;
    }
  }

  method RowOf(e: Entry) returns (r: Row)
    ensures EntryOf(r) == e
  {
    var probe: StampCell?, hop: HopCell?, preset: PresetCell? := null, null, null;
    if e.lastProbe.Some? {
      probe := new StampCell(e.lastProbe.value);
    }
    if e.jumpHost.Some? {
      hop := new HopCell(e.jumpHost.value);
    }
    if e.preset.Some? {
      preset := new PresetCell(e.preset.value);
    }
    r := Row(e.name, e.credentialRef, e.adminCredentialRef, e.isDefault, probe, hop, preset, e.rest);
  }

  /** A slice that holds a decoded list. */
  method RowsOf(es: seq<Entry>) returns (r: Slice<Row>)
    ensures Fits(r) && fresh(r.arr) && Entries(Elems(r)) == es
  {
    var arr := new Row[|es|];
    ghost var out: seq<Row> := [];
    for i := 0 to |es|
      invariant |out| == i && arr[..i] == out && Entries(out) == es[..i]
      modifies arr
    {
      var row := RowOf(es[i]);
      EntriesPlus(out, row);
      arr[i] := row;
      out := out + [row];
    }
    r := Slice(arr, |es|);
    assert es[..|es|] == es && Elems(r) == out;
  }

  // ----------------------------------------------------- the edits, on the slices

  /** The first row of that name, or -1. */
  method FindRow(s: Slice<Row>, name: string) returns (i: int)
    requires Fits(s)
    ensures i == IndexOf(EntryNames(Entries(Elems(s))), name)
  {
    i := 0;
    while i < s.len
      invariant 0 <= i <= s.len
      invariant forall k :: 0 <= k < i ==> s.arr[k].name != name
    {
      if s.arr[i].name == name {
        assert EntryNames(Entries(Elems(s)))[i] == name;
        return;
      }
      i := i + 1;
    }
    i := -1;
  }

  method MakeDefaultExclusive(s: Slice<Row>, name: string)
    requires Fits(s)
    modifies s.arr
    ensures Entries(Elems(s)) == OnlyDefault(old(Entries(Elems(s))), name)
    ensures Cells(Elems(s)) == old(Cells(Elems(s)))
  {
    ghost var rows, es := Elems(s), Entries(Elems(s));
    for i := 0 to s.len
      invariant forall k :: 0 <= k < i ==> s.arr[k] == rows[k].(isDefault := rows[k].name == name)
      invariant forall k :: i <= k < s.len ==> s.arr[k] == rows[k]
      invariant Entries(rows) == es
    {
      s.arr[i] := s.arr[i].(isDefault := s.arr[i].name == name);
    }
    SamePointers(Elems(s), rows);
    MarkedEntries(rows, Elems(s), name);
  }

  lemma MarkedEntries(rows: seq<Row>, marked: seq<Row>, name: string)
    requires |marked| == |rows| && forall k :: 0 <= k < |rows| ==> marked[k] == rows[k].(isDefault := rows[k].name == name)
    ensures Entries(marked) == OnlyDefault(Entries(rows), name)
  {
  }

  /** Only that something was done, or why not. */
  function Reason<T>(o: Outcome<T>): Outcome<()> {
    match o
    case Done(_) => Done(())
    case NotFound => NotFound
    case Exists => Exists
    case InUse => InUse
  }

  method AddRow(s: Slice<Row>, e: Row) returns (r: Slice<Row>, reason: Outcome<()>)
    requires Fits(s)
    modifies s.arr
    ensures Fits(r) && (r.arr == s.arr || fresh(r.arr))
    ensures reason == Reason(Add(old(Entries(Elems(s))), old(EntryOf(e))))
    ensures reason.Done? ==> Entries(Elems(r)) == Add(old(Entries(Elems(s))), old(EntryOf(e))).value
  {
    ghost var rows, es, x := Elems(s), Entries(Elems(s)), EntryOf(e);
    r := s;
    var i := FindRow(s, e.name);
    assert Elems(s) == rows && Entries(rows) == es && EntryOf(e) == x;
    if 0 <= i {
      return r, Exists;
    }
    r := AppendRow(s, e);
    reason := Done(());
  }

  /** Whether two rows differ when printed with their pointers as addresses, the
      probe and, for a storage, the default flag left out. */
  predicate RowsDiffer(a: Row, b: Row) {
    a.(probe := null) != b.(probe := null)
  }

  predicate StorageRowsDiffer(a: Row, b: Row) {
    RowsDiffer(a.(isDefault := false, preset := null), b.(isDefault := false, preset := null))
  }

  /** How saving tells that a definition changed: for a storage, the default flag
      left out. */
  function Changed(storage: bool, kept: bool): (Entry, Entry) -> bool {
    if storage then StorageReachabilityChanged else ReachabilityChanged(kept)
  }

  function RowNames(rows: seq<Row>): (r: seq<string>)
    ensures |r| == |rows| && forall i :: 0 <= i < |r| ==> r[i] == rows[i].name
  {
    Map((r: Row) => r.name, rows)
  }

  /** The row brings the preset object that is stored under a name, or neither has one. */
  predicate Kept(rows: seq<Row>, original: string, e: Row) {
    var i := IndexOf(RowNames(rows), original);
    0 <= i && rows[i].preset == e.preset
  }

  lemma KeptAlike(a: seq<Row>, b: seq<Row>, original: string, e: Row)
    requires SamePresets(a, b)
    ensures Kept(a, original, e) == Kept(b, original, e)
  {
    assert RowNames(a) == RowNames(b);
  }

  /** Where a row is to be saved, if it may be. */
  method FindForSave(s: Slice<Row>, original: string, name: string) returns (i: int, reason: Outcome<()>)
    requires Fits(s)
    ensures var names := EntryNames(Entries(Elems(s)));
            i == IndexOf(names, original)
            && reason == if i < 0 then NotFound else if name != original && name in names then Exists else Done(())
  {
    ghost var names := EntryNames(Entries(Elems(s)));
    i := FindRow(s, original);
    assert names == EntryNames(Entries(Elems(s)));
    if i < 0 {
      return i, NotFound;
    }
    if name != original {
      var j := FindRow(s, name);
      assert names == EntryNames(Entries(Elems(s)));
      if 0 <= j {
        return i, Exists;
      }
    }
    reason := Done(());
  }

  method PutRow(s: Slice<Row>, i: nat, e: Row, storage: bool)
    requires Fits(s) && i < s.len
    requires e.hop != null ==> e.hop !in Own(Elems(s))
    modifies s.arr
    ensures Entries(Elems(s)) ==
            var es, x, kept := old(Entries(Elems(s))), old(EntryOf(e)), old(s.arr[i].preset) == e.preset;
            es[i := Stamped(es[i], x, Changed(storage, kept)(es[i], x))]
  {
    var changed := if storage then StorageRowsDiffer(s.arr[i], e) else RowsDiffer(s.arr[i], e);
    RowsDifferAsEntries(s, i, e);
    SetRow(s, i, StampedRow(s.arr[i], e, changed));
  }

  method SetRow(s: Slice<Row>, i: nat, row: Row)
    requires Fits(s) && i < s.len
    modifies s.arr
    ensures Entries(Elems(s)) == old(Entries(Elems(s)))[i := old(EntryOf(row))]
  {
    ghost var rows, es, x := Elems(s), Entries(Elems(s)), EntryOf(row);
    s.arr[i] := row;
    assert Elems(s) == rows[i := row] && Entries(rows) == es && EntryOf(row) == x;
    EntriesAt(rows, i, row);
  }

  method SaveRow(s: Slice<Row>, original: string, e: Row, storage: bool) returns (reason: Outcome<()>)
    requires Fits(s)
    requires e.hop != null ==> e.hop !in Own(Elems(s))
    modifies s.arr
    ensures reason == Reason(Save(old(Entries(Elems(s))), original, old(EntryOf(e)), Changed(storage, old(Kept(Elems(s), original, e)))))
    ensures reason.Done? ==> Entries(Elems(s)) == Save(old(Entries(Elems(s))), original, old(EntryOf(e)), Changed(storage, old(Kept(Elems(s), original, e)))).value
  {
    ghost var rows, es, x := Elems(s), Entries(Elems(s)), EntryOf(e);
    var i;
    i, reason := FindForSave(s, original, e.name);
    assert Elems(s) == rows && Entries(rows) == es && EntryOf(e) == x;
    assert RowNames(rows) == EntryNames(es);
    if reason.Done? {
      PutRow(s, i, e, storage);
    }
  }

  function StampedRow(prev: Row, e: Row, changed: bool): (r: Row)
    reads prev.probe, prev.hop, prev.preset, e.probe, e.hop, e.preset
    ensures EntryOf(r) == Stamped(EntryOf(prev), EntryOf(e), changed)
  {
    e.(probe := if changed then null else if e.probe == null then prev.probe else e.probe)
  }

  /** For a row that does not share its jump host with e, comparing rows by address
      is ReachabilityChanged, which takes whether they share their preset. */
  lemma RowsDifferAsEntries(s: Slice<Row>, i: nat, e: Row)
    requires Fits(s) && i < s.len && (e.hop != null ==> e.hop !in Own(Elems(s)))
    ensures RowsDiffer(s.arr[i], e) == ReachabilityChanged(s.arr[i].preset == e.preset)(EntryOf(s.arr[i]), EntryOf(e))
    ensures StorageRowsDiffer(s.arr[i], e) == StorageReachabilityChanged(EntryOf(s.arr[i]), EntryOf(e))
  {
    var prev := Elems(s)[i];
    if prev.hop != null {
      assert prev.hop in Own(Elems(s));
    }
  }

  /** What is to be duplicated, and under what name, if it may be. */
  method FindForDuplicate(s: Slice<Row>, name: string, newName: string) returns (i: int, chosen: string, reason: Outcome<()>)
    requires Fits(s)
    ensures var names := EntryNames(Entries(Elems(s)));
            i == IndexOf(names, name)
            && chosen == (if newName == "" && 0 <= i then FreeName(name, names) else newName)
            && reason == if i < 0 then NotFound else if chosen in names then Exists else Done(())
  {
    var names := EntryNames(Entries(Elems(s)));
    chosen := newName;
    i := FindRow(s, name);
    assert names == EntryNames(Entries(Elems(s)));
    if i < 0 {
      return i, chosen, NotFound;
    }
    if newName == "" {
      chosen := UniqueName(name, names);
    }
    var j := FindRow(s, chosen);
    assert names == EntryNames(Entries(Elems(s)));
    reason := if 0 <= j then Exists else Done(());
  }

  method DuplicateRow(s: Slice<Row>, name: string, newName: string) returns (r: Slice<Row>, reason: Outcome<()>)
    requires Fits(s)
    modifies s.arr
    ensures Fits(r) && (r.arr == s.arr || fresh(r.arr))
    ensures reason == Reason(Duplicate(old(Entries(Elems(s))), name, newName))
    ensures reason.Done? ==> Entries(Elems(r)) == Duplicate(old(Entries(Elems(s))), name, newName).value
  {
    ghost var rows, es := Elems(s), Entries(Elems(s));
    r := s;
    var i, chosen;
    i, chosen, reason := FindForDuplicate(s, name, newName);
    assert Elems(s) == rows && Entries(rows) == es;
    if reason.Done? {
      assert Duplicate(es, name, newName) == Done(es + [Duplicated(es[i], chosen)]);
      r := AppendDuplicate(s, i, chosen);
    }
  }

  method AppendDuplicate(s: Slice<Row>, i: nat, chosen: string) returns (r: Slice<Row>)
    requires Fits(s) && i < s.len
    modifies s.arr
    ensures Fits(r) && (r.arr == s.arr || fresh(r.arr))
    ensures Entries(Elems(r)) == old(Entries(Elems(s))) + [Duplicated(old(Entries(Elems(s)))[i], chosen)]
  {
    ghost var rows, es := Elems(s), Entries(Elems(s));
    var dup := DuplicateOf(s.arr[i], chosen);
    assert Elems(s) == rows && Entries(rows) == es;
    r := AppendRow(s, dup);
  }

  method AppendRow(s: Slice<Row>, e: Row) returns (r: Slice<Row>)
    requires Fits(s)
    modifies s.arr
    ensures Fits(r) && (r.arr == s.arr || fresh(r.arr))
    ensures Entries(Elems(r)) == old(Entries(Elems(s))) + [old(EntryOf(e))]
  {
    ghost var rows, es, x := Elems(s), Entries(Elems(s)), EntryOf(e);
    r := Append(s, e);
    assert Entries(rows) == es && EntryOf(e) == x;
    EntriesPlus(rows, e);
  }

  /** The handles of the copy are cleared in a jump host of its own. */
  method DuplicateOf(row: Row, newName: string) returns (dup: Row)
    ensures EntryOf(dup) == Duplicated(old(EntryOf(row)), newName)
    ensures dup.hop != null ==> fresh(dup.hop)
  {
    dup := row.(name := newName, credentialRef := "", adminCredentialRef := "", isDefault := false, probe := null);
    if dup.hop != null {
      var hop := new HopCell(dup.hop.hop);
      hop.hop := hop.hop.(credentialRef := "");
      dup := dup.(hop := hop);
    }
  }

  method RemoveRow(s: Slice<Row>, i: nat) returns (r: Slice<Row>)
    requires Fits(s) && i < s.len
    modifies s.arr
    ensures Fits(r) && r.arr == s.arr
    ensures Entries(Elems(r)) == Without(old(Entries(Elems(s))), i)
  {
    ghost var rows, es := Elems(s), Entries(Elems(s));
    r := RemoveAt(s, i);
    assert Elems(r) == Without(rows, i) && Entries(rows) == es;
    EntriesWithout(rows, i);
  }

  method DeleteRow(s: Slice<Row>, name: string) returns (r: Slice<Row>, reason: Outcome<()>)
    requires Fits(s)
    modifies s.arr
    ensures Fits(r) && r.arr == s.arr
    ensures reason == Reason(Deleted(old(Entries(Elems(s))), name))
    ensures reason.Done? ==> Entries(Elems(r)) == Deleted(old(Entries(Elems(s))), name).value
  {
    ghost var rows, es := Elems(s), Entries(Elems(s));
    r := s;
    var i := FindRow(s, name);
    assert Elems(s) == rows && Entries(rows) == es;
    if i < 0 {
      return r, NotFound;
    }
    assert Deleted(es, name) == Done(Without(es, i));
    r := RemoveRow(s, i);
    reason := Done(());
  }

  method RecordRow(s: Slice<Row>, name: string, stamp: Stamp) returns (reason: Outcome<()>)
    requires Fits(s)
    modifies s.arr
    ensures reason == Reason(Record(old(Entries(Elems(s))), name, stamp))
    ensures reason.Done? ==> Entries(Elems(s)) == Record(old(Entries(Elems(s))), name, stamp).value
  {
    ghost var rows, es := Elems(s), Entries(Elems(s));
    var i := FindRow(s, name);
    assert Elems(s) == rows && Entries(rows) == es;
    if i < 0 {
      return NotFound;
    }
    var cell := new StampCell(stamp);
    assert Elems(s) == rows && Entries(rows) == es;
    SetRow(s, i, s.arr[i].(probe := cell));
    reason := Done(());
  }
}
