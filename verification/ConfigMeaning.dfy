/** What each edit of the configuration does, told entry by entry: which entry goes, which
    is put where, what is refused and why, and that everything else stays as it was. */
module ConfigMeaning {
  import opened Prelude
  import opened Decimal
  import opened ConfigModel

  /** Only the environments, the storage, the keys have changed. */
  ghost predicate OnlyEnvironments(c: Config, d: Config) {
    d.preferences == c.preferences && d.storage == c.storage && d.keys == c.keys
  }

  ghost predicate OnlyStorage(c: Config, d: Config) {
    d.preferences == c.preferences && d.environments == c.environments && d.keys == c.keys
  }

  ghost predicate OnlyKeys(c: Config, d: Config) {
    d.preferences == c.preferences && d.environments == c.environments && d.storage == c.storage
  }

  ghost predicate Has(es: seq<Entry>, name: string) {
    exists i :: 0 <= i < |es| && es[i].name == name
  }

  ghost predicate HasKey(ks: seq<Key>, name: string) {
    exists i :: 0 <= i < |ks| && ks[i].name == name
  }

  lemma NamesTold(es: seq<Entry>, name: string)
    ensures name in EntryNames(es) <==> Has(es, name)
    ensures IndexOf(EntryNames(es), name) >= 0 <==> Has(es, name)
  {
    if Has(es, name) {
      var i :| 0 <= i < |es| && es[i].name == name;
      assert EntryNames(es)[i] == name;
    }
  }

  lemma KeyNamesTold(ks: seq<Key>, name: string)
    ensures name in KeyNames(ks) <==> HasKey(ks, name)
    ensures IndexOf(KeyNames(ks), name) >= 0 <==> HasKey(ks, name)
  {
    if HasKey(ks, name) {
      var i :| 0 <= i < |ks| && ks[i].name == name;
      assert KeyNames(ks)[i] == name;
    }
  }

  // ------------------------------------------------------------------- deletions

  /** One list is another without the first entry of a name: a, then it, then b. */
  ghost predicate Removed(es: seq<Entry>, name: string, a: seq<Entry>, x: Entry, b: seq<Entry>, rest: seq<Entry>) {
    es == a + [x] + b && x.name == name && !Has(a, name) && rest == a + b
  }

  ghost predicate KeyRemoved(ks: seq<Key>, name: string, a: seq<Key>, x: Key, b: seq<Key>, rest: seq<Key>) {
    ks == a + [x] + b && x.name == name && !HasKey(a, name) && rest == a + b
  }

  lemma FirstGoes(es: seq<Entry>, name: string) returns (a: seq<Entry>, x: Entry, b: seq<Entry>)
    requires Deleted(es, name).Done?
    ensures Removed(es, name, a, x, b, Deleted(es, name).value)
    ensures IndexOf(EntryNames(es), name) == |a| < |es| && es[|a|] == x && es[..|a|] == a
  {
    var i := IndexOf(EntryNames(es), name);
    a, x, b := es[..i], es[i], es[i + 1..];
    assert EntryNames(es)[i] == name;
    forall k | 0 <= k < |a| ensures a[k].name != name {
      assert EntryNames(es)[..i][k] == a[k].name;
    }
    assert es == a + [x] + b;
  }

  lemma FirstKeyGoes(ks: seq<Key>, name: string) returns (a: seq<Key>, x: Key, b: seq<Key>)
    requires DeletedKey(ks, name).Done?
    ensures KeyRemoved(ks, name, a, x, b, DeletedKey(ks, name).value)
  {
    var i := IndexOf(KeyNames(ks), name);
    a, x, b := ks[..i], ks[i], ks[i + 1..];
    assert KeyNames(ks)[i] == name;
    forall k | 0 <= k < |a| ensures a[k].name != name {
      assert KeyNames(ks)[..i][k] == a[k].name;
    }
    assert ks == a + [x] + b;
  }

  /** Deleting an environment takes the first of that name and no other; it is refused
      while the environment is in use, and when there is none of the name. */
  lemma DeletingAnEnvironment(c: Config, name: string, running: bool) returns (a: seq<Entry>, x: Entry, b: seq<Entry>)
    ensures var r := Edited(c, DeleteEnvironment(name, running));
            if running then r == InUse
            else if !Has(c.environments, name) then r == NotFound
            else r.Done? && OnlyEnvironments(c, r.value) && Removed(c.environments, name, a, x, b, r.value.environments)
  {
    NamesTold(c.environments, name);
    a, b, x := [], [], Entry("", "", "", false, None, None, None, 0);
    if Deleted(c.environments, name).Done? {
      a, x, b := FirstGoes(c.environments, name);
    }
  }

  /** The first storage of a name is the default one. */
  ghost predicate FirstIsDefault(es: seq<Entry>, name: string) {
    exists i :: 0 <= i < |es| && es[i].name == name && !Has(es[..i], name) && es[i].isDefault
  }

  /** The same for storage, where the default is not deleted while others are there. */
  lemma DeletingAStorage(c: Config, name: string, running: bool) returns (a: seq<Entry>, x: Entry, b: seq<Entry>)
    ensures var r := Edited(c, DeleteStorage(name, running));
            if running then r == InUse
            else if !Has(c.storage, name) then r == NotFound
            else if FirstIsDefault(c.storage, name) && |c.storage| > 1 then r == InUse
            else r.Done? && OnlyStorage(c, r.value) && Removed(c.storage, name, a, x, b, r.value.storage)
  {
    var es := c.storage;
    NamesTold(es, name);
    a, b := [], [];
    x := Entry("", "", "", false, None, None, None, 0);
    if Has(es, name) {
      a, x, b := FirstGoes(es, name);
      FirstOnce(es, name, |a|);
    }
  }

  lemma FirstOnce(es: seq<Entry>, name: string, i: nat)
    requires i < |es| && es[i].name == name && !Has(es[..i], name)
    ensures FirstIsDefault(es, name) <==> es[i].isDefault
  {
    if FirstIsDefault(es, name) {
      var k :| 0 <= k < |es| && es[k].name == name && !Has(es[..k], name) && es[k].isDefault;
      FirstIsLeast(es, name, i, k);
      FirstIsLeast(es, name, k, i);
    }
  }

  lemma FirstIsLeast(es: seq<Entry>, name: string, i: nat, k: nat)
    requires i <= |es| && k < |es| && es[k].name == name && !Has(es[..i], name)
    ensures i <= k
  {
    if k < i { StandsIn(es, name, i, k); }
  }

  lemma StandsIn(es: seq<Entry>, name: string, i: nat, k: nat)
    requires k < i <= |es| && es[k].name == name
    ensures Has(es[..i], name)
  {
    assert es[..i][k].name == name;
  }

  lemma DeletingAKey(c: Config, name: string) returns (a: seq<Key>, x: Key, b: seq<Key>)
    ensures var r := Edited(c, DeleteKey(name));
            if !HasKey(c.keys, name) then r == NotFound
            else r.Done? && OnlyKeys(c, r.value) && KeyRemoved(c.keys, name, a, x, b, r.value.keys)
  {
    KeyNamesTold(c.keys, name);
    a, b, x := [], [], Key("", "", 0);
    if DeletedKey(c.keys, name).Done? {
      a, x, b := FirstKeyGoes(c.keys, name);
    }
  }

  /** The entries of any other name, in their order. */
  function Others(es: seq<Entry>, name: string): (r: seq<Entry>) {
    Filter(es, (e: Entry) => e.name != name)
  }

  function OtherKeys(ks: seq<Key>, name: string): (r: seq<Key>) {
    Filter(ks, (k: Key) => k.name != name)
  }

  lemma RemovedIsTheOthers(es: seq<Entry>, name: string, a: seq<Entry>, x: Entry, b: seq<Entry>, rest: seq<Entry>)
    requires Distinct(EntryNames(es)) && Removed(es, name, a, x, b, rest)
    ensures !Has(rest, name) && rest == Others(es, name)
  {
    forall k | 0 <= k < |b| ensures b[k].name != name {
      assert EntryNames(es)[|a|] == name && EntryNames(es)[|a| + 1 + k] == b[k].name;
    }
    OthersOf(a, x, b, (e: Entry) => e.name != name);
  }

  lemma KeyRemovedIsTheOthers(ks: seq<Key>, name: string, a: seq<Key>, x: Key, b: seq<Key>, rest: seq<Key>)
    requires Distinct(KeyNames(ks)) && KeyRemoved(ks, name, a, x, b, rest)
    ensures !HasKey(rest, name) && rest == OtherKeys(ks, name)
  {
    forall k | 0 <= k < |b| ensures b[k].name != name {
      assert KeyNames(ks)[|a|] == name && KeyNames(ks)[|a| + 1 + k] == b[k].name;
    }
    OthersOf(a, x, b, (k: Key) => k.name != name);
  }

  /** With distinct names a deletion that is done leaves every other entry, in its place
      among the others, and none of the name. */
  lemma DeletionLeavesTheOthers(c: Config, name: string, running: bool)
    requires NamesAreUnique(c)
    ensures var r := Edited(c, DeleteEnvironment(name, running));
            r.Done? ==> r.value.environments == Others(c.environments, name) && !Has(r.value.environments, name)
    ensures var r := Edited(c, DeleteStorage(name, running));
            r.Done? ==> r.value.storage == Others(c.storage, name) && !Has(r.value.storage, name)
    ensures var r := Edited(c, DeleteKey(name));
            r.Done? ==> r.value.keys == OtherKeys(c.keys, name) && !HasKey(r.value.keys, name)
  {
    EnvironmentLeavesTheOthers(c, name, running);
    StorageLeavesTheOthers(c, name, running);
    KeyLeavesTheOthers(c, name);
  }

  lemma EnvironmentLeavesTheOthers(c: Config, name: string, running: bool)
    requires NamesAreUnique(c)
    ensures var r := Edited(c, DeleteEnvironment(name, running));
            r.Done? ==> r.value.environments == Others(c.environments, name) && !Has(r.value.environments, name)
  {
    var r := Edited(c, DeleteEnvironment(name, running));
    var a, x, b := DeletingAnEnvironment(c, name, running);
    if r.Done? {
      RemovedIsTheOthers(c.environments, name, a, x, b, r.value.environments);
    }
  }

  lemma StorageLeavesTheOthers(c: Config, name: string, running: bool)
    requires NamesAreUnique(c)
    ensures var r := Edited(c, DeleteStorage(name, running));
            r.Done? ==> r.value.storage == Others(c.storage, name) && !Has(r.value.storage, name)
  {
    var r := Edited(c, DeleteStorage(name, running));
    var a, x, b := DeletingAStorage(c, name, running);
    if r.Done? {
      RemovedIsTheOthers(c.storage, name, a, x, b, r.value.storage);
    }
  }

  lemma KeyLeavesTheOthers(c: Config, name: string)
    requires NamesAreUnique(c)
    ensures var r := Edited(c, DeleteKey(name));
            r.Done? ==> r.value.keys == OtherKeys(c.keys, name) && !HasKey(r.value.keys, name)
  {
    var r := Edited(c, DeleteKey(name));
    var a, x, b := DeletingAKey(c, name);
    if r.Done? {
      KeyRemovedIsTheOthers(c.keys, name, a, x, b, r.value.keys);
    }
  }

  lemma OthersOf<T>(a: seq<T>, x: T, b: seq<T>, other: T -> bool)
    requires !other(x) && (forall k :: 0 <= k < |a| ==> other(a[k])) && (forall k :: 0 <= k < |b| ==> other(b[k]))
    ensures Filter(a + [x] + b, other) == a + b
  {
    FilterJoins(a + [x], b, other);
    AllKept(a, other);
    AllKept(b, other);
    LastIsLeftOut(a, x, other);
  }

  lemma {:induction false} FilterJoins<T>(s: seq<T>, t: seq<T>, keep: T -> bool)
    ensures Filter(s + t, keep) == Filter(s, keep) + Filter(t, keep)
  {
    if t == [] {
      assert s + t == s;
    } else {
      FilterJoins(s, t[..|t| - 1], keep);
      assert (s + t)[..|s + t| - 1] == s + t[..|t| - 1];
    }
  }

  lemma LastIsLeftOut<T>(s: seq<T>, x: T, keep: T -> bool)
    requires !keep(x)
    ensures Filter(s + [x], keep) == Filter(s, keep)
  {
    assert (s + [x])[..|s|] == s;
  }

  lemma {:induction false} AllKept<T>(s: seq<T>, keep: T -> bool)
    requires forall i :: 0 <= i < |s| ==> keep(s[i])
    ensures Filter(s, keep) == s
  {
    if s != [] {
      AllKept(s[..|s| - 1], keep);
    }
  }

  // -------------------------------------------------------------------- additions

  lemma AddingAnEnvironment(c: Config, g: Given)
    ensures var r := Edited(c, AddEnvironment(g));
            if Has(c.environments, g.entry.name) then r == Exists
            else r.Done? && OnlyEnvironments(c, r.value) && r.value.environments == c.environments + [g.entry]
  {
    NamesTold(c.environments, g.entry.name);
  }

  /** An added storage comes last. Marked default it is the only one; the first of all
      becomes the default; and otherwise every flag stays. */
  lemma AddingAStorage(c: Config, g: Given)
    ensures var r := Edited(c, AddStorage(g));
            if Has(c.storage, g.entry.name) then r == Exists
            else r.Done? && OnlyStorage(c, r.value)
                 && var n, es := |c.storage|, r.value.storage;
                    |es| == n + 1 && es[n].(isDefault := false) == g.entry.(isDefault := false)
                    && (es[n].isDefault <==> g.entry.isDefault || n == 0)
                    && (forall i :: 0 <= i < n ==> es[i] == c.storage[i].(isDefault := c.storage[i].isDefault && !g.entry.isDefault))
  {
    NamesTold(c.storage, g.entry.name);
    assert !Has(c.storage, g.entry.name) ==> forall i :: 0 <= i < |c.storage| ==> c.storage[i].name != g.entry.name;
  }

  lemma AddingAKey(c: Config, k: Key)
    ensures var r := Edited(c, AddKey(k));
            if HasKey(c.keys, k.name) then r == Exists
            else r.Done? && OnlyKeys(c, r.value) && r.value.keys == c.keys + [k]
  {
    KeyNamesTold(c.keys, k.name);
  }

  // ------------------------------------------------------------------------ saves

  /** Saving e over the first entry of a name: it stands there now, and the others stay.
      The name it takes is its old one or a free one. */
  ghost predicate Replaced(es: seq<Entry>, original: string, i: nat, y: Entry, after: seq<Entry>) {
    i < |es| && es[i].name == original && !Has(es[..i], original) && after == es[..i] + [y] + es[i + 1..]
  }

  /** What of an environment its Test result depends on is the same: all of it but the
      result, no jump host, and no preset unless the stored object is given again. */
  ghost predicate SameReach(a: Entry, b: Entry, kept: bool) {
    && a.name == b.name && a.credentialRef == b.credentialRef && a.adminCredentialRef == b.adminCredentialRef
    && a.isDefault == b.isDefault && a.rest == b.rest && a.preset == b.preset && a.jumpHost.None? && b.jumpHost.None?
    && (a.preset.None? || kept)
  }

  /** For a storage the default flag does not count. */
  ghost predicate SameStorageReach(a: Entry, b: Entry) {
    && a.name == b.name && a.credentialRef == b.credentialRef && a.adminCredentialRef == b.adminCredentialRef
    && a.rest == b.rest && a.jumpHost.None? && b.jumpHost.None?
  }

  /** The Test result it has then: none if what it depends on changed, else the one given
      if there is one, else the one it had. */
  ghost predicate KeepsResult(a: Entry, e: Entry, same: bool, y: Entry) {
    && y.(lastProbe := None) == e.(lastProbe := None)
    && y.lastProbe == (if !same then None else if e.lastProbe.Some? then e.lastProbe else a.lastProbe)
  }

  lemma FirstPlace(es: seq<Entry>, name: string) returns (i: nat)
    requires Has(es, name)
    ensures i < |es| && es[i].name == name && !Has(es[..i], name) && IndexOf(EntryNames(es), name) == i
  {
    NamesTold(es, name);
    i := IndexOf(EntryNames(es), name);
    assert EntryNames(es)[i] == name;
    forall k | 0 <= k < i ensures es[..i][k].name != name {
      assert EntryNames(es)[..i][k] == es[k].name;
    }
  }

  lemma SavingAnEnvironment(c: Config, original: string, g: Given) returns (i: nat, y: Entry)
    ensures var r := Edited(c, SaveEnvironment(original, g));
            if !Has(c.environments, original) then r == NotFound
            else if g.entry.name != original && Has(c.environments, g.entry.name) then r == Exists
            else r.Done? && OnlyEnvironments(c, r.value) && Replaced(c.environments, original, i, y, r.value.environments)
                 && KeepsResult(c.environments[i], g.entry, SameReach(c.environments[i], g.entry, g.kept), y)
  {
    var es := c.environments;
    NamesTold(es, original);
    NamesTold(es, g.entry.name);
    i, y := 0, g.entry;
    if Has(es, original) {
      i := FirstPlace(es, original);
      y := Stamped(es[i], g.entry, ReachabilityChanged(g.kept)(es[i], g.entry));
      assert es[i := y] == es[..i] + [y] + es[i + 1..];
    }
  }

  /** The flags after a storage of this name was saved: as the default it is the only one. */
  ghost predicate Flagged(after: seq<Entry>, e: Entry, out: seq<Entry>) {
    |out| == |after|
    && forall k :: 0 <= k < |after| ==> out[k] == if e.isDefault then after[k].(isDefault := after[k].name == e.name) else after[k]
  }

  lemma SavingInStorage(es: seq<Entry>, original: string, e: Entry) returns (i: nat, y: Entry, after: seq<Entry>)
    requires Has(es, original) && (e.name == original || !Has(es, e.name))
    ensures SavedStorage(es, original, e).Done? && Replaced(es, original, i, y, after)
    ensures KeepsResult(es[i], e, SameStorageReach(es[i], e), y) && Flagged(after, e, SavedStorage(es, original, e).value)
  {
    NamesTold(es, e.name);
    i := FirstPlace(es, original);
    y := Stamped(es[i], e, StorageReachabilityChanged(es[i], e));
    after := es[i := y];
    assert after == es[..i] + [y] + es[i + 1..];
  }

  /** Storage: the same, and when it is saved as the default it is the only one. */
  lemma SavingAStorage(c: Config, original: string, g: Given) returns (i: nat, y: Entry, after: seq<Entry>)
    ensures var r := Edited(c, SaveStorage(original, g));
            if !Has(c.storage, original) then r == NotFound
            else if g.entry.name != original && Has(c.storage, g.entry.name) then r == Exists
            else r.Done? && OnlyStorage(c, r.value) && Replaced(c.storage, original, i, y, after)
                 && KeepsResult(c.storage[i], g.entry, SameStorageReach(c.storage[i], g.entry), y)
                 && Flagged(after, g.entry, r.value.storage)
  {
    NamesTold(c.storage, original);
    NamesTold(c.storage, g.entry.name);
    i, y, after := 0, g.entry, [];
    if SavedStorage(c.storage, original, g.entry).Done? {
      i, y, after := SavingInStorage(c.storage, original, g.entry);
    }
  }

  lemma SavingAKey(c: Config, original: string, k: Key) returns (i: nat)
    ensures var r := Edited(c, SaveKey(original, k));
            if !HasKey(c.keys, original) then r == NotFound
            else if k.name != original && HasKey(c.keys, k.name) then r == Exists
            else r.Done? && OnlyKeys(c, r.value) && i < |c.keys| && c.keys[i].name == original && !HasKey(c.keys[..i], original)
                 && r.value.keys == c.keys[..i] + [k] + c.keys[i + 1..]
  {
    var ks := c.keys;
    KeyNamesTold(ks, original);
    KeyNamesTold(ks, k.name);
    i := 0;
    if HasKey(ks, original) {
      i := IndexOf(KeyNames(ks), original);
      assert KeyNames(ks)[i] == original;
      forall j | 0 <= j < i ensures ks[..i][j].name != original {
        assert KeyNames(ks)[..i][j] == ks[j].name;
      }
      assert ks[i := k] == ks[..i] + [k] + ks[i + 1..];
    }
  }

  // ------------------------------------------- duplicates, Test results, the default

  /** A duplicate comes last, under the name asked for, or with none asked for under one
      that is free; it is the first of its source's name in all else, its handles, its
      Test result and its default flag apart. */
  ghost predicate Copied(es: seq<Entry>, name: string, newName: string, i: nat, y: Entry, after: seq<Entry>) {
    && i < |es| && es[i].name == name && !Has(es[..i], name) && after == es + [y]
    && !Has(es, y.name) && y.name == (if newName == "" then FreeName(name, EntryNames(es)) else newName)
    && y.rest == es[i].rest && y.preset == es[i].preset && y.credentialRef == "" && y.adminCredentialRef == ""
    && !y.isDefault && y.lastProbe.None?
    && y.jumpHost == (if es[i].jumpHost.Some? then Some(Hop(es[i].jumpHost.value.host, "")) else None)
  }

  /** The name chosen when none is asked for: "base copy", or "base copy k" for the first
      k from 2 on that is free after it. */
  lemma FreeNameTold(base: string, names: seq<string>) returns (k: nat)
    ensures 1 <= k && FreeName(base, names) == (if k == 1 then base + " copy" else base + " copy " + Print(k))
    ensures k > 1 ==> base + " copy" in names && forall j :: 2 <= j < k ==> base + " copy " + Print(j) in names
  {
    k := FirstFree(base, NameSet(names), 0) + 1;
    if k > 1 {
      assert Candidate(base, 0) in names;
      forall j | 2 <= j < k ensures base + " copy " + Print(j) in names {
        assert Candidate(base, j - 1) in names;
      }
    }
  }

  lemma Duplicating(es: seq<Entry>, name: string, newName: string) returns (i: nat, y: Entry)
    ensures var r := Duplicate(es, name, newName);
            if !Has(es, name) then r == NotFound
            else if newName != "" && Has(es, newName) then r == Exists
            else r.Done? && Copied(es, name, newName, i, y, r.value)
  {
    NamesTold(es, name);
    var chosen := if newName == "" then FreeName(name, EntryNames(es)) else newName;
    NamesTold(es, chosen);
    i, y := 0, Entry("", "", "", false, None, None, None, 0);
    if Has(es, name) {
      i := FirstPlace(es, name);
      y := Duplicated(es[i], chosen);
    }
  }

  lemma DuplicatingAnEnvironment(c: Config, name: string, newName: string) returns (i: nat, y: Entry)
    ensures var r := Edited(c, DuplicateEnvironment(name, newName));
            if !Has(c.environments, name) then r == NotFound
            else if newName != "" && Has(c.environments, newName) then r == Exists
            else r.Done? && OnlyEnvironments(c, r.value) && Copied(c.environments, name, newName, i, y, r.value.environments)
  {
    i, y := Duplicating(c.environments, name, newName);
  }

  lemma DuplicatingAStorage(c: Config, name: string, newName: string) returns (i: nat, y: Entry)
    ensures var r := Edited(c, DuplicateStorage(name, newName));
            if !Has(c.storage, name) then r == NotFound
            else if newName != "" && Has(c.storage, newName) then r == Exists
            else r.Done? && OnlyStorage(c, r.value) && Copied(c.storage, name, newName, i, y, r.value.storage)
  {
    i, y := Duplicating(c.storage, name, newName);
  }

  /** A Test result is recorded with the first entry of the name, and nothing else changes. */
  lemma Recording(es: seq<Entry>, name: string, stamp: Stamp) returns (i: nat)
    ensures if !Has(es, name) then Record(es, name, stamp) == NotFound
            else Record(es, name, stamp).Done? && i < |es|
                 && Replaced(es, name, i, es[i].(lastProbe := Some(stamp)), Record(es, name, stamp).value)
  {
    NamesTold(es, name);
    i := 0;
    if Has(es, name) {
      i := FirstPlace(es, name);
      var y := es[i].(lastProbe := Some(stamp));
      assert es[i := y] == es[..i] + [y] + es[i + 1..];
    }
  }

  lemma RecordingAnEnvironment(c: Config, name: string, stamp: Stamp) returns (i: nat)
    ensures var r := Edited(c, RecordEnvironmentProbe(name, stamp));
            if !Has(c.environments, name) then r == NotFound
            else r.Done? && OnlyEnvironments(c, r.value) && i < |c.environments|
                 && Replaced(c.environments, name, i, c.environments[i].(lastProbe := Some(stamp)), r.value.environments)
  {
    i := Recording(c.environments, name, stamp);
  }

  lemma RecordingAStorage(c: Config, name: string, stamp: Stamp) returns (i: nat)
    ensures var r := Edited(c, RecordStorageProbe(name, stamp));
            if !Has(c.storage, name) then r == NotFound
            else r.Done? && OnlyStorage(c, r.value) && i < |c.storage|
                 && Replaced(c.storage, name, i, c.storage[i].(lastProbe := Some(stamp)), r.value.storage)
  {
    i := Recording(c.storage, name, stamp);
  }

  lemma SettingTheDefault(c: Config, name: string)
    ensures var r := Edited(c, SetDefaultStorage(name));
            if !Has(c.storage, name) then r == NotFound
            else r.Done? && OnlyStorage(c, r.value) && |r.value.storage| == |c.storage|
                 && forall i :: 0 <= i < |c.storage| ==> r.value.storage[i] == c.storage[i].(isDefault := c.storage[i].name == name)
  {
    NamesTold(c.storage, name);
  }

  lemma SettingPreferences(c: Config, preferences: nat)
    ensures var r := Edited(c, SetPreferences(preferences));
            r.Done? && r.value.preferences == preferences
            && r.value.environments == c.environments && r.value.storage == c.storage && r.value.keys == c.keys
  {
  }
}
