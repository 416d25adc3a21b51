/** config.yaml as a value, the edits the engine makes to it, and what Validate
    asks of the whole: unique names in each list and at most one default storage. */
module ConfigModel {
  import opened Prelude
  import opened Decimal

  /** The result of a Test. */
  datatype Stamp = Stamp(at: nat, ok: bool)

  datatype Hop = Hop(host: string, credentialRef: string)

  /** What a clone of an environment's server may use. */
  datatype Preset = Preset(cpu: string, memory: string)

  /** An environment or a storage definition; `rest` stands for the fields no edit
      looks at one by one, those the schema does not know included. Only a storage
      uses `isDefault`, only an environment `adminCredentialRef` and `preset`. */
  datatype Entry = Entry(
    name: string,
    credentialRef: string,
    adminCredentialRef: string,
    isDefault: bool,
    lastProbe: Option<Stamp>,
    jumpHost: Option<Hop>,
    preset: Option<Preset>,
    rest: nat)

  datatype Key = Key(name: string, credentialRef: string, rest: nat)

  datatype Config = Config(preferences: nat, environments: seq<Entry>, storage: seq<Entry>, keys: seq<Key>)

  datatype Outcome<+T> = Done(value: T) | NotFound | Exists | InUse

  /** An edit of the configuration, with the entry it brings, if any, as an E. */
  datatype Change<E> =
    | AddEnvironment(e: E)
    | SaveEnvironment(original: string, e: E)
    | DuplicateEnvironment(name: string, newName: string)
    | DeleteEnvironment(name: string, running: bool)
    | RecordEnvironmentProbe(name: string, stamp: Stamp)
    | AddStorage(e: E)
    | SaveStorage(original: string, e: E)
    | DuplicateStorage(name: string, newName: string)
    | DeleteStorage(name: string, running: bool)
    | SetDefaultStorage(name: string)
    | RecordStorageProbe(name: string, stamp: Stamp)
    | AddKey(k: Key)
    | SaveKey(original: string, k: Key)
    | DeleteKey(name: string)
    | SetPreferences(preferences: nat)

  /** An entry given to an edit, and whether the preset object it points at is the
      very one that is stored: that is how the code compares them. */
  datatype Given = Given(entry: Entry, kept: bool)

  type Edit = Change<Given>

  predicate OnEnvironments<E>(c: Change<E>) {
    c.AddEnvironment? || c.SaveEnvironment? || c.DuplicateEnvironment? || c.DeleteEnvironment? || c.RecordEnvironmentProbe?
  }

  predicate OnStorage<E>(c: Change<E>) {
    c.AddStorage? || c.SaveStorage? || c.DuplicateStorage? || c.DeleteStorage? || c.SetDefaultStorage? || c.RecordStorageProbe?
  }

  predicate OnKeys<E>(c: Change<E>) {
    c.AddKey? || c.SaveKey? || c.DeleteKey?
  }

  // ------------------------------------------------------------ names in a list

  function EntryNames(es: seq<Entry>): (r: seq<string>)
    ensures |r| == |es| && forall i :: 0 <= i < |es| ==> r[i] == es[i].name
  {
    Map((e: Entry) => e.name, es)
  }

  function KeyNames(ks: seq<Key>): (r: seq<string>)
    ensures |r| == |ks| && forall i :: 0 <= i < |ks| ==> r[i] == ks[i].name
  {
    Map((k: Key) => k.name, ks)
  }

  /** The first place a name stands at, or -1. */
  function IndexOf(names: seq<string>, name: string): (i: int)
    ensures -1 <= i < |names| && (i == -1 <==> name !in names)
    ensures 0 <= i ==> names[i] == name && name !in names[..i]
  {
    if names == [] then -1
    else
      var i := IndexOf(names[..|names| - 1], name);
      if 0 <= i then i else if names[|names| - 1] == name then |names| - 1 else -1
  }

  function Without<T>(s: seq<T>, i: nat): (r: seq<T>)
    requires i < |s|
    ensures |r| == |s| - 1
  {
    s[..i] + s[i + 1..]
  }

  // --------------------------------------------------------- a name not yet used

  /** "base copy", "base copy 2", "base copy 3", and so on. */
  function Candidate(base: string, k: nat): string {
    if k == 0 then base + " copy" else base + " copy " + Print(k + 1)
  }

  lemma CandidatesDiffer(base: string, j: nat, k: nat)
    requires j != k
    ensures Candidate(base, j) != Candidate(base, k)
  {
    if j != 0 && k != 0 {
      var stem := base + " copy ";
      assert Candidate(base, j)[|stem|..] == Print(j + 1);
      assert Candidate(base, k)[|stem|..] == Print(k + 1);
      if Print(j + 1) == Print(k + 1) { PrintInjective(j + 1, k + 1); }
    } else {
      assert |Candidate(base, j)| != |Candidate(base, k)|;
    }
  }

  /** As many candidates as have been found taken, so many names there are. */
  lemma {:induction false} TakenAreBounded(base: string, names: set<string>, k: nat)
    requires forall j :: 0 <= j < k ==> Candidate(base, j) in names
    ensures k <= |names|
  {
    if k > 0 {
      var last := Candidate(base, k - 1);
      forall j | 0 <= j < k - 1 ensures Candidate(base, j) in names - {last} {
        CandidatesDiffer(base, j, k - 1);
      }
      TakenAreBounded(base, names - {last}, k - 1);
    }
  }

  /** The first candidate from the k-th on that is not taken. */
  function FirstFree(base: string, names: set<string>, k: nat): (n: nat)
    requires forall j :: 0 <= j < k ==> Candidate(base, j) in names
    ensures k <= n <= |names| && Candidate(base, n) !in names
    ensures forall j :: 0 <= j < n ==> Candidate(base, j) in names
    decreases |names| - k
  {
    TakenAreBounded(base, names, k);
    if Candidate(base, k) !in names then k
    else
      TakenAreBounded(base, names, k + 1);
      FirstFree(base, names, k + 1)
  }

  function NameSet(names: seq<string>): set<string> {
    set n | n in names
  }

  function FreeName(base: string, names: seq<string>): (r: string)
    ensures r !in names
  {
    Candidate(base, FirstFree(base, NameSet(names), 0))
  }

  /** Tries the candidates in turn, and comes to an end: the name it returns is
      unused, and every candidate before it is taken. */
  method UniqueName(base: string, names: seq<string>) returns (candidate: string)
    ensures candidate == FreeName(base, names) && candidate !in names
  {
    candidate := base + " copy";
    if candidate !in names {
      return;
    }
    var n := 2;
    while true
      invariant 2 <= n
      invariant forall j :: 0 <= j < n - 1 ==> Candidate(base, j) in names
      decreases |NameSet(names)| - n
    {
      candidate := base + " copy " + Print(n);
      assert candidate == Candidate(base, n - 1);
      if candidate !in names {
        return;
      }
      TakenAreBounded(base, NameSet(names), n);
      n := n + 1;
    }
  }

  // ------------------------------------------------------------------ the edits

  /** Whether saving b over a loses the last Test result: some field other than it
      changed, or a has a jump host, which is compared by its address. */
  function ChangedSame(a: Entry, b: Entry): bool {
    a.(lastProbe := None) != b.(lastProbe := None) || a.jumpHost.Some?
  }

  /** The same, when b does not bring the preset object that is stored: two presets
      are compared by address too. */
  function ChangedOther(a: Entry, b: Entry): bool {
    ChangedSame(a, b) || a.preset.Some?
  }

  function ReachabilityChanged(kept: bool): (Entry, Entry) -> bool {
    if kept then ChangedSame else ChangedOther
  }

  /** For a storage, which has no preset, the default flag is left out. */
  function StorageReachabilityChanged(a: Entry, b: Entry): bool {
    ChangedSame(a.(isDefault := false, preset := None), b.(isDefault := false, preset := None))
  }

  /** What is put in the place of prev when e is saved over it. */
  function Stamped(prev: Entry, e: Entry, changed: bool): Entry {
    e.(lastProbe := if changed then None else if e.lastProbe.None? then prev.lastProbe else e.lastProbe)
  }

  /** A copy without the credential handles. */
  function Duplicated(e: Entry, newName: string): Entry {
    e.(name := newName, credentialRef := "", adminCredentialRef := "", isDefault := false, lastProbe := None,
       jumpHost := if e.jumpHost.Some? then Some(e.jumpHost.value.(credentialRef := "")) else None)
  }

  function Add(es: seq<Entry>, e: Entry): Outcome<seq<Entry>> {
    if e.name in EntryNames(es) then Exists else Done(es + [e])
  }

  function Save(es: seq<Entry>, original: string, e: Entry, changed: (Entry, Entry) -> bool): Outcome<seq<Entry>> {
    var i := IndexOf(EntryNames(es), original);
    if i < 0 then NotFound
    else if e.name != original && e.name in EntryNames(es) then Exists
    else Done(es[i := Stamped(es[i], e, changed(es[i], e))])
  }

  function Duplicate(es: seq<Entry>, name: string, newName: string): Outcome<seq<Entry>> {
    var i := IndexOf(EntryNames(es), name);
    var chosen := if newName == "" then FreeName(name, EntryNames(es)) else newName;
    if i < 0 then NotFound
    else if chosen in EntryNames(es) then Exists
    else Done(es + [Duplicated(es[i], chosen)])
  }

  function Record(es: seq<Entry>, name: string, stamp: Stamp): Outcome<seq<Entry>> {
    var i := IndexOf(EntryNames(es), name);
    if i < 0 then NotFound else Done(es[i := es[i].(lastProbe := Some(stamp))])
  }

  /** One default: the storage of this name, if it is there. */
  function OnlyDefault(es: seq<Entry>, name: string): (r: seq<Entry>)
    ensures |r| == |es| && forall i :: 0 <= i < |es| ==> r[i] == es[i].(isDefault := es[i].name == name)
  {
    Map((e: Entry) => e.(isDefault := e.name == name), es)
  }

  function AddedStorage(es: seq<Entry>, e: Entry): Outcome<seq<Entry>> {
    match Add(es, e)
    case Done(all) =>
      Done(if e.isDefault then OnlyDefault(all, e.name)
           else if |all| == 1 then [all[0].(isDefault := true)]
           else all)
    case other => other
  }

  function SavedStorage(es: seq<Entry>, original: string, e: Entry): Outcome<seq<Entry>> {
    match Save(es, original, e, StorageReachabilityChanged)
    case Done(all) => Done(if e.isDefault then OnlyDefault(all, e.name) else all)
    case other => other
  }

  function Deleted(es: seq<Entry>, name: string): Outcome<seq<Entry>> {
    var i := IndexOf(EntryNames(es), name);
    if i < 0 then NotFound else Done(Without(es, i))
  }

  function DeletedStorage(es: seq<Entry>, name: string): Outcome<seq<Entry>> {
    var i := IndexOf(EntryNames(es), name);
    if i < 0 then NotFound
    else if es[i].isDefault && |es| > 1 then InUse
    else Done(Without(es, i))
  }

  function AddedKey(ks: seq<Key>, k: Key): Outcome<seq<Key>> {
    if k.name in KeyNames(ks) then Exists else Done(ks + [k])
  }

  function SavedKey(ks: seq<Key>, original: string, k: Key): Outcome<seq<Key>> {
    var i := IndexOf(KeyNames(ks), original);
    if i < 0 then NotFound
    else if k.name != original && k.name in KeyNames(ks) then Exists
    else Done(ks[i := k])
  }

  function DeletedKey(ks: seq<Key>, name: string): Outcome<seq<Key>> {
    var i := IndexOf(KeyNames(ks), name);
    if i < 0 then NotFound else Done(Without(ks, i))
  }

  function EnvironmentsEdited(es: seq<Entry>, e: Edit): Outcome<seq<Entry>>
    requires OnEnvironments(e)
  {
    match e
    case AddEnvironment(g) => Add(es, g.entry)
    case SaveEnvironment(original, g) => Save(es, original, g.entry, ReachabilityChanged(g.kept))
    case DuplicateEnvironment(name, newName) => Duplicate(es, name, newName)
    case DeleteEnvironment(name, running) => if running then InUse else Deleted(es, name)
    case RecordEnvironmentProbe(name, stamp) => Record(es, name, stamp)
  }

  function StorageEdited(es: seq<Entry>, e: Edit): Outcome<seq<Entry>>
    requires OnStorage(e)
  {
    match e
    case AddStorage(g) => AddedStorage(es, g.entry)
    case SaveStorage(original, g) => SavedStorage(es, original, g.entry)
    case DuplicateStorage(name, newName) => Duplicate(es, name, newName)
    case DeleteStorage(name, running) => if running then InUse else DeletedStorage(es, name)
    case SetDefaultStorage(name) => if name in EntryNames(es) then Done(OnlyDefault(es, name)) else NotFound
    case RecordStorageProbe(name, stamp) => Record(es, name, stamp)
  }

  function KeysEdited(ks: seq<Key>, e: Edit): Outcome<seq<Key>>
    requires OnKeys(e)
  {
    match e
    case AddKey(k) => AddedKey(ks, k)
    case SaveKey(original, k) => SavedKey(ks, original, k)
    case DeleteKey(name) => DeletedKey(ks, name)
  }

  /** An outcome for a part, as one for the whole. */
  function Lift<S, T>(o: Outcome<S>, f: S -> T): Outcome<T> {
    match o
    case Done(s) => Done(f(s))
    case NotFound => NotFound
    case Exists => Exists
    case InUse => InUse
  }

  function Edited(c: Config, e: Edit): Outcome<Config> {
    if OnEnvironments(e) then Lift(EnvironmentsEdited(c.environments, e), es => c.(environments := es))
    else if OnStorage(e) then Lift(StorageEdited(c.storage, e), es => c.(storage := es))
    else if OnKeys(e) then Lift(KeysEdited(c.keys, e), ks => c.(keys := ks))
    else Done(c.(preferences := e.preferences))
  }

  // ----------------------------------------------------- what every edit keeps

  ghost predicate NamesAreUnique(c: Config) {
    Distinct(EntryNames(c.environments)) && Distinct(EntryNames(c.storage)) && Distinct(KeyNames(c.keys))
  }

  ghost predicate AtMostOneDefault(es: seq<Entry>) {
    forall i, j :: 0 <= i < j < |es| ==> !(es[i].isDefault && es[j].isDefault)
  }

  ghost predicate SomeDefault(es: seq<Entry>) {
    exists i :: 0 <= i < |es| && es[i].isDefault
  }

  /** Exactly one default, or nothing to be the default. */
  ghost predicate OneDefault(es: seq<Entry>) {
    AtMostOneDefault(es) && (es == [] || SomeDefault(es))
  }

  lemma AppendKeepsDistinct(names: seq<string>, more: seq<string>)
    requires Distinct(names) && |more| == |names| + 1 && more[..|names|] == names && more[|names|] !in names
    ensures Distinct(more)
  {
    forall i, j | 0 <= i < j < |more| ensures more[i] != more[j] {
      assert more[i] == names[i];
      if j < |names| { assert more[j] == names[j]; }
    }
  }

  lemma ReplaceKeepsDistinct(names: seq<string>, i: nat, name: string)
    requires Distinct(names) && i < |names| && (name == names[i] || name !in names)
    ensures Distinct(names[i := name])
  {
  }

  lemma WithoutKeepsDistinct<T>(s: seq<T>, i: nat)
    requires Distinct(s) && i < |s|
    ensures Distinct(Without(s, i))
  {
  }

  lemma EntriesStayUnique(es: seq<Entry>, e: Entry, i: nat)
    requires Distinct(EntryNames(es))
    ensures e.name !in EntryNames(es) ==> Distinct(EntryNames(es + [e]))
    ensures i < |es| && (e.name == es[i].name || e.name !in EntryNames(es)) ==> Distinct(EntryNames(es[i := e]))
    ensures i < |es| ==> Distinct(EntryNames(Without(es, i)))
  {
    var names := EntryNames(es);
    if e.name !in names {
      assert EntryNames(es + [e])[..|es|] == names;
      AppendKeepsDistinct(names, EntryNames(es + [e]));
    }
    if i < |es| && (e.name == es[i].name || e.name !in names) {
      assert EntryNames(es[i := e]) == names[i := e.name];
      ReplaceKeepsDistinct(names, i, e.name);
    }
    if i < |es| {
      assert EntryNames(Without(es, i)) == Without(names, i);
      WithoutKeepsDistinct(names, i);
    }
  }

  lemma OnlyDefaultKeepsNames(es: seq<Entry>, name: string)
    ensures EntryNames(OnlyDefault(es, name)) == EntryNames(es)
  {
  }

  lemma KeysStayUnique(ks: seq<Key>, k: Key, i: nat)
    requires Distinct(KeyNames(ks))
    ensures k.name !in KeyNames(ks) ==> Distinct(KeyNames(ks + [k]))
    ensures i < |ks| && (k.name == ks[i].name || k.name !in KeyNames(ks)) ==> Distinct(KeyNames(ks[i := k]))
    ensures i < |ks| ==> Distinct(KeyNames(Without(ks, i)))
  {
    var names := KeyNames(ks);
    if k.name !in names {
      assert KeyNames(ks + [k])[..|ks|] == names;
      AppendKeepsDistinct(names, KeyNames(ks + [k]));
    }
    if i < |ks| && (k.name == ks[i].name || k.name !in names) {
      assert KeyNames(ks[i := k]) == names[i := k.name];
      ReplaceKeepsDistinct(names, i, k.name);
    }
    if i < |ks| {
      assert KeyNames(Without(ks, i)) == Without(names, i);
      WithoutKeepsDistinct(names, i);
    }
  }

  lemma AddKeepsNames(es: seq<Entry>, e: Entry)
    requires Distinct(EntryNames(es)) && Add(es, e).Done?
    ensures Distinct(EntryNames(Add(es, e).value))
  {
    EntriesStayUnique(es, e, 0);
  }

  lemma SaveKeepsNames(es: seq<Entry>, original: string, e: Entry, changed: (Entry, Entry) -> bool)
    requires Distinct(EntryNames(es)) && Save(es, original, e, changed).Done?
    ensures Distinct(EntryNames(Save(es, original, e, changed).value))
  {
    var i := IndexOf(EntryNames(es), original);
    EntriesStayUnique(es, Stamped(es[i], e, changed(es[i], e)), i);
  }

  lemma DuplicateKeepsNames(es: seq<Entry>, name: string, newName: string)
    requires Distinct(EntryNames(es)) && Duplicate(es, name, newName).Done?
    ensures Distinct(EntryNames(Duplicate(es, name, newName).value))
  {
    var chosen := if newName == "" then FreeName(name, EntryNames(es)) else newName;
    EntriesStayUnique(es, Duplicated(es[IndexOf(EntryNames(es), name)], chosen), 0);
  }

  lemma RecordKeepsNames(es: seq<Entry>, name: string, stamp: Stamp)
    requires Distinct(EntryNames(es)) && Record(es, name, stamp).Done?
    ensures Distinct(EntryNames(Record(es, name, stamp).value))
  {
    var i := IndexOf(EntryNames(es), name);
    EntriesStayUnique(es, es[i].(lastProbe := Some(stamp)), i);
  }

  lemma DeletedKeepsNames(es: seq<Entry>, name: string)
    requires Distinct(EntryNames(es)) && Deleted(es, name).Done?
    ensures Distinct(EntryNames(Deleted(es, name).value))
  {
    EntriesStayUnique(es, es[0], IndexOf(EntryNames(es), name));
  }

  lemma AddedStorageKeepsNames(es: seq<Entry>, e: Entry)
    requires Distinct(EntryNames(es)) && AddedStorage(es, e).Done?
    ensures Distinct(EntryNames(AddedStorage(es, e).value))
  {
    AddKeepsNames(es, e);
    OnlyDefaultKeepsNames(es + [e], e.name);
  }

  lemma SavedStorageKeepsNames(es: seq<Entry>, original: string, e: Entry)
    requires Distinct(EntryNames(es)) && SavedStorage(es, original, e).Done?
    ensures Distinct(EntryNames(SavedStorage(es, original, e).value))
  {
    SaveKeepsNames(es, original, e, StorageReachabilityChanged);
    OnlyDefaultKeepsNames(Save(es, original, e, StorageReachabilityChanged).value, e.name);
  }

  lemma AddedKeyKeepsNames(ks: seq<Key>, k: Key)
    requires Distinct(KeyNames(ks)) && AddedKey(ks, k).Done?
    ensures Distinct(KeyNames(AddedKey(ks, k).value))
  {
    KeysStayUnique(ks, k, |ks|);
  }

  lemma SavedKeyKeepsNames(ks: seq<Key>, original: string, k: Key)
    requires Distinct(KeyNames(ks)) && SavedKey(ks, original, k).Done?
    ensures Distinct(KeyNames(SavedKey(ks, original, k).value))
  {
    KeysStayUnique(ks, k, IndexOf(KeyNames(ks), original));
  }

  lemma DeletedKeyKeepsNames(ks: seq<Key>, name: string)
    requires Distinct(KeyNames(ks)) && DeletedKey(ks, name).Done?
    ensures Distinct(KeyNames(DeletedKey(ks, name).value))
  {
    KeysStayUnique(ks, ks[0], IndexOf(KeyNames(ks), name));
  }

  lemma EnvironmentsKeepNames(es: seq<Entry>, e: Edit)
    requires OnEnvironments(e) && Distinct(EntryNames(es)) && EnvironmentsEdited(es, e).Done?
    ensures Distinct(EntryNames(EnvironmentsEdited(es, e).value))
  {
    match e
    case AddEnvironment(g) => AddKeepsNames(es, g.entry);
    case SaveEnvironment(original, g) => SaveKeepsNames(es, original, g.entry, ReachabilityChanged(g.kept));
    case DuplicateEnvironment(name, newName) => DuplicateKeepsNames(es, name, newName);
    case DeleteEnvironment(name, _) => DeletedKeepsNames(es, name);
    case RecordEnvironmentProbe(name, stamp) => RecordKeepsNames(es, name, stamp);
  }

  lemma StorageKeepsNames(es: seq<Entry>, e: Edit)
    requires OnStorage(e) && Distinct(EntryNames(es)) && StorageEdited(es, e).Done?
    ensures Distinct(EntryNames(StorageEdited(es, e).value))
  {
    match e
    case AddStorage(g) => AddedStorageKeepsNames(es, g.entry);
    case SaveStorage(original, g) => SavedStorageKeepsNames(es, original, g.entry);
    case DuplicateStorage(name, newName) => DuplicateKeepsNames(es, name, newName);
    case DeleteStorage(name, _) => DeletedKeepsNames(es, name);
    case SetDefaultStorage(name) => OnlyDefaultKeepsNames(es, name);
    case RecordStorageProbe(name, stamp) => RecordKeepsNames(es, name, stamp);
  }

  lemma KeysKeepNames(ks: seq<Key>, e: Edit)
    requires OnKeys(e) && Distinct(KeyNames(ks)) && KeysEdited(ks, e).Done?
    ensures Distinct(KeyNames(KeysEdited(ks, e).value))
  {
    match e
    case AddKey(k) => AddedKeyKeepsNames(ks, k);
    case SaveKey(original, k) => SavedKeyKeepsNames(ks, original, k);
    case DeleteKey(name) => DeletedKeyKeepsNames(ks, name);
  }

  /** No edit makes two entries of a list share a name. */
  lemma EditKeepsNames(c: Config, e: Edit)
    requires NamesAreUnique(c) && Edited(c, e).Done?
    ensures NamesAreUnique(Edited(c, e).value)
  {
    if OnEnvironments(e) {
      EnvironmentsKeepNames(c.environments, e);
    } else if OnStorage(e) {
      StorageKeepsNames(c.storage, e);
    } else if OnKeys(e) {
      KeysKeepNames(c.keys, e);
    }
  }

  /** Saving an environment over itself changes nothing, exactly when it has no Test
      result to lose, or else neither a jump host nor, unless the stored object itself
      is given, a preset to lose it by. */
  lemma SavingUnchanged(es: seq<Entry>, name: string, kept: bool)
    requires name in EntryNames(es)
    ensures var e := es[IndexOf(EntryNames(es), name)];
            Save(es, name, e, ReachabilityChanged(kept)) == Done(es)
            <==> e.lastProbe.None? || (e.jumpHost.None? && (e.preset.None? || kept))
  {
    var i := IndexOf(EntryNames(es), name);
    var y := Stamped(es[i], es[i], ReachabilityChanged(kept)(es[i], es[i]));
    assert es[i := y][i] == y;
    assert y == es[i] ==> es[i := y] == es;
  }

  // --------------------------------------------------- what one edit undoes or does

  /** The last of a list with distinct names is where its name is found. */
  lemma LastIsFound(es: seq<Entry>, e: Entry)
    requires e.name !in EntryNames(es)
    ensures IndexOf(EntryNames(es + [e]), e.name) == |es|
  {
    assert EntryNames(es + [e])[|es|] == e.name;
    assert forall i :: 0 <= i < |es| ==> EntryNames(es + [e])[i] == EntryNames(es)[i];
  }

  /** Deleting what was just added, or duplicated, leads back. */
  lemma DeletionUndoes(es: seq<Entry>, e: Entry, name: string, newName: string)
    ensures Add(es, e).Done? ==> Deleted(Add(es, e).value, e.name) == Done(es)
    ensures Duplicate(es, name, newName).Done? ==>
              var all := Duplicate(es, name, newName).value;
              Deleted(all, all[|es|].name) == Done(es)
  {
    if Add(es, e).Done? {
      LastIsFound(es, e);
      assert Without(es + [e], |es|) == es;
    }
    if Duplicate(es, name, newName).Done? {
      var dup := Duplicate(es, name, newName).value[|es|];
      LastIsFound(es, dup);
      assert Without(es + [dup], |es|) == es;
    }
  }

  /** For storage, exactly unless the added one took the default from another:
      a default is not deleted while others are there. */
  lemma DeletionUndoesStorage(es: seq<Entry>, e: Entry)
    requires AddedStorage(es, e).Done?
    ensures DeletedStorage(AddedStorage(es, e).value, e.name) == Done(es) <==> !e.isDefault || es == []
  {
    var all := es + [e];
    LastIsFound(es, e);
    OnlyDefaultKeepsNames(all, e.name);
    assert Without(all, |es|) == es;
    if es == [] {
      assert EntryNames([all[0].(isDefault := true)]) == EntryNames(all);
    }
  }

  /** A duplicate is its source in everything but the name, the credential handles,
      the Test result and the default flag; the handles of none of its parts are the
      source's, and the entries that were there stay as they were. */
  lemma DuplicateSharesNoHandle(es: seq<Entry>, name: string, newName: string)
    requires Duplicate(es, name, newName).Done?
    ensures var src, all := es[IndexOf(EntryNames(es), name)], Duplicate(es, name, newName).value;
            |all| == |es| + 1 && all[..|es|] == es
            && var dup := all[|es|];
               dup.name !in EntryNames(es) && (newName != "" ==> dup.name == newName)
               && dup.credentialRef == "" && dup.adminCredentialRef == "" && dup.lastProbe.None? && !dup.isDefault
               && dup.rest == src.rest && dup.preset == src.preset && (dup.jumpHost.Some? <==> src.jumpHost.Some?)
               && (dup.jumpHost.Some? ==> dup.jumpHost.value == Hop(src.jumpHost.value.host, ""))
  {
  }

  /** An entry that was saved with a Test result and has one afterwards is, apart
      from the result, the one that was there: what was changed is untested. */
  lemma ChangedIsUntested(es: seq<Entry>, original: string, e: Entry, kept: bool)
    requires Save(es, original, e, ReachabilityChanged(kept)).Done?
    ensures var i := IndexOf(EntryNames(es), original);
            var all := Save(es, original, e, ReachabilityChanged(kept)).value;
            |all| == |es| && (forall j :: 0 <= j < |es| && j != i ==> all[j] == es[j])
            && all[i].(lastProbe := None) == e.(lastProbe := None)
            && (all[i].lastProbe.Some? ==>
                  e.(lastProbe := None) == es[i].(lastProbe := None) && es[i].jumpHost.None? && (es[i].preset.None? || kept))
  {
  }

  // ------------------------------------------------------------- the one default

  /** With distinct names, making one name the only default makes one default. */
  lemma OnlyDefaultIsOne(es: seq<Entry>, name: string)
    requires Distinct(EntryNames(es))
    ensures AtMostOneDefault(OnlyDefault(es, name))
    ensures SomeDefault(OnlyDefault(es, name)) <==> name in EntryNames(es)
  {
    var names := EntryNames(es);
    forall i, j | 0 <= i < j < |es| ensures !(OnlyDefault(es, name)[i].isDefault && OnlyDefault(es, name)[j].isDefault) {
      assert names[i] != names[j];
    }
    if name in names {
      var i :| 0 <= i < |names| && names[i] == name;
      assert OnlyDefault(es, name)[i].isDefault;
    }
  }

  /** The edit saves, over the default storage, one that is not marked default. */
  predicate ClearsDefault(c: Config, e: Edit) {
    e.SaveStorage? && !e.e.entry.isDefault
    && var i := IndexOf(EntryNames(c.storage), e.original); 0 <= i && c.storage[i].isDefault
  }

  lemma AddedStorageDefault(es: seq<Entry>, e: Entry)
    requires Distinct(EntryNames(es)) && AtMostOneDefault(es) && AddedStorage(es, e).Done?
    ensures AtMostOneDefault(AddedStorage(es, e).value)
    ensures OneDefault(es) ==> OneDefault(AddedStorage(es, e).value)
  {
    var all := es + [e];
    AddKeepsNames(es, e);
    OnlyDefaultIsOne(all, e.name);
    assert EntryNames(all)[|es|] == e.name;
    if SomeDefault(es) {
      var i :| 0 <= i < |es| && es[i].isDefault;
      assert all[i].isDefault;
    }
    assert |all| == 1 ==> !e.isDefault ==> AddedStorage(es, e).value[0].isDefault;
  }

  lemma SavedStorageDefault(es: seq<Entry>, original: string, e: Entry)
    requires Distinct(EntryNames(es)) && AtMostOneDefault(es) && SavedStorage(es, original, e).Done?
    ensures AtMostOneDefault(SavedStorage(es, original, e).value)
    ensures OneDefault(es) ==>
              (OneDefault(SavedStorage(es, original, e).value) <==> e.isDefault || !es[IndexOf(EntryNames(es), original)].isDefault)
  {
    var i := IndexOf(EntryNames(es), original);
    var all := Save(es, original, e, StorageReachabilityChanged).value;
    SaveKeepsNames(es, original, e, StorageReachabilityChanged);
    OnlyDefaultIsOne(all, e.name);
    assert EntryNames(all)[i] == e.name;
    if !e.isDefault && SomeDefault(es) {
      var j :| 0 <= j < |es| && es[j].isDefault;
      assert j != i ==> all[j].isDefault;
      assert j == i ==> forall k :: 0 <= k < |all| ==> !all[k].isDefault;
    }
  }

  lemma DuplicateDefault(es: seq<Entry>, name: string, newName: string)
    requires AtMostOneDefault(es) && Duplicate(es, name, newName).Done?
    ensures AtMostOneDefault(Duplicate(es, name, newName).value)
    ensures OneDefault(es) ==> OneDefault(Duplicate(es, name, newName).value)
  {
    if SomeDefault(es) {
      var i :| 0 <= i < |es| && es[i].isDefault;
      assert Duplicate(es, name, newName).value[i].isDefault;
    }
  }

  lemma DeletedStorageDefault(es: seq<Entry>, name: string)
    requires AtMostOneDefault(es) && DeletedStorage(es, name).Done?
    ensures AtMostOneDefault(DeletedStorage(es, name).value)
    ensures OneDefault(es) ==> OneDefault(DeletedStorage(es, name).value)
  {
    var i := IndexOf(EntryNames(es), name);
    if SomeDefault(es) && |es| > 1 {
      var j :| 0 <= j < |es| && es[j].isDefault;
      assert Without(es, i)[if j < i then j else j - 1].isDefault;
    }
  }

  lemma RecordDefault(es: seq<Entry>, name: string, stamp: Stamp)
    requires AtMostOneDefault(es) && Record(es, name, stamp).Done?
    ensures AtMostOneDefault(Record(es, name, stamp).value)
    ensures OneDefault(es) ==> OneDefault(Record(es, name, stamp).value)
  {
    if SomeDefault(es) {
      var i :| 0 <= i < |es| && es[i].isDefault;
      assert Record(es, name, stamp).value[i].isDefault;
    }
  }

  lemma StorageKeepsDefaults(es: seq<Entry>, e: Edit)
    requires OnStorage(e) && !e.SaveStorage?
    requires Distinct(EntryNames(es)) && AtMostOneDefault(es) && StorageEdited(es, e).Done?
    ensures AtMostOneDefault(StorageEdited(es, e).value)
    ensures OneDefault(es) ==> OneDefault(StorageEdited(es, e).value)
  {
    match e
    case AddStorage(g) => AddedStorageDefault(es, g.entry);
    case DuplicateStorage(name, newName) => DuplicateDefault(es, name, newName);
    case DeleteStorage(name, _) => DeletedStorageDefault(es, name);
    case SetDefaultStorage(name) => OnlyDefaultIsOne(es, name);
    case RecordStorageProbe(name, stamp) => RecordDefault(es, name, stamp);
  }

  /** No edit makes a second default; and from one default, or no storage at all,
      an edit leads to neither exactly when it saves the default unmarked. */
  lemma EditKeepsDefaults(c: Config, e: Edit)
    requires NamesAreUnique(c) && AtMostOneDefault(c.storage) && Edited(c, e).Done?
    ensures AtMostOneDefault(Edited(c, e).value.storage)
    ensures OneDefault(c.storage) ==> (OneDefault(Edited(c, e).value.storage) <==> !ClearsDefault(c, e))
  {
    if e.SaveStorage? {
      SavedStorageDefault(c.storage, e.original, e.e.entry);
    } else if OnStorage(e) {
      StorageKeepsDefaults(c.storage, e);
    }
  }

  /** Naming a storage the default makes it so, and it alone. */
  lemma SetDefaultMakesOne(c: Config, name: string)
    requires NamesAreUnique(c) && Edited(c, SetDefaultStorage(name)).Done?
    ensures var es := Edited(c, SetDefaultStorage(name)).value.storage;
            AtMostOneDefault(es) && SomeDefault(es) && forall i :: 0 <= i < |es| ==> (es[i].isDefault <==> es[i].name == name)
  {
    OnlyDefaultIsOne(c.storage, name);
  }

  /** The configuration after a run of edits, of which those refused change nothing. */
  function AfterEdits(c: Config, run: seq<Edit>): Config {
    if run == [] then c
    else
      var d := AfterEdits(c, run[..|run| - 1]);
      match Edited(d, run[|run| - 1]) case Done(next) => next case _ => d
  }

  predicate NeverClearsDefault(c: Config, run: seq<Edit>) {
    run == []
    || (NeverClearsDefault(c, run[..|run| - 1]) && !ClearsDefault(AfterEdits(c, run[..|run| - 1]), run[|run| - 1]))
  }

  /** Over any run of edits names stay unique and defaults at most one; and as long
      as nobody saves the default unmarked, storage has exactly one default from
      the first entry on. */
  lemma {:induction false} RunKeepsTheWhole(c: Config, run: seq<Edit>)
    requires NamesAreUnique(c) && AtMostOneDefault(c.storage)
    ensures NamesAreUnique(AfterEdits(c, run)) && AtMostOneDefault(AfterEdits(c, run).storage)
    ensures OneDefault(c.storage) && NeverClearsDefault(c, run) ==> OneDefault(AfterEdits(c, run).storage)
  {
    if run != [] {
      RunKeepsTheWhole(c, run[..|run| - 1]);
      var d := AfterEdits(c, run[..|run| - 1]);
      if Edited(d, run[|run| - 1]).Done? {
        EditKeepsNames(d, run[|run| - 1]);
        EditKeepsDefaults(d, run[|run| - 1]);
      }
    }
  }
}
