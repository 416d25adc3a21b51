/** The store: a cached configuration, the bytes it was read from, and a baseline,
    edited by copy, in-place change, validation and an atomic write. */
module ConfigStore {
  import opened Prelude
  import opened ConfigModel
  import opened ConfigSlices
  import opened ConfigEdits
  import opened Validation
  import AtomicWrite

  /** The YAML encoder and decoder; encoding may fail, and decoding undoes it. */
  datatype Codec = Codec(marshal: Config -> Option<string>, decode: string -> Option<Config>)

  ghost predicate Lawful(codec: Codec) {
    forall c :: codec.marshal(c).Some? ==> codec.decode(codec.marshal(c).value) == Some(c)
  }

  const Empty: Config := Config(0, [], [], [])

  /** config.yaml in a home folder, or its absence. */
  class File {
    var bytes: Option<string>

    constructor (bytes: Option<string>)
      ensures this.bytes == bytes
    {
      this.bytes := bytes;
    }

    /** All of the data, or after a fault the old bytes: see AtomicWrite. */
    method WriteFileAtomic(data: string, fault: bool) returns (written: bool)
      modifies this
      ensures written == !fault && bytes == if fault then old(bytes) else Some(data)
    {
      if !fault {
        bytes := Some(data);
      }
      written := !fault;
    }
  }

  /** A save by the directory and a save of the file it holds under a name come to the
      same: what the file is said to hold is what is read in the directory, before and
      after, and at every step between, for a power loss too, the old or the new. */
  method SaveThrough(dir: AtomicWrite.Directory, path: string, data: string, tmp: string, i: AtomicWrite.Inode, faulty: bool, stuck: bool)
      returns (f: File, written: bool)
    requires dir.Valid() && tmp != path && tmp !in dir.disk.live && i !in dir.disk.data && i !in dir.disk.dirty
    modifies dir
    ensures dir.Valid() && f.bytes == AtomicWrite.Content(dir.disk, path)
    ensures f.bytes == if written then Some(data) else old(AtomicWrite.Content(dir.disk, path))
    ensures (!faulty ==> written) && (written || !stuck ==> AtomicWrite.Live(dir.disk, tmp) == None)
    ensures old(dir.trace) <= dir.trace && AtomicWrite.AlwaysOldOrNew(old(dir.disk), dir.trace[|old(dir.trace)|..], path, data)
  {
    f := new File(AtomicWrite.Content(dir.disk, path));
    var ok, _ := dir.WriteFileAtomic(path, data, tmp, i, faulty, stuck);
    written := f.WriteFileAtomic(data, !ok);
  }

  /** The configuration in memory. */
  datatype Cfg = Cfg(preferences: nat, environments: Slice<Row>, storage: Slice<Row>, keys: Slice<Key>)

  predicate CfgFits(c: Cfg) {
    Fits(c.environments) && Fits(c.storage) && Fits(c.keys)
  }

  ghost function Arrays(c: Cfg): set<object> {
    {c.environments.arr, c.storage.arr, c.keys.arr}
  }

  function ConfigOf(c: Cfg): Config
    requires CfgFits(c)
    reads Arrays(c)
    reads Cells(Elems(c.environments)), Cells(Elems(c.storage))
  {
    Config(c.preferences, Entries(Elems(c.environments)), Entries(Elems(c.storage)), Elems(c.keys))
  }

  /** Neither a file nor a store is anything a configuration in memory is made of. */
  lemma Apart(c: Cfg, f: File, s: Store)
    requires CfgFits(c)
    ensures forall o :: o in Arrays(c) || o in Cells(Elems(c.environments)) || o in Cells(Elems(c.storage)) ==> o != f && o != s
  {
  }

  datatype Result =
    | Saved
    | Refused(reason: Outcome<()>)
    | Invalid(problems: seq<Problem>)
    | NotWritten

  /** What becomes of a configuration that is to be saved. */
  function Fate(d: Config, checks: Checks, codec: Codec, fault: bool): Result {
    if Problems(d, checks) != [] then Invalid(Problems(d, checks))
    else if codec.marshal(d).None? || fault then NotWritten
    else Saved
  }

  /** What becomes of an edit: refused, or the fate of what it makes. */
  function Expected(edited: Outcome<Config>, checks: Checks, codec: Codec, fault: bool): Result {
    if edited.Done? then Fate(edited.value, checks, codec, fault) else Refused(Reason(edited))
  }

  /** A cached configuration, raw bytes, a baseline and the bytes of the file go
      together: no file and an empty configuration, or the bytes that were read or
      written, which decode to what is cached. */
  ghost predicate AgreesWith(codec: Codec, c: Config, raw: Option<string>, baseline: Option<string>, bytes: Option<string>) {
    bytes == raw
    && match raw
       case None => baseline.None? && c == Empty
       case Some(b) => codec.decode(b) == Some(c) && baseline.Some? && baseline == codec.marshal(c)
  }

  /** What a save writes: the bytes that were read, when nothing the schema knows of
      has changed since, and otherwise the configuration afresh. */
  function Body(out: string, raw: Option<string>, baseline: Option<string>): string {
    if baseline == Some(out) && raw.Some? then raw.value else out
  }

  /** What was saved agrees with what is cached, the old bytes written back included. */
  lemma SavingAgrees(codec: Codec, c: Config, raw: Option<string>, baseline: Option<string>, bytes: Option<string>, d: Config)
    requires Lawful(codec) && AgreesWith(codec, c, raw, baseline, bytes) && codec.marshal(d).Some?
    ensures var body := Some(Body(codec.marshal(d).value, raw, baseline)); AgreesWith(codec, d, body, codec.marshal(d), body)
    ensures d == c && raw.Some? ==> Some(Body(codec.marshal(d).value, raw, baseline)) == bytes
  {
    if baseline == codec.marshal(d) {
      assert codec.decode(baseline.value) == Some(d);
    }
  }

  /** What Load makes of a file: nothing when it is missing, and no part of one that
      cannot be read, decoded, or encoded again, or that is not well formed. */
  function Loadable(bytes: Option<string>, codec: Codec, checks: Checks): Option<Config> {
    match bytes
    case None => Some(Empty)
    case Some(b) =>
      match codec.decode(b)
      case Some(c) => if Problems(c, checks) == [] && codec.marshal(c).Some? then Some(c) else None
      case None => None
  }

  /** What stands in a file is taken on: it decodes to a configuration that is well formed
      and can be encoded again. */
  ghost predicate Sound(b: string, codec: Codec, checks: Checks) {
    var c := codec.decode(b); c.Some? && WellFormed(c.value, checks) && codec.marshal(c.value).Some?
  }

  lemma WhenLoadable(bytes: Option<string>, codec: Codec, checks: Checks)
    ensures bytes.None? ==> Loadable(bytes, codec, checks) == Some(Config(0, [], [], []))
    ensures bytes.Some? ==> Loadable(bytes, codec, checks) == if Sound(bytes.value, codec, checks) then codec.decode(bytes.value) else None
  {
    if bytes.Some? && codec.decode(bytes.value).Some? {
      NoProblems(codec.decode(bytes.value).value, checks);
    }
  }

  method CfgOf(c: Config) returns (cfg: Cfg)
    ensures CfgFits(cfg) && ConfigOf(cfg) == c
  {
    var environments := RowsOf(c.environments);
    var storage := RowsOf(c.storage);
    var keys := new Key[|c.keys|](i requires 0 <= i < |c.keys| => c.keys[i]);
    assert keys[..] == c.keys;
    cfg := Cfg(c.preferences, environments, storage, Slice(keys, |c.keys|));
    assert Entries(Elems(environments)) == c.environments;
  }

  class Store {
    const codec: Codec
    const checks: Checks
    /** Whether cloning copies the keys as well; false is the code as it stands. */
    const copiesKeys: bool
    var home: File
    var cfg: Cfg
    var raw: Option<string>
    var baseline: Option<string>

    ghost predicate Valid()
      reads this
    {
      CfgFits(cfg)
    }

    function Current(): Config
      requires Valid()
      reads this, Arrays(cfg), Cells(Elems(cfg.environments)), Cells(Elems(cfg.storage))
    {
      ConfigOf(cfg)
    }

    /** The environments in memory. */
    ghost function Stored(): seq<Row>
      requires Valid()
      reads this, cfg.environments.arr
    {
      Elems(cfg.environments)
    }

    /** The cache and the file agree. */
    ghost predicate Agrees()
      requires Valid()
      reads this, home, Arrays(cfg), Cells(Elems(cfg.environments)), Cells(Elems(cfg.storage))
    {
      AgreesWith(codec, Current(), raw, baseline, home.bytes)
    }

    /** Nothing of the store or of the file was touched. */
    twostate predicate Untouched()
      reads this, home
    {
      home == old(home) && cfg == old(cfg) && raw == old(raw) && baseline == old(baseline) && home.bytes == old(home.bytes)
    }

    constructor (home: File, codec: Codec, checks: Checks, copiesKeys: bool)
      ensures Valid() && this.home == home && this.codec == codec && this.checks == checks && this.copiesKeys == copiesKeys
      ensures raw.None? && baseline.None? && Current() == Empty
    {
      this.home, this.codec, this.checks, this.copiesKeys := home, codec, checks, copiesKeys;
      this.raw, this.baseline := None, None;
      var environments, storage, keys := new Row[0], new Row[0], new Key[0];
      cfg := Cfg(0, Slice(environments, 0), Slice(storage, 0), Slice(keys, 0));
    }

    /** cloneConfig: rows are copied, and the stamps and jump hosts they point at; the
        presets they point at and the keys are not. */
    method Clone() returns (next: Cfg)
      requires Valid()
      ensures CfgFits(next) && ConfigOf(next) == old(Current())
      ensures fresh(next.environments.arr) && fresh(next.storage.arr) && next.environments.arr != next.storage.arr
      ensures fresh(Own(Elems(next.environments))) && fresh(Own(Elems(next.storage)))
      ensures SamePresets(Elems(next.environments), old(Stored()))
      ensures if copiesKeys then fresh(next.keys.arr) else next.keys == cfg.keys
    {
      ghost var view := Current();
      var environments, storage := CloneBoth(cfg.environments, cfg.storage);
      var keys := CloneKeys();
      assert Entries(Elems(environments)) == view.environments && Entries(Elems(storage)) == view.storage;
      next := Cfg(cfg.preferences, environments, storage, keys);
    }

    method CloneBoth(a: Slice<Row>, b: Slice<Row>) returns (x: Slice<Row>, y: Slice<Row>)
      requires Fits(a) && Fits(b)
      ensures Fits(x) && Fits(y) && fresh(x.arr) && fresh(y.arr) && x.arr != y.arr
      ensures fresh(Own(Elems(x))) && fresh(Own(Elems(y))) && SamePresets(Elems(x), old(Elems(a)))
      ensures Entries(Elems(x)) == old(Entries(Elems(a))) && Entries(Elems(y)) == old(Entries(Elems(b)))
    {
      ghost var es, fs := Entries(Elems(a)), Entries(Elems(b));
      x := CloneRows(a);
      assert Entries(Elems(b)) == fs;
      y := CloneRows(b);
      assert Entries(Elems(x)) == es;
    }

    method CloneKeys() returns (keys: Slice<Key>)
      requires Valid()
      ensures Fits(keys) && Elems(keys) == old(Elems(cfg.keys))
      ensures if copiesKeys then fresh(keys.arr) else keys == cfg.keys
    {
      keys := cfg.keys;
      if copiesKeys {
        var arr := new Key[keys.len](i requires 0 <= i < keys.len && keys.len <= keys.arr.Length reads keys.arr => keys.arr[i]);
        assert arr[..keys.len] == keys.arr[..keys.len];
        keys := Slice(arr, keys.len);
      }
    }

    /** Writing the file touches no configuration in memory. */
    method WriteBeside(kept: Cfg, body: string, fault: bool) returns (written: bool)
      requires CfgFits(kept)
      modifies home
      ensures written == !fault && home.bytes == if fault then old(home.bytes) else Some(body)
      ensures ConfigOf(kept) == old(ConfigOf(kept))
    {
      Apart(kept, home, this);
      written := home.WriteFileAtomic(body, fault);
    }

    /** Writes the body, and only then takes the new state on. */
    method Put(next: Cfg, body: string, out: string, fault: bool) returns (saved: bool)
      requires Valid() && CfgFits(next)
      modifies this`cfg, this`raw, this`baseline, home
      ensures Valid() && home == old(home) && saved == !fault
      ensures if saved then cfg == next && baseline == Some(out) && raw == home.bytes == Some(body) else Untouched()
      ensures Current() == if saved then old(ConfigOf(next)) else old(Current())
    {
      var kept := if fault then cfg else next;
      ghost var view := ConfigOf(kept);
      saved := WriteBeside(kept, body, fault);
      if saved {
        Apart(kept, home, this);
        cfg, raw, baseline := next, Some(body), Some(out);
      }
      assert Current() == view;
    }

    /** The store has taken d on, and the file with it. */
    twostate predicate Became(d: Config)
      requires Valid()
      reads this, home, Arrays(cfg), Cells(Elems(cfg.environments)), Cells(Elems(cfg.storage))
    {
      && home == old(home) && Current() == d && codec.marshal(d).Some? && baseline == codec.marshal(d)
      && raw == home.bytes == Some(Body(baseline.value, old(raw), old(baseline)))
    }

    method SaveLocked(next: Cfg, fault: bool) returns (saved: bool)
      requires Valid() && CfgFits(next)
      modifies this`cfg, this`raw, this`baseline, home
      ensures Valid() && saved == (codec.marshal(old(ConfigOf(next))).Some? && !fault)
      ensures if saved then Became(old(ConfigOf(next))) else Untouched() && Current() == old(Current())
    {
      var out := codec.marshal(ConfigOf(next));
      if out.None? {
        return false;
      }
      saved := Put(next, Body(out.value, raw, baseline), out.value, fault);
    }

    method ValidateAndSave(next: Cfg, fault: bool) returns (r: Result)
      requires Valid() && CfgFits(next)
      modifies this`cfg, this`raw, this`baseline, home
      ensures Valid() && r == Fate(old(ConfigOf(next)), checks, codec, fault)
      ensures if r.Saved? then Became(old(ConfigOf(next))) else Untouched() && Current() == old(Current())
    {
      var problems := Problems(ConfigOf(next), checks);
      if problems != [] {
        return Invalid(problems);
      }
      var saved := SaveLocked(next, fault);
      r := if saved then Saved else NotWritten;
    }

    method RunOnEnvironments(next: Cfg, ch: Change<Row>) returns (out: Cfg, reason: Outcome<()>)
      requires CfgFits(next) && next.environments.arr != next.storage.arr
      requires OnEnvironments(ch) && HopIsItsOwn(ch, next.environments)
      modifies next.environments.arr
      ensures CfgFits(out) && reason == Reason(Edited(old(ConfigOf(next)), old(EditOf(ch, Elems(next.environments)))))
      ensures reason.Done? ==> ConfigOf(out) == Edited(old(ConfigOf(next)), old(EditOf(ch, Elems(next.environments)))).value
    {
      ghost var was := ConfigOf(next);
      var es;
      es, reason := EditEnvironments(next.environments, ch);
      out := next.(environments := es);
      assert Entries(Elems(next.storage)) == was.storage;
    }

    method RunOnStorage(next: Cfg, ch: Change<Row>) returns (out: Cfg, reason: Outcome<()>)
      requires CfgFits(next) && next.environments.arr != next.storage.arr
      requires OnStorage(ch) && HopIsItsOwn(ch, next.storage)
      modifies next.storage.arr
      ensures CfgFits(out) && reason == Reason(Edited(old(ConfigOf(next)), old(EditOf(ch, Elems(next.environments)))))
      ensures reason.Done? ==> ConfigOf(out) == Edited(old(ConfigOf(next)), old(EditOf(ch, Elems(next.environments)))).value
    {
      ghost var was, e := ConfigOf(next), EditOf(ch, Elems(next.environments));
      EditOfOther(ch, [], Elems(next.environments));
      assert EditOf(ch, []) == e;
      var es;
      es, reason := EditStorage(next.storage, ch);
      assert reason == Reason(StorageEdited(was.storage, e));
      out := next.(storage := es);
      assert Entries(Elems(next.environments)) == was.environments;
    }

    method RunOnKeys(next: Cfg, ch: Change<Row>) returns (out: Cfg, reason: Outcome<()>)
      requires CfgFits(next) && OnKeys(ch)
      modifies next.keys.arr
      ensures CfgFits(out) && reason == Reason(Edited(old(ConfigOf(next)), old(EditOf(ch, Elems(next.environments)))))
      ensures reason.Done? ==> ConfigOf(out) == Edited(old(ConfigOf(next)), old(EditOf(ch, Elems(next.environments)))).value
      ensures Elems(next.keys) == LeftBehind(old(Elems(next.keys)), old(EditOf(ch, Elems(next.environments))))
    {
      ghost var was, e := ConfigOf(next), EditOf(ch, Elems(next.environments));
      EditOfOther(ch, [], Elems(next.environments));
      assert EditOf(ch, []) == e;
      var ks;
      ks, reason := EditKeys(next.keys, ch);
      assert reason == Reason(KeysEdited(was.keys, e));
      out := next.(keys := ks);
      assert Entries(Elems(next.environments)) == was.environments;
      assert Entries(Elems(next.storage)) == was.storage;
    }

    /** Save: writes the current configuration. */
    method Save(fault: bool) returns (saved: bool)
      requires Valid()
      modifies this`cfg, this`raw, this`baseline, home
      ensures Valid() && saved == (codec.marshal(old(Current())).Some? && !fault)
      ensures if saved then Became(old(Current())) else Untouched() && Current() == old(Current())
    {
      ghost var c := Current();
      var next := Clone();
      assert ConfigOf(next) == c && Current() == c;
      saved := SaveLocked(next, fault);
    }

    /** A copy of the configuration c, changed by the edit e that ch stands for. */
    method ChangedCopy(ch: Change<Row>, ghost c: Config, ghost e: Edit) returns (out: Cfg, reason: Outcome<()>)
      requires Valid() && !OnKeys(ch) && c == Current() && e == EditOf(ch, Stored())
      ensures CfgFits(out) && reason == Reason(Edited(c, e)) && (reason.Done? ==> ConfigOf(out) == Edited(c, e).value)
    {
      var next := Clone();
      assert ConfigOf(next) == c && EditOf(ch, Stored()) == e;
      EditOfAlike(ch, Elems(next.environments), Stored());
      if OnEnvironments(ch) {
        out, reason := RunOnEnvironments(next, ch);
      } else if OnStorage(ch) {
        out, reason := RunOnStorage(next, ch);
      } else {
        out, reason := next.(preferences := ch.preferences), Done(());
      }
    }

    /** Update, for a change of anything but the keys. Nothing that was in memory
        before is written to, whatever becomes of the change. */
    method Update(ch: Change<Row>, fault: bool) returns (r: Result)
      requires Valid() && !OnKeys(ch)
      modifies this`cfg, this`raw, this`baseline, home
      ensures Valid() && r == Expected(Edited(old(Current()), old(EditOf(ch, Stored()))), checks, codec, fault)
      ensures if r.Saved? then Became(Edited(old(Current()), old(EditOf(ch, Stored()))).value)
              else Untouched() && Current() == old(Current())
    {
      ghost var c, e := Current(), EditOf(ch, Stored());
      ghost var edited := Edited(c, e);
      var out, reason := ChangedCopy(ch, c, e);
      assert Current() == c;
      assert reason == Reason(edited) && (reason.Done? ==> ConfigOf(out) == edited.value);
      if !reason.Done? {
        return Refused(reason);
      }
      r := ValidateAndSave(out, fault);
    }

    /** What a change of the keys leaves in memory when it does not come to be saved:
        the keys are worked on where they are, unless they were copied. */
    function Leftover(c: Config, e: Edit): Config
      requires OnKeys(e)
    {
      if copiesKeys then c else c.(keys := LeftBehind(c.keys, e))
    }

    method ChangedKeys(ch: Change<Row>) returns (out: Cfg, reason: Outcome<()>)
      requires Valid() && OnKeys(ch)
      modifies cfg.keys.arr
      ensures CfgFits(out) && reason == Reason(Edited(old(Current()), old(EditOf(ch, Stored()))))
      ensures reason.Done? ==> ConfigOf(out) == Edited(old(Current()), old(EditOf(ch, Stored()))).value
      ensures Elems(cfg.keys) == Leftover(old(Current()), old(EditOf(ch, Stored()))).keys
    {
      ghost var c, e := Current(), EditOf(ch, Stored());
      var next := Clone();
      assert ConfigOf(next) == c && EditOf(ch, Stored()) == e && Elems(cfg.keys) == c.keys;
      EditOfAlike(ch, Elems(next.environments), Stored());
      out, reason := RunOnKeys(next, ch);
    }

    method PrepareKeys(ch: Change<Row>) returns (out: Cfg, reason: Outcome<()>)
      requires Valid() && OnKeys(ch)
      modifies cfg.keys.arr
      ensures CfgFits(out) && reason == Reason(Edited(old(Current()), old(EditOf(ch, Stored()))))
      ensures reason.Done? ==> ConfigOf(out) == Edited(old(Current()), old(EditOf(ch, Stored()))).value
      ensures Current() == Leftover(old(Current()), old(EditOf(ch, Stored())))
    {
      ghost var c := Current();
      out, reason := ChangedKeys(ch);
      assert Current().environments == c.environments && Current().storage == c.storage;
    }

    /** Update, for a change of the keys. */
    method UpdateKeys(ch: Change<Row>, fault: bool) returns (r: Result)
      requires Valid() && OnKeys(ch)
      modifies this`cfg, this`raw, this`baseline, home, cfg.keys.arr
      ensures Valid() && r == Expected(Edited(old(Current()), old(EditOf(ch, Stored()))), checks, codec, fault)
      ensures if r.Saved? then Became(Edited(old(Current()), old(EditOf(ch, Stored()))).value)
              else Untouched() && Current() == Leftover(old(Current()), old(EditOf(ch, Stored())))
    {
      ghost var edited := Edited(Current(), EditOf(ch, Stored()));
      var out, reason := PrepareKeys(ch);
      assert reason == Reason(edited) && (reason.Done? ==> ConfigOf(out) == edited.value);
      if !reason.Done? {
        return Refused(reason);
      }
      r := ValidateAndSave(out, fault);
    }

    /** Load: all of the file, or the cache as it was. */
    method Load(readFails: bool) returns (ok: bool)
      requires Valid()
      modifies this`cfg, this`raw, this`baseline
      ensures Valid() && home.bytes == old(home.bytes)
      ensures ok <==> !readFails && (home.bytes.None? || Sound(home.bytes.value, codec, checks))
      ensures ok ==> Agrees() && if home.bytes.None? then Current() == Config(0, [], [], []) else WellFormed(Current(), checks)
      ensures !ok ==> Untouched() && Current() == old(Current())
    {
      WhenLoadable(home.bytes, codec, checks);
      if readFails || Loadable(home.bytes, codec, checks).None? {
        return false;
      }
      ghost var bytes := home.bytes;
      TakeOn(Loadable(home.bytes, codec, checks).value);
      assert home.bytes == bytes;
      ok := true;
    }

    /** A configuration as read, in arrays of its own. */
    method TakeOn(c: Config)
      requires Valid() && (home.bytes.Some? ==> codec.marshal(c).Some?)
      modifies this`cfg, this`raw, this`baseline
      ensures Valid() && Current() == c && raw == home.bytes == old(home.bytes)
      ensures baseline == if home.bytes.None? then None else codec.marshal(c)
    {
      var bytes := home.bytes;
      var next := CfgOf(c);
      assert ConfigOf(next) == c && home.bytes == bytes;
      Apart(next, home, this);
      cfg, raw, baseline := next, bytes, if bytes.None? then None else codec.marshal(c);
      assert ConfigOf(next) == c;
    }

    /** Rebind: another home folder, read afresh. When that fails the configuration
        of the old folder stays cached, bound to the new one. */
    method Rebind(newHome: File, readFails: bool) returns (ok: bool)
      requires Valid()
      modifies this`home, this`cfg, this`raw, this`baseline
      ensures Valid() && home == newHome && newHome.bytes == old(newHome.bytes)
      ensures ok <==> !readFails && (home.bytes.None? || Sound(home.bytes.value, codec, checks))
      ensures ok ==> Agrees() && if home.bytes.None? then Current() == Config(0, [], [], []) else WellFormed(Current(), checks)
      ensures !ok ==> cfg == old(cfg) && Current() == old(Current()) && raw.None? && baseline.None?
    {
      ghost var c := Current();
      Apart(cfg, home, this);
      home, raw, baseline := newHome, None, None;
      assert Current() == c;
      ok := Load(readFails);
    }

    /** The store and its file, as values. */
    ghost function Now(): Held
      requires Valid()
      reads this, home, Arrays(cfg), Cells(Elems(cfg.environments)), Cells(Elems(cfg.storage))
    {
      Held(Current(), raw, baseline, home.bytes)
    }

    /** What Update and UpdateKeys promise of a change is one step of AfterCall. */
    twostate lemma UpdateIsACall(e: Edit, fault: bool, r: Result)
      requires old(Valid()) && Valid()
      requires r == Expected(Edited(old(Current()), e), checks, codec, fault)
      requires if r.Saved? then Became(Edited(old(Current()), e).value)
               else Untouched() && Current() == if OnKeys(e) then Leftover(old(Current()), e) else old(Current())
      ensures Now() == AfterCall(old(Now()), Call(Some(e), fault), checks, codec, copiesKeys)
    {
    }

    /** And so is what Save promises. */
    twostate lemma SaveIsACall(fault: bool, saved: bool)
      requires old(Valid()) && Valid() && saved == (codec.marshal(old(Current())).Some? && !fault)
      requires if saved then Became(old(Current())) else Untouched() && Current() == old(Current())
      ensures Now() == AfterCall(old(Now()), Call(None, fault), checks, codec, copiesKeys)
    {
    }

    /** Cache and file agree after a save if they did before; and saving what is
        cached already leaves the file as it is, byte for byte. */
    twostate lemma SaveKeepsAgreement(d: Config)
      requires old(Valid()) && Valid() && Lawful(codec) && old(Agrees()) && Became(d)
      ensures Agrees()
      ensures d == old(Current()) && old(raw).Some? ==> home.bytes == old(home.bytes)
    {
      SavingAgrees(codec, old(Current()), old(raw), old(baseline), old(home.bytes), d);
    }
  }

  // ------------------------------------------------------------ over whole runs

  /** The store and its file, as values. */
  datatype Held = Held(c: Config, raw: Option<string>, baseline: Option<string>, bytes: Option<string>)

  /** A call of Update, or of Save when there is no edit, and whether its write fails. */
  datatype Call = Call(edit: Option<Edit>, fault: bool)

  function Made(h: Held, call: Call): Outcome<Config> {
    match call.edit case Some(e) => Edited(h.c, e) case None => Done(h.c)
  }

  /** Save does not validate; Update does. */
  predicate IsSaved(h: Held, call: Call, checks: Checks, codec: Codec) {
    match call.edit
    case Some(e) => Expected(Edited(h.c, e), checks, codec, call.fault).Saved?
    case None => codec.marshal(h.c).Some? && !call.fault
  }

  /** What Update, UpdateKeys and Save say they do, together. */
  function AfterCall(h: Held, call: Call, checks: Checks, codec: Codec, copiesKeys: bool): Held {
    if IsSaved(h, call, checks, codec) then
      var d := Made(h, call).value;
      var out := codec.marshal(d);
      var body := Some(Body(out.value, h.raw, h.baseline));
      Held(d, body, out, body)
    else if call.edit.Some? && OnKeys(call.edit.value) && !copiesKeys then
      h.(c := h.c.(keys := LeftBehind(h.c.keys, call.edit.value)))
    else h
  }

  function AfterCalls(h: Held, run: seq<Call>, checks: Checks, codec: Codec, copiesKeys: bool): Held {
    if run == [] then h
    else AfterCall(AfterCalls(h, run[..|run| - 1], checks, codec, copiesKeys), run[|run| - 1], checks, codec, copiesKeys)
  }

  /** The call was saved, or left what is cached as it was. */
  predicate KeepsMemory(h: Held, call: Call, checks: Checks, codec: Codec, copiesKeys: bool) {
    IsSaved(h, call, checks, codec) || AfterCall(h, call, checks, codec, copiesKeys).c == h.c
  }

  predicate AllKeepMemory(h: Held, run: seq<Call>, checks: Checks, codec: Codec, copiesKeys: bool) {
    run == []
    || (AllKeepMemory(h, run[..|run| - 1], checks, codec, copiesKeys)
        && KeepsMemory(AfterCalls(h, run[..|run| - 1], checks, codec, copiesKeys), run[|run| - 1], checks, codec, copiesKeys))
  }

  ghost predicate HeldAgrees(h: Held, codec: Codec) {
    AgreesWith(codec, h.c, h.raw, h.baseline, h.bytes)
  }

  /** A call keeps cache and file in agreement if and only if it was saved or left
      what is cached as it was; see WhenKeysAreLeftAlone for when it does not. */
  lemma WhenACallKeepsAgreement(h: Held, call: Call, checks: Checks, codec: Codec, copiesKeys: bool)
    requires Lawful(codec) && HeldAgrees(h, codec)
    ensures HeldAgrees(AfterCall(h, call, checks, codec, copiesKeys), codec) <==> KeepsMemory(h, call, checks, codec, copiesKeys)
    ensures copiesKeys || call.edit.None? || !OnKeys(call.edit.value) ==> KeepsMemory(h, call, checks, codec, copiesKeys)
  {
    if IsSaved(h, call, checks, codec) {
      SavingAgrees(codec, h.c, h.raw, h.baseline, h.bytes, Made(h, call).value);
    }
  }

  /** With nobody else writing the file, what is cached is what the file says after
      any run of updates and saves, whatever faults they meet: with the keys copied
      like the rest always, and otherwise if no edit of the keys that was not saved
      moved them. */
  lemma {:induction false} CacheAndFileAgree(h: Held, run: seq<Call>, checks: Checks, codec: Codec, copiesKeys: bool)
    requires Lawful(codec) && HeldAgrees(h, codec)
    requires copiesKeys || AllKeepMemory(h, run, checks, codec, copiesKeys)
    ensures HeldAgrees(AfterCalls(h, run, checks, codec, copiesKeys), codec)
  {
    if run != [] {
      var before := run[..|run| - 1];
      CacheAndFileAgree(h, before, checks, codec, copiesKeys);
      WhenACallKeepsAgreement(AfterCalls(h, before, checks, codec, copiesKeys), run[|run| - 1], checks, codec, copiesKeys);
    }
  }

  /** Saving a cache nobody changed leaves the bytes of the file as they were. */
  lemma UnchangedSaveKeepsTheBytes(h: Held, checks: Checks, codec: Codec, copiesKeys: bool, fault: bool)
    requires Lawful(codec) && HeldAgrees(h, codec) && h.raw.Some?
    ensures AfterCall(h, Call(None, fault), checks, codec, copiesKeys) == h
  {
    if codec.marshal(h.c).Some? {
      SavingAgrees(codec, h.c, h.raw, h.baseline, h.bytes, h.c);
    }
  }

  // ------------------------------------------------------ a failed edit of the keys

  /** A refused or unsaved edit of the keys leaves them as they were exactly when it
      was refused, or added one, or saved one over itself, or deleted the last. */
  lemma WhenKeysAreLeftAlone(ks: seq<Key>, e: Edit)
    requires OnKeys(e) && Distinct(KeyNames(ks))
    ensures LeftBehind(ks, e) == ks <==>
            || !KeysEdited(ks, e).Done?
            || e.AddKey?
            || (e.SaveKey? && ks[IndexOf(KeyNames(ks), e.original)] == e.k)
            || (e.DeleteKey? && ks[|ks| - 1].name == e.name)
  {
    if KeysEdited(ks, e).Done? {
      match e
      case AddKey(_) =>
      case SaveKey(original, k) => ReplacedIsSame(ks, IndexOf(KeyNames(ks), original), k);
      case DeleteKey(name) =>
        var i := DeletionLeaves(ks, name);
        LastByName(ks, i);
        ShiftedIsSame(ks, i);
    }
  }

  lemma ReplacedIsSame(ks: seq<Key>, i: nat, k: Key)
    requires i < |ks|
    ensures ks[i := k] == ks <==> ks[i] == k
  {
    assert ks[i := k][i] == k;
  }

  lemma LastByName(ks: seq<Key>, i: nat)
    requires Distinct(KeyNames(ks)) && i < |ks|
    ensures ks[|ks| - 1].name == ks[i].name <==> i == |ks| - 1
  {
    assert KeyNames(ks)[|ks| - 1] == ks[|ks| - 1].name && KeyNames(ks)[i] == ks[i].name;
  }

  /** Moving the keys behind one up, and repeating the last, is the same list only for
      the last. */
  lemma ShiftedIsSame(ks: seq<Key>, i: nat)
    requires Distinct(KeyNames(ks)) && i < |ks|
    ensures Without(ks, i) + [ks[|ks| - 1]] == ks <==> i == |ks| - 1
  {
    var left := Without(ks, i) + [ks[|ks| - 1]];
    if i < |ks| - 1 {
      assert left[i] == ks[i + 1];
      assert KeyNames(ks)[i] != KeyNames(ks)[i + 1];
    } else {
      assert left == ks;
    }
  }

  /** The edit is accepted and moves keys that stand there: it saves one over another
      that is not the same, or deletes any but the last. */
  predicate MovesKeys(ks: seq<Key>, e: Edit)
    requires OnKeys(e)
  {
    && KeysEdited(ks, e).Done?
    && ((e.SaveKey? && ks[IndexOf(KeyNames(ks), e.original)] != e.k) || (e.DeleteKey? && ks[|ks| - 1].name != e.name))
  }

  /** A call that changes the cache and not the file: an accepted edit that moves keys,
      and whose write fails, or whose outcome is not well formed or cannot be encoded. */
  ghost predicate Strays(c: Config, call: Call, checks: Checks, codec: Codec) {
    call.edit.Some? && OnKeys(call.edit.value) && MovesKeys(c.keys, call.edit.value)
    && var d := c.(keys := KeysEdited(c.keys, call.edit.value).value);
       call.fault || !WellFormed(d, checks) || codec.marshal(d).None?
  }

  /** What an update answers: the refusal of its edit; that what it makes is not well formed;
      that it was not written; or that it was saved. */
  lemma WhatIsAnswered(edited: Outcome<Config>, checks: Checks, codec: Codec, fault: bool)
    ensures var r := Expected(edited, checks, codec, fault);
            match edited
            case NotFound => r == Refused(NotFound)
            case Exists => r == Refused(Exists)
            case InUse => r == Refused(InUse)
            case Done(d) =>
              if !WellFormed(d, checks) then r == Invalid(Problems(d, checks)) && r.problems != []
              else if codec.marshal(d).None? || fault then r == NotWritten
              else r == Saved
  {
    if edited.Done? { NoProblems(edited.value, checks); }
  }

  lemma WhenFateIsSaved(d: Config, checks: Checks, codec: Codec, fault: bool)
    ensures Fate(d, checks, codec, fault).Saved? <==> !fault && WellFormed(d, checks) && codec.marshal(d).Some?
  {
    NoProblems(d, checks);
  }

  lemma EditedByKeys(c: Config, e: Edit)
    requires OnKeys(e)
    ensures Edited(c, e).Done? <==> KeysEdited(c.keys, e).Done?
    ensures Edited(c, e).Done? ==> Edited(c, e).value == c.(keys := KeysEdited(c.keys, e).value)
  {
    assert !OnEnvironments(e) && !OnStorage(e);
    LiftedKeys(c, KeysEdited(c.keys, e));
  }

  lemma LiftedKeys(c: Config, o: Outcome<seq<Key>>)
    ensures var l := Lift(o, ks => c.(keys := ks)); (l.Done? <==> o.Done?) && (o.Done? ==> l.value == c.(keys := o.value))
  {
  }

  /** Whether a call is an edit of the keys that is saved. */
  lemma WhenKeysAreSaved(h: Held, e: Edit, fault: bool, checks: Checks, codec: Codec)
    requires OnKeys(e)
    ensures IsSaved(h, Call(Some(e), fault), checks, codec) <==>
            KeysEdited(h.c.keys, e).Done? && !fault
            && var d := h.c.(keys := KeysEdited(h.c.keys, e).value); WellFormed(d, checks) && codec.marshal(d).Some?
  {
    EditedByKeys(h.c, e);
    if KeysEdited(h.c.keys, e).Done? {
      WhenFateIsSaved(h.c.(keys := KeysEdited(h.c.keys, e).value), checks, codec, fault);
    }
  }

  /** With the keys shared, a call keeps cache and file in agreement exactly when it does
      not stray; and then it was saved or left the cache as it was. */
  lemma WhenACallStrays(h: Held, call: Call, checks: Checks, codec: Codec)
    requires Lawful(codec) && HeldAgrees(h, codec) && Distinct(KeyNames(h.c.keys))
    ensures KeepsMemory(h, call, checks, codec, false) <==> !Strays(h.c, call, checks, codec)
    ensures HeldAgrees(AfterCall(h, call, checks, codec, false), codec) <==> !Strays(h.c, call, checks, codec)
  {
    WhenACallKeepsAgreement(h, call, checks, codec, false);
    if call.edit.Some? && OnKeys(call.edit.value) {
      WhenAKeyEditStrays(h, call.edit.value, call.fault, checks, codec);
    }
  }

  lemma WhenAKeyEditStrays(h: Held, e: Edit, fault: bool, checks: Checks, codec: Codec)
    requires OnKeys(e) && Distinct(KeyNames(h.c.keys))
    ensures KeepsMemory(h, Call(Some(e), fault), checks, codec, false) <==> !Strays(h.c, Call(Some(e), fault), checks, codec)
  {
    WhenKeysAreSaved(h, e, fault, checks, codec);
    WhenKeysMove(h.c.keys, e);
    if !IsSaved(h, Call(Some(e), fault), checks, codec) {
      UnsavedKeys(h, e, fault, checks, codec);
    }
  }

  lemma WhenKeysMove(ks: seq<Key>, e: Edit)
    requires OnKeys(e) && Distinct(KeyNames(ks))
    ensures LeftBehind(ks, e) == ks <==> !MovesKeys(ks, e)
  {
    WhenKeysAreLeftAlone(ks, e);
  }

  lemma UnsavedKeys(h: Held, e: Edit, fault: bool, checks: Checks, codec: Codec)
    requires OnKeys(e) && !IsSaved(h, Call(Some(e), fault), checks, codec)
    ensures KeepsMemory(h, Call(Some(e), fault), checks, codec, false) <==> LeftBehind(h.c.keys, e) == h.c.keys
  {
    var c := h.c.(keys := LeftBehind(h.c.keys, e));
    assert AfterCall(h, Call(Some(e), fault), checks, codec, false).c == c;
    assert c == h.c <==> c.keys == h.c.keys;
  }

  ghost predicate NoneStrays(h: Held, run: seq<Call>, checks: Checks, codec: Codec) {
    run == []
    || (NoneStrays(h, run[..|run| - 1], checks, codec)
        && !Strays(AfterCalls(h, run[..|run| - 1], checks, codec, false).c, run[|run| - 1], checks, codec))
  }

  /** Cache and file agree after every call of the run. */
  ghost predicate AgreeThroughout(h: Held, run: seq<Call>, checks: Checks, codec: Codec) {
    HeldAgrees(AfterCalls(h, run, checks, codec, false), codec)
    && (run == [] || AgreeThroughout(h, run[..|run| - 1], checks, codec))
  }

  /** What is saved is well formed, and so no call that does not stray leaves a cache
      that is not. */
  lemma StaysWellFormed(h: Held, call: Call, checks: Checks, codec: Codec)
    requires WellFormed(h.c, checks) && KeepsMemory(h, call, checks, codec, false)
    ensures WellFormed(AfterCall(h, call, checks, codec, false).c, checks)
  {
    if IsSaved(h, call, checks, codec) && call.edit.Some? {
      NoProblems(Made(h, call).value, checks);
    }
  }

  /** Over any run of updates and saves of the code as it stands, cache and file agree
      throughout if and only if no call strays. */
  lemma {:induction false} WhenCacheAndFileAgree(h: Held, run: seq<Call>, checks: Checks, codec: Codec)
    requires Lawful(codec) && HeldAgrees(h, codec) && NameIsNeeded(checks) && WellFormed(h.c, checks)
    ensures AgreeThroughout(h, run, checks, codec) <==> NoneStrays(h, run, checks, codec)
    ensures NoneStrays(h, run, checks, codec) ==> WellFormed(AfterCalls(h, run, checks, codec, false).c, checks)
  {
    if run != [] {
      var before, last := run[..|run| - 1], run[|run| - 1];
      WhenCacheAndFileAgree(h, before, checks, codec);
      if NoneStrays(h, before, checks, codec) {
        var m := AfterCalls(h, before, checks, codec, false);
        WellFormedIsUnique(m.c, checks);
        WhenACallStrays(m, last, checks, codec);
        if !Strays(m.c, last, checks, codec) {
          StaysWellFormed(m, last, checks, codec);
        }
      }
    }
  }

  /** A deletion that is not saved leaves the last key standing twice, unless it was
      the one deleted. */
  lemma FailedDeletionRepeatsAKey(ks: seq<Key>, name: string)
    requires Distinct(KeyNames(ks)) && name in KeyNames(ks) && ks[|ks| - 1].name != name
    ensures !Distinct(KeyNames(LeftBehind(ks, DeleteKey(name))))
  {
    var left := LeftBehind(ks, DeleteKey(name));
    assert KeyNames(left)[|left| - 2] == KeyNames(left)[|left| - 1];
  }

  /** A key with a name stands last and once more right before. */
  predicate LastStandsTwice(ks: seq<Key>) {
    |ks| >= 2 && ks[|ks| - 1].name != "" && ks[|ks| - 1].name == ks[|ks| - 2].name
  }

  lemma LastIsLeftTwice(ks: seq<Key>, name: string)
    requires name in KeyNames(ks) && ks[|ks| - 1].name !in {name, ""}
    ensures |LeftBehind(ks, DeleteKey(name))| == |ks| && LastStandsTwice(LeftBehind(ks, DeleteKey(name)))
  {
    var i := DeletionLeaves(ks, name);
    LastOfWithout(ks, i);
  }

  lemma DeletionLeaves(ks: seq<Key>, name: string) returns (i: nat)
    requires name in KeyNames(ks)
    ensures i < |ks| && ks[i].name == name && LeftBehind(ks, DeleteKey(name)) == Without(ks, i) + [ks[|ks| - 1]]
  {
    i := IndexOf(KeyNames(ks), name);
    assert KeyNames(ks)[i] == name;
  }

  lemma LastOfWithout<T>(s: seq<T>, i: nat)
    requires i < |s| - 1
    ensures |Without(s, i)| == |s| - 1 && Without(s, i)[|s| - 2] == s[|s| - 1]
  {
  }

  /** Then every edit of anything but keys that is not refused by itself is rejected
      as invalid, for the last key's name. */
  lemma RepeatBlocksEdits(c: Config, e: Edit, checks: Checks, codec: Codec, fault: bool)
    requires LastStandsTwice(c.keys) && !OnKeys(e)
    ensures var r := Expected(Edited(c, e), checks, codec, fault);
            if Edited(c, e).Done? then r.Invalid? && SameName(Keys, |c.keys| - 1, |c.keys| - 2) in r.problems
            else r == Refused(Reason(Edited(c, e)))
  {
    if Edited(c, e).Done? {
      OtherEditKeepsKeys(c, e);
      LastTwiceIsAProblem(Edited(c, e).value, checks);
    }
  }

  lemma FailedDeletion(h: Held, name: string, checks: Checks, codec: Codec)
    requires name in KeyNames(h.c.keys) && h.c.keys[|h.c.keys| - 1].name !in {name, ""}
    ensures var left := AfterCall(h, Call(Some(DeleteKey(name)), true), checks, codec, false);
            left.bytes == h.bytes && LastStandsTwice(left.c.keys)
  {
    LastIsLeftTwice(h.c.keys, name);
  }

  lemma {:induction false} NothingIsSaved(h: Held, run: seq<Call>, checks: Checks, codec: Codec, copiesKeys: bool)
    requires LastStandsTwice(h.c.keys) && forall call :: call in run ==> call.edit.Some? && !OnKeys(call.edit.value)
    ensures AfterCalls(h, run, checks, codec, copiesKeys) == h
  {
    if run != [] {
      var last := run[|run| - 1];
      NothingIsSaved(h, run[..|run| - 1], checks, codec, copiesKeys);
      assert last in run;
      RepeatBlocksEdits(h.c, last.edit.value, checks, codec, last.fault);
    }
  }

  /** After a deletion that failed to be written, of any key but the last, no update of
      anything but keys is saved any more, however many are tried, until the file is
      read again: each is turned down, for the name that now stands twice. */
  lemma FailedDeletionBlocksEdits(h: Held, name: string, run: seq<Call>, checks: Checks, codec: Codec)
    requires name in KeyNames(h.c.keys) && h.c.keys[|h.c.keys| - 1].name !in {name, ""}
    requires forall call :: call in run ==> call.edit.Some? && !OnKeys(call.edit.value)
    ensures var left := AfterCall(h, Call(Some(DeleteKey(name)), true), checks, codec, false);
            LastStandsTwice(left.c.keys) && left.bytes == h.bytes && AfterCalls(left, run, checks, codec, false) == left
  {
    FailedDeletion(h, name, checks, codec);
    NothingIsSaved(AfterCall(h, Call(Some(DeleteKey(name)), true), checks, codec, false), run, checks, codec, false);
  }

  lemma OtherEditKeepsKeys(c: Config, e: Edit)
    requires !OnKeys(e) && Edited(c, e).Done?
    ensures Edited(c, e).value.keys == c.keys
  {
  }

  lemma LastTwiceIsAProblem(c: Config, checks: Checks)
    requires LastStandsTwice(c.keys)
    ensures SameName(Keys, |c.keys| - 1, |c.keys| - 2) in Problems(c, checks)
  {
    ProblemsAreTold(c, checks, SameName(Keys, |c.keys| - 1, |c.keys| - 2));
  }
}
