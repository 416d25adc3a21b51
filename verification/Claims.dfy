/** The advisory lock on the home folder: who holds it, how a claim is taken and
    given back. Conflicts are between open file descriptions, not processes. */
module Claims {
  import opened Prelude

  /** An open file description of the lock file. */
  type Handle = nat

  datatype Mode = Shared | Exclusive

  type Table = map<Handle, Mode>

  /** What the kernel grants without waiting: a shared claim beside shared ones,
      an exclusive claim beside none, the claimant's own other handles included. */
  predicate Grants(held: Table, mode: Mode) {
    match mode
    case Shared => forall h :: h in held ==> held[h].Shared?
    case Exclusive => held == map[]
  }

  /** An exclusive claim never coexists with another claim. */
  ghost predicate Exclusion(held: Table) {
    forall a, b :: a in held && b in held && held[a].Exclusive? ==> a == b
  }

  /** A claim is granted exactly when that keeps every exclusive one alone. */
  lemma GrantKeepsExclusion(held: Table, h: Handle, mode: Mode)
    requires Exclusion(held) && h !in held
    ensures Grants(held, mode) <==> Exclusion(held[h := mode])
  {
    var all := held[h := mode];
    if Exclusion(all) {
      assert forall a :: a in held ==> a in all && a != h && all[a] == held[a];
      assert h in all && all[h] == mode;
    }
  }

  class Kernel {
    var held: Table
    var handles: nat

    ghost predicate Valid()
      reads this
    {
      Exclusion(held) && forall h :: h in held ==> h < handles
    }

    constructor ()
      ensures Valid() && held == map[]
    {
      held, handles := map[], 0;
    }
  }

  class Lock {
    const kernel: Kernel
    const mode: Mode
    var file: Option<Handle>

    ghost predicate Valid()
      reads this, kernel
    {
      kernel.Valid() && (file.Some? ==> file.value in kernel.held && kernel.held[file.value] == mode)
    }

    constructor (kernel: Kernel, mode: Mode, h: Handle)
      ensures this.kernel == kernel && this.mode == mode && file == Some(h)
    {
      this.kernel, this.mode, file := kernel, mode, Some(h);
    }

    /** Gives the claim back. A second release finds nothing to give. */
    method Release()
      requires Valid()
      modifies this`file, kernel`held
      ensures Valid() && file == None
      ensures kernel.held == match old(file) case Some(h) => old(kernel.held) - {h} case None => old(kernel.held)
    {
      if file.Some? {
        kernel.held := kernel.held - {file.value};
        file := None;
      }
    }
  }

  /** Opens the lock file afresh and asks for the claim. Without a fault, which only a
      faulty system meets, the claim is won exactly when the kernel grants it; a refusal
      changes nothing. */
  method Acquire(kernel: Kernel, mode: Mode, faulty: bool) returns (l: Lock?, fault: bool)
    requires kernel.Valid()
    modifies kernel
    ensures kernel.Valid() && (l != null ==> fresh(l) && l.Valid() && l.kernel == kernel && l.mode == mode)
    ensures (l != null <==> !fault && Grants(old(kernel.held), mode)) && (fault ==> faulty)
    ensures l != null ==> l.file.Some? && l.file.value !in old(kernel.held)
                          && kernel.held == old(kernel.held)[l.file.value := mode]
    ensures l == null ==> kernel.held == old(kernel.held)
  {
    l, fault := null, *;
    fault := fault && faulty;
    if fault {
      return;
    }
    var h := kernel.handles;
    kernel.handles := h + 1;
    if Grants(kernel.held, mode) {
      GrantKeepsExclusion(kernel.held, h, mode);
      kernel.held := kernel.held[h := mode];
      l := new Lock(kernel, mode, h);
    }
  }

  /** Runs the housekeeping only while nobody else holds the folder, and gives the
      claim back. `during` is the table the housekeeping runs under. */
  method Sweep(kernel: Kernel, faulty: bool) returns (ran: bool, fault: bool, ghost during: Table)
    requires kernel.Valid()
    modifies kernel
    ensures kernel.Valid() && kernel.held == old(kernel.held)
    ensures (ran <==> !fault && old(kernel.held) == map[]) && (fault ==> faulty)
    ensures ran ==> |during| == 1 && forall h :: h in during ==> during[h] == Exclusive
  {
    during := kernel.held;
    var l;
    l, fault := Acquire(kernel, Exclusive, faulty);
    ran := l != null;
    if l != null {
      during := kernel.held;
      l.Release();
    }
  }

  /** Housekeeping first, then the claim, as every command and the window begin: the
      sweep that ran is never in the way of the claim, and no other process's claim
      is touched. */
  method SweepThenHold(kernel: Kernel, mode: Mode, faulty: bool) returns (l: Lock?, ran: bool, faults: (bool, bool))
    requires kernel.Valid()
    modifies kernel
    ensures kernel.Valid() && (l != null ==> fresh(l) && l.Valid() && l.kernel == kernel && l.mode == mode && l.file.Some?)
    ensures (ran <==> !faults.0 && old(kernel.held) == map[]) && (faults.0 || faults.1 ==> faulty)
    ensures l != null <==> !faults.1 && Grants(old(kernel.held), mode)
    ensures kernel.held == if l == null then old(kernel.held) else old(kernel.held)[l.file.value := mode]
  {
    var sweepFault, claimFault;
    ghost var during;
    ran, sweepFault, during := Sweep(kernel, faulty);
    l, claimFault := Acquire(kernel, mode, faulty);
    faults := (sweepFault, claimFault);
  }

  /** The other order never sweeps at all: a process that holds the folder, even
      shared, is in its own way, for the sweep asks through a handle of its own. */
  method HoldThenSweep(kernel: Kernel, mode: Mode, faulty: bool) returns (l: Lock?, ran: bool)
    requires kernel.Valid()
    modifies kernel
    ensures kernel.Valid() && (l != null ==> fresh(l) && l.Valid() && l.kernel == kernel && l.mode == mode && l.file.Some?)
    ensures !ran && (!faulty && Grants(old(kernel.held), mode) ==> l != null)
    ensures kernel.held == if l == null then old(kernel.held) else old(kernel.held)[l.file.value := mode]
  {
    var fault;
    l, fault := Acquire(kernel, mode, faulty);
    ran := false;
    if l != null {
      ghost var during;
      assert l.file.value in kernel.held;
      ran, fault, during := Sweep(kernel, faulty);
    }
  }
}
