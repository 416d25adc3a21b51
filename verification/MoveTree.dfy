/** The move itself, step by step, on a file system any step of which may fail
    and any step of which a crash may follow. */
module MoveTree {
  import opened Prelude
  import opened Paths
  import opened Links
  import opened Relocation
  import opened CopyWalk

  /** All the files are read at the source, or all are read at the destination. */
  ghost predicate Kept(fs: Tree, src: Path, dst: Path, files: Files) {
    Holds(fs, src, files) || Holds(fs, dst, files)
  }

  ghost predicate NeverLost(states: seq<Tree>, src: Path, dst: Path, files: Files) {
    forall k :: 0 <= k < |states| ==> Kept(states[k], src, dst, files)
  }

  ghost predicate AllSameOutside(start: Tree, states: seq<Tree>, root: Path) {
    forall k :: 0 <= k < |states| ==> SameOutside(start, states[k], root)
  }

  lemma OneMoreOutside(start: Tree, trace: seq<Tree>, next: Tree, n: nat, root: Path)
    requires n <= |trace| && AllSameOutside(start, trace[n..], root) && SameOutside(start, next, root)
    ensures AllSameOutside(start, (trace + [next])[n..], root)
  {
    assert (trace + [next])[n..] == trace[n..] + [next];
  }

  /** Steps at and below a target are steps at and below a root above it. */
  lemma StepsBelow(start: Tree, before: Tree, states: seq<Tree>, trace: seq<Tree>, n: nat, target: Path, root: Path)
    requires n <= |states| && states <= trace && root <= target
    requires AllSameOutside(start, states[n..], root) && SameOutside(start, before, root)
    requires AllSameOutside(before, trace[|states|..], target)
    ensures AllSameOutside(start, trace[n..], root)
    ensures forall t :: SameOutside(before, t, target) ==> SameOutside(start, t, root)
  {
    assert trace[n..] == states[n..] + trace[|states|..];
  }

  lemma EntryKeepsRooted(fs: Tree, p: Path, node: Node)
    requires Rooted(fs) && p != [] && Parent(p) in fs && fs[Parent(p)].Dir? && (p in fs && fs[p].Dir? ==> node.Dir?)
    ensures Rooted(fs[p := node])
  {
  }

  // ---------------------------------------------------- what the states of a move hold

  /** The tree before the move, with its source, destination and files. */
  ghost predicate Given(fs: Tree, src: Path, dst: Path, files: Files) {
    Ready(fs, src, dst) && HasFolder(fs, src) && HasFolder(fs, dst) && IsHome(fs, src, files)
  }

  lemma AcceptedIsReady(fs: Tree, src: Path, given: string, files: Files)
    requires Rooted(fs) && CleanPath(src) && IsHome(fs, src, files) && CheckDestination(fs, src, given).None?
    ensures Given(fs, src, Clean(given), files)
  {
    AcceptedDestinations(fs, src, given);
    ReadyHasFolders(fs, src, Clean(given));
  }

  lemma SourceIsNeverLost(start: Tree, states: seq<Tree>, src: Path, dst: Path, files: Files)
    requires Given(start, src, dst, files) && AllSameOutside(start, states, EntryOf(start, dst))
    ensures NeverLost(states, src, dst, files)
  {
    forall k | 0 <= k < |states| ensures Kept(states[k], src, dst, files) {
      SourceStillHolds(start, states[k], src, dst, files);
    }
  }

  lemma NeverLostTogether(a: seq<Tree>, b: seq<Tree>, src: Path, dst: Path, files: Files)
    requires NeverLost(a, src, dst, files) && NeverLost(b, src, dst, files)
    ensures NeverLost(a + b, src, dst, files)
  {
  }

  /** The files, with the folders that lead to them, and no others stand at a root. */
  ghost predicate Stands(fs: Tree, root: Path, files: Files) {
    root in fs && fs[root].Dir? && ExactlyAt(fs, root, files) && TreeIn(fs, root, files)
  }

  lemma SafeStands(start: Tree, src: Path, dst: Path, files: Files)
    requires Given(start, src, dst, files) && IsSafe(start, src, dst)
    ensures Stands(start, EntryOf(start, src), files)
  {
    FoundInAFolder(start, src);
    WholeIsTree(start, EntryOf(start, src), files);
  }

  lemma StandsOutside(a: Tree, b: Tree, root: Path, other: Path, files: Files)
    requires Stands(a, other, files) && SameOutside(a, b, root) && Apart(root, other)
    ensures Stands(b, other, files)
  {
    OutsideKeepsWhole(a, b, root, other, files);
    TreeOutside(a, b, root, other, files);
  }

  /** What stands at the destination is read there, as long as the way to it avoids the
      source. */
  lemma StandingIsHeld(start: Tree, now: Tree, src: Path, dst: Path, files: Files)
    requires Given(start, src, dst, files) && Avoids(WayTo(start, dst), EntryOf(start, src))
    requires Beside(start, now, EntryOf(start, src), EntryOf(start, dst)) && Stands(now, EntryOf(start, dst), files)
    ensures Holds(now, dst, files)
  {
    if files != map[] {
      DestinationHolds(start, now, src, dst, files);
    }
  }

  /** Nothing has changed but at and below two roots. */
  ghost predicate Beside(start: Tree, now: Tree, a: Path, b: Path) {
    forall x :: !(a <= x) && !(b <= x) ==> (x in now <==> x in start) && (x in now ==> now[x] == start[x])
  }

  lemma MirrorStands(start: Tree, s: Path, mid: Tree, d: Path, now: Tree, files: Files)
    requires Stands(start, s, files) && Mirror(start, s, mid, d) && SameOutside(mid, now, s) && Apart(s, d)
    ensures Stands(now, d, files)
  {
    MirrorIsExact(start, s, mid, d, files);
    assert MirrorAt(start, s, mid, d, []) && s + [] == s && d + [] == d;
    StandsOutside(mid, now, s, d, files);
  }

  lemma RenameStands(cleared: Tree, s: Path, d: Path, files: Files)
    requires Stands(cleared, s, files) && Apart(s, d)
    ensures var now := Rename(cleared, s, d); Stands(now, d, files) && Vacant(now, s) && Beside(cleared, now, s, d)
  {
    RenameCarriesEverything(cleared, s, d, files);
    RenameCarriesTree(cleared, s, d, files);
    assert s + [] == s && d + [] == d;
    Renamed(cleared, s, d, []);
  }

  lemma MirrorIsExact(a: Tree, p: Path, b: Tree, t: Path, files: Files)
    requires ExactlyAt(a, p, files) && TreeIn(a, p, files) && Mirror(a, p, b, t)
    ensures ExactlyAt(b, t, files) && TreeIn(b, t, files)
  {
    forall rel | rel in files ensures StandsIn(b, t, rel, files[rel]) {
      assert StandsIn(a, p, rel, files[rel]) && MirrorAt(a, p, b, t, rel);
      forall i | 0 <= i < |rel| ensures t + rel[..i] in b && b[t + rel[..i]].Dir? {
        assert MirrorAt(a, p, b, t, rel[..i]);
      }
    }
    forall q | q in b && t <= q && b[q].File? ensures q[|t|..] in files {
      var rel := q[|t|..];
      assert t + rel == q && MirrorAt(a, p, b, t, rel);
      assert p <= p + rel && (p + rel)[|p|..] == rel;
    }
  }

  lemma TreeOutside(a: Tree, b: Tree, root: Path, h: Path, files: Files)
    requires TreeIn(a, h, files) && SameOutside(a, b, root) && Apart(root, h)
    ensures TreeIn(b, h, files)
  {
    forall rel | rel in files ensures StandsIn(b, h, rel, files[rel]) {
      assert StandsIn(a, h, rel, files[rel]);
      forall i | 0 <= i <= |rel| ensures !(root <= h + rel[..i]) {
        ApartBelow(root, h, h + rel[..i]);
      }
      assert h + rel[..|rel|] == h + rel;
    }
  }

  /** Clearing the destination removes one entry with nothing below it. */
  lemma Cleared(fs: Tree, d: Path, limit: nat)
    requires Rooted(fs) && Bounded(fs, limit) && NothingBelow(fs, d) && d != [] && Parent(d) in fs && fs[Parent(d)].Dir?
    ensures var cleared := fs - {d};
            Rooted(cleared) && Bounded(cleared, limit) && Vacant(cleared, d) && SameOutside(fs, cleared, d)
            && Parent(d) in cleared && cleared[Parent(d)].Dir?
  {
    forall p | p in fs - {d} && p != [] ensures Parent(p) != d {
      assert Parent(p) == d ==> d < p;
    }
    forall p | p in fs - {d} ensures !(d <= p) {
      assert d <= p ==> d < p || d == p;
    }
  }

  lemma RenameIsSafe(start: Tree, cleared: Tree, src: Path, dst: Path, files: Files)
    requires Given(start, src, dst, files) && cleared == start - {EntryOf(start, dst)} && IsSafe(start, src, dst)
    requires EntryOf(start, src) in cleared && !(EntryOf(start, src) <= EntryOf(start, dst))
    ensures var s, d := EntryOf(start, src), EntryOf(start, dst); var now := Rename(cleared, s, d);
            Stands(now, d, files) && Vacant(now, s) && Holds(now, dst, files)
  {
    var s, d := EntryOf(start, src), EntryOf(start, dst);
    SafeIsApart(start, src, dst, files);
    assert s < Parent(d) ==> s <= d;
    SafeStands(start, src, dst, files);
    StandsOutside(start, cleared, d, s, files);
    RenameStands(cleared, s, d, files);
    StandingIsHeld(start, Rename(cleared, s, d), src, dst, files);
  }

  lemma RenameLoses(start: Tree, cleared: Tree, src: Path, dst: Path, files: Files)
    requires Given(start, src, dst, files) && cleared == start - {EntryOf(start, dst)} && files != map[]
    requires EntryOf(start, src) in cleared && !(EntryOf(start, src) <= EntryOf(start, dst))
    requires !Avoids(WayTo(start, dst), EntryOf(start, src))
    ensures var now := Rename(cleared, EntryOf(start, src), EntryOf(start, dst)); !Holds(now, src, files) && !Holds(now, dst, files)
  {
    var s, d := EntryOf(start, src), EntryOf(start, dst);
    SafeIsApart(start, src, dst, files);
    var x :| x in WayTo(start, dst) && s <= x;
    RenameEmpties(cleared, s, d);
    NeitherHolds(start, Rename(cleared, s, d), src, dst, files);
  }

  lemma RenameEmpties(a: Tree, s: Path, d: Path)
    requires !(s <= d) && !(d <= s)
    ensures Vacant(Rename(a, s, d), s)
  {
    forall p | p in Rename(a, s, d) ensures !(s <= p) {
      if d <= p {
        ApartBelow(s, d, p);
      }
    }
  }

  /** What a copy that came to its end has made of a tree. */
  ghost predicate IsCopy(a: Tree, b: Tree, s: Path, d: Path) {
    && s in a && d != [] && !(a[s].Dir? && s < Parent(d))
    && (Fresh(a, s, d, s) ==> Mirror(a, s, b, d))
  }

  /** The states of a copy and then of a removal, `k` of them before `mid` or at it. */
  ghost predicate InTwoParts(a: Tree, trace: seq<Tree>, n: nat, k: nat, mid: Tree, s: Path, d: Path) {
    && n <= k <= |trace| && AllSameOutside(a, trace[n..k], d) && SameOutside(a, mid, d)
    && AllSameOutside(mid, trace[k..], s)
  }

  lemma TwoParts(a: Tree, before: seq<Tree>, trace: seq<Tree>, n: nat, mid: Tree, s: Path, d: Path)
    requires n <= |before| && before <= trace && AllSameOutside(a, before[n..], d) && SameOutside(a, mid, d)
    requires AllSameOutside(mid, trace[|before|..], s)
    ensures InTwoParts(a, trace, n, |before|, mid, s, d)
  {
    assert trace[n..|before|] == before[n..];
  }

  /** After a copy, in whatever state the removal of the source is. */
  ghost predicate IsCopied(start: Tree, mid: Tree, now: Tree, s: Path, d: Path) {
    SameOutside(start - {d}, mid, d) && SameOutside(mid, now, s) && IsCopy(start - {d}, mid, s, d)
  }

  lemma CopyStands(start: Tree, mid: Tree, now: Tree, s: Path, d: Path, files: Files)
    requires Stands(start, s, files) && NothingBelow(start, d) && Apart(s, d) && IsCopied(start, mid, now, s, d)
    ensures Stands(now, d, files) && Beside(start, now, s, d)
  {
    StandsOutside(start, start - {d}, d, s, files);
    ClearedIsFresh(start, s, d);
    MirrorStands(start - {d}, s, mid, d, now, files);
  }

  lemma CopyIsSafe(start: Tree, mid: Tree, now: Tree, src: Path, dst: Path, files: Files)
    requires Given(start, src, dst, files) && IsSafe(start, src, dst)
    requires IsCopied(start, mid, now, EntryOf(start, src), EntryOf(start, dst))
    ensures Stands(now, EntryOf(start, dst), files) && Holds(now, dst, files)
  {
    SafeIsApart(start, src, dst, files);
    VacantPlaceIsBare(start, dst);
    SafeStands(start, src, dst, files);
    CopyStands(start, mid, now, EntryOf(start, src), EntryOf(start, dst), files);
    StandingIsHeld(start, now, src, dst, files);
  }

  lemma ClearedIsFresh(start: Tree, s: Path, d: Path)
    requires NothingBelow(start, d) && (Apart(s, d) || (s <= d && |d| == |s| + 1))
    ensures Fresh(start - {d}, s, d, s)
  {
    assert Target(s, d, s) == d;
    forall p | p in start - {d} ensures !(d <= p) {
      assert d <= p ==> d < p || d == p;
    }
  }

  /** An unsafe copy is of a link, or of a folder directly into itself, or to where the
      way goes by the source. */
  lemma UnsafeIsFresh(start: Tree, src: Path, dst: Path, files: Files)
    requires Given(start, src, dst, files) && files != map[] && !IsSafe(start, src, dst)
    ensures var s, d := EntryOf(start, src), EntryOf(start, dst);
            s in start && s != d && !(start[s].Dir? && s < Parent(d)) && Fresh(start - {d}, s, d, s)
  {
    var s, d := EntryOf(start, src), EntryOf(start, dst);
    SafeIsApart(start, src, dst, files);
    VacantPlaceIsBare(start, dst);
    if s <= d {
      assert s <= Parent(d);
      AncestorsExist(start, s, Parent(d));
      if s < Parent(d) {
        EntriesMakeAFolder(start, s);
      }
    }
    ClearedIsFresh(start, s, d);
  }

  /** Of a link nothing is copied. */
  lemma CopiedLink(start: Tree, mid: Tree, now: Tree, s: Path, d: Path)
    requires IsCopied(start, mid, now, s, d) && Fresh(start - {d}, s, d, s)
    ensures SameOutside(start, mid, d) && (start[s].Symlink? ==> d !in mid)
  {
    assert s + [] == s && d + [] == d;
    assert MirrorAt(start - {d}, s, mid, d, []);
  }

  lemma CopyLoses(start: Tree, mid: Tree, now: Tree, src: Path, dst: Path, files: Files)
    requires Given(start, src, dst, files) && !IsSafe(start, src, dst) && files != map[]
    requires IsCopied(start, mid, now, EntryOf(start, src), EntryOf(start, dst)) && Vacant(now, EntryOf(start, src))
    ensures !Holds(now, src, files) && !Holds(now, dst, files)
  {
    UnsafeIsFresh(start, src, dst, files);
    CopiedLink(start, mid, now, EntryOf(start, src), EntryOf(start, dst));
    UnsafeLoses(start, mid, now, src, dst, files);
  }

  lemma UnsafeLoses(start: Tree, mid: Tree, now: Tree, src: Path, dst: Path, files: Files)
    requires Given(start, src, dst, files) && files != map[] && !IsSafe(start, src, dst)
    requires SameOutside(start, mid, EntryOf(start, dst)) && SameOutside(mid, now, EntryOf(start, src)) && Vacant(now, EntryOf(start, src))
    requires start[EntryOf(start, src)].Symlink? ==> EntryOf(start, dst) !in mid
    ensures !Holds(now, src, files) && !Holds(now, dst, files)
  {
    NeitherHolds(start, now, src, dst, files);
  }

  // ------------------------------------------------------------- what a move comes to

  /** What each outcome means for the files: an error before the source was touched has
      left them there, and nothing but them when the two are apart; and after a safe move
      they are at the destination, with no others, and unless the source could not be
      removed nothing is left of it. */
  ghost predicate Verdict(start: Tree, now: Tree, r: Outcome, src: Path, dst: Path, files: Files)
    requires HasFolder(start, src) && HasFolder(start, dst)
  {
    var s, d := EntryOf(start, src), EntryOf(start, dst);
    && (r.ParentNotMade? || r.DestinationNotCleared? || r.CopyFailed? ==>
          Holds(now, src, files) && (IsSafe(start, src, dst) && Apart(s, d) ==> Stands(now, s, files)))
    && (IsSafe(start, src, dst) && (r.Moved? || r.ModeNotSet? || r.SourceNotRemoved?) ==> Holds(now, dst, files) && Stands(now, d, files))
    && (IsSafe(start, src, dst) && (r.Moved? || r.ModeNotSet?) ==> Vacant(now, s))
  }

  /** Nothing goes wrong but that a rename across file systems is refused, or else the
      way to the destination goes by the source. */
  ghost predicate GoesPlainly(start: Tree, src: Path, dst: Path, crossDevice: bool, faulty: bool, stuck: bool, limit: nat)
    requires HasFolder(start, src) && HasFolder(start, dst)
  {
    var s, d := EntryOf(start, src), EntryOf(start, dst);
    !faulty && !stuck && Roomy(start, s, d, limit) && (crossDevice || !Avoids(WayTo(start, dst), s))
  }

  lemma SourceVerdict(start: Tree, now: Tree, r: Outcome, src: Path, dst: Path, files: Files)
    requires Given(start, src, dst, files) && SameOutside(start, now, EntryOf(start, dst))
    requires r.ParentNotMade? || r.DestinationNotCleared? || r.CopyFailed?
    ensures Verdict(start, now, r, src, dst, files)
  {
    var s, d := EntryOf(start, src), EntryOf(start, dst);
    SourceStillHolds(start, now, src, dst, files);
    if IsSafe(start, src, dst) && Apart(s, d) {
      SafeStands(start, src, dst, files);
      StandsOutside(start, now, d, s, files);
    }
  }

  lemma RenameVerdict(start: Tree, now: Tree, r: Outcome, src: Path, dst: Path, files: Files)
    requires Given(start, src, dst, files) && (r.Moved? || r.ModeNotSet?)
    requires EntryOf(start, src) in start - {EntryOf(start, dst)} && !(EntryOf(start, src) <= EntryOf(start, dst))
    requires now == Rename(start - {EntryOf(start, dst)}, EntryOf(start, src), EntryOf(start, dst))
    ensures Verdict(start, now, r, src, dst, files)
    ensures files != map[] && !Avoids(WayTo(start, dst), EntryOf(start, src)) ==> !Kept(now, src, dst, files)
  {
    if IsSafe(start, src, dst) {
      RenameIsSafe(start, start - {EntryOf(start, dst)}, src, dst, files);
    }
    if files != map[] && !Avoids(WayTo(start, dst), EntryOf(start, src)) {
      RenameLoses(start, start - {EntryOf(start, dst)}, src, dst, files);
    }
  }

  lemma RenameNeverLoses(start: Tree, states: seq<Tree>, now: Tree, n: nat, src: Path, dst: Path, files: Files)
    requires Given(start, src, dst, files) && n <= |states| && AllSameOutside(start, states[n..], EntryOf(start, dst))
    requires files == map[] || Holds(now, dst, files)
    ensures NeverLost((states + [now])[n..], src, dst, files)
  {
    SourceIsNeverLost(start, states[n..], src, dst, files);
    assert Kept(now, src, dst, files);
    NeverLostTogether(states[n..], [now], src, dst, files);
    DropOfBoth(states, [now], n);
  }

  lemma CopyVerdict(start: Tree, mid: Tree, now: Tree, r: Outcome, src: Path, dst: Path, files: Files)
    requires Given(start, src, dst, files) && (r.CopyFailed? || r.SourceNotRemoved? || r.Moved?)
    requires var s, d := EntryOf(start, src), EntryOf(start, dst);
             if r.CopyFailed? then SameOutside(start, now, d) else IsCopied(start, mid, now, s, d)
    requires r.Moved? ==> Vacant(now, EntryOf(start, src))
    ensures Verdict(start, now, r, src, dst, files)
    ensures files != map[] && !IsSafe(start, src, dst) && r.Moved? ==> !Kept(now, src, dst, files)
  {
    if r.CopyFailed? {
      SourceVerdict(start, now, r, src, dst, files);
    } else if IsSafe(start, src, dst) {
      CopyIsSafe(start, mid, now, src, dst, files);
    } else if files != map[] && r.Moved? {
      CopyLoses(start, mid, now, src, dst, files);
    }
  }

  lemma CopyNeverLoses(start: Tree, states: seq<Tree>, trace: seq<Tree>, n: nat, k: nat, mid: Tree, src: Path, dst: Path, files: Files)
    requires Given(start, src, dst, files) && n <= |states| && states <= trace
    requires AllSameOutside(start, states[n..], EntryOf(start, dst)) && SameOutside(start, start - {EntryOf(start, dst)}, EntryOf(start, dst))
    requires var s, d := EntryOf(start, src), EntryOf(start, dst);
             InTwoParts(start - {d}, trace, |states|, k, mid, s, d)
             && (k == |trace| || files == map[] || (IsSafe(start, src, dst) && IsCopy(start - {d}, mid, s, d)))
    ensures NeverLost(trace[n..], src, dst, files)
  {
    BeforeTheCopyEnds(start, states, trace, n, k, EntryOf(start, dst));
    SourceIsNeverLost(start, trace[n..k], src, dst, files);
    if k < |trace| && files != map[] {
      AfterTheCopy(start, trace[k..], mid, src, dst, files);
    }
    assert NeverLost(trace[k..], src, dst, files);
    NeverLostTogether(trace[n..k], trace[k..], src, dst, files);
    CutAt(trace, n, k);
  }

  lemma CutAt<T>(s: seq<T>, n: nat, k: nat)
    requires n <= k <= |s|
    ensures s[n..] == s[n..k] + s[k..]
  {
  }

  lemma BeforeTheCopyEnds(start: Tree, states: seq<Tree>, trace: seq<Tree>, n: nat, k: nat, d: Path)
    requires n <= |states| <= k <= |trace| && states <= trace
    requires AllSameOutside(start, states[n..], d) && SameOutside(start, start - {d}, d)
    requires AllSameOutside(start - {d}, trace[|states|..k], d)
    ensures AllSameOutside(start, trace[n..k], d)
  {
    assert trace[n..k] == states[n..] + trace[|states|..k];
  }

  lemma AfterTheCopy(start: Tree, states: seq<Tree>, mid: Tree, src: Path, dst: Path, files: Files)
    requires Given(start, src, dst, files) && IsSafe(start, src, dst) && AllSameOutside(mid, states, EntryOf(start, src))
    requires var d := EntryOf(start, dst); SameOutside(start - {d}, mid, d) && IsCopy(start - {d}, mid, EntryOf(start, src), d)
    ensures NeverLost(states, src, dst, files)
  {
    forall i | 0 <= i < |states| ensures Kept(states[i], src, dst, files) {
      CopyIsSafe(start, mid, states[i], src, dst, files);
    }
  }

  /** All that a move promises of its states, of the last of them and of its outcome. */
  ghost predicate Ends(start: Tree, states: seq<Tree>, now: Tree, r: Outcome, src: Path, dst: Path, files: Files,
                       crossDevice: bool, faulty: bool, stuck: bool, limit: nat)
    requires HasFolder(start, src) && HasFolder(start, dst)
  {
    && Verdict(start, now, r, src, dst, files)
    && (files == map[] || IsSafe(start, src, dst) ==> NeverLost(states, src, dst, files))
    && (!IsSafe(start, src, dst) && files != map[] && GoesPlainly(start, src, dst, crossDevice, faulty, stuck, limit) ==>
          !Kept(now, src, dst, files) && (crossDevice ==> r.Moved?))
  }

  lemma RenameEnds(start: Tree, states: seq<Tree>, now: Tree, n: nat, r: Outcome, src: Path, dst: Path, files: Files,
                   crossDevice: bool, faulty: bool, stuck: bool, limit: nat)
    requires Given(start, src, dst, files) && n <= |states| && AllSameOutside(start, states[n..], EntryOf(start, dst))
    requires (r.Moved? || r.ModeNotSet?) && !crossDevice
    requires EntryOf(start, src) in start - {EntryOf(start, dst)} && !(EntryOf(start, src) <= EntryOf(start, dst))
    requires now == Rename(start - {EntryOf(start, dst)}, EntryOf(start, src), EntryOf(start, dst))
    ensures Ends(start, (states + [now])[n..], now, r, src, dst, files, crossDevice, faulty, stuck, limit)
  {
    RenameVerdict(start, now, r, src, dst, files);
    if files == map[] || IsSafe(start, src, dst) {
      RenameNeverLoses(start, states, now, n, src, dst, files);
    }
  }

  lemma CopyEnds(start: Tree, states: seq<Tree>, trace: seq<Tree>, n: nat, k: nat, mid: Tree, now: Tree, r: Outcome,
                 src: Path, dst: Path, files: Files, crossDevice: bool, faulty: bool, stuck: bool, limit: nat)
    requires Given(start, src, dst, files) && n <= |states| && states <= trace
    requires AllSameOutside(start, states[n..], EntryOf(start, dst)) && SameOutside(start, start - {EntryOf(start, dst)}, EntryOf(start, dst))
    requires r.CopyFailed? || r.SourceNotRemoved? || r.Moved?
    requires InTwoParts(start - {EntryOf(start, dst)}, trace, |states|, k, mid, EntryOf(start, src), EntryOf(start, dst))
    requires if r.CopyFailed? then now == mid && k == |trace| else IsCopied(start, mid, now, EntryOf(start, src), EntryOf(start, dst))
    requires r.Moved? ==> Vacant(now, EntryOf(start, src))
    requires var s, d := EntryOf(start, src), EntryOf(start, dst);
             !faulty && !stuck && s in start - {d} && Fresh(start - {d}, s, d, s) && Roomy(start - {d}, s, d, limit) ==> r.Moved?
    ensures Ends(start, trace[n..], now, r, src, dst, files, crossDevice, faulty, stuck, limit)
  {
    CopyVerdict(start, mid, now, r, src, dst, files);
    if files == map[] || IsSafe(start, src, dst) {
      CopyNeverLoses(start, states, trace, n, k, mid, src, dst, files);
    } else {
      UnsafeIsFresh(start, src, dst, files);
    }
  }

  /** What is promised besides. Nothing else on the disk changes. After a copy that failed
      all is as it was but for the destination, which is gone, unless what arrived could not
      be removed. A safe move that nothing goes wrong with is made, when the destination is
      apart from the source; and none is made to one deeper in the source, where a copy
      would never end. */
  ghost predicate Tidy(start: Tree, now: Tree, r: Outcome, src: Path, dst: Path, files: Files, faulty: bool, stuck: bool, limit: nat)
    requires HasFolder(start, src) && HasFolder(start, dst)
  {
    var s, d := EntryOf(start, src), EntryOf(start, dst);
    && Beside(start, now, s, d)
    && (r.CopyFailed? && !stuck ==> now == start - {d})
    && (IsSafe(start, src, dst) && Apart(s, d) && files != map[] && !faulty && !stuck && Roomy(start, s, d, limit) ==> r.Moved?)
    && (s in start && start[s].Dir? && s < Parent(d) ==> r.ParentNotMade? || r.DestinationNotCleared? || r.CopyFailed?)
  }

  lemma RenameIsTidy(start: Tree, now: Tree, r: Outcome, src: Path, dst: Path, files: Files, faulty: bool, stuck: bool, limit: nat)
    requires Given(start, src, dst, files) && (r.Moved? || r.ModeNotSet?)
    requires EntryOf(start, src) in start - {EntryOf(start, dst)} && !(EntryOf(start, src) <= EntryOf(start, dst))
    requires now == Rename(start - {EntryOf(start, dst)}, EntryOf(start, src), EntryOf(start, dst))
    requires !faulty && Stat(now, dst).Found? ==> r.Moved?
    ensures Tidy(start, now, r, src, dst, files, faulty, stuck, limit)
  {
    var s, d := EntryOf(start, src), EntryOf(start, dst);
    NotDeeper(s, d);
    RenameIsBeside(start, s, d);
    if IsSafe(start, src, dst) && Apart(s, d) && files != map[] {
      RenamedIsFound(start, src, dst, files);
    }
  }

  lemma NotDeeper(s: Path, d: Path)
    requires d != [] && !(s <= d)
    ensures !(s < Parent(d))
  {
    assert s < Parent(d) ==> s <= d;
  }

  lemma RenameIsBeside(start: Tree, s: Path, d: Path)
    ensures Beside(start, Rename(start - {d}, s, d), s, d)
  {
  }

  lemma RenamedIsFound(start: Tree, src: Path, dst: Path, files: Files)
    requires Given(start, src, dst, files) && IsSafe(start, src, dst) && files != map[]
    requires Apart(EntryOf(start, src), EntryOf(start, dst))
    ensures Stat(Rename(start - {EntryOf(start, dst)}, EntryOf(start, src), EntryOf(start, dst)), dst).Found?
  {
    var s, d := EntryOf(start, src), EntryOf(start, dst);
    NotDeeper(s, d);
    RenameIsSafe(start, start - {d}, src, dst, files);
    RenameIsBeside(start, s, d);
    DestinationHolds(start, Rename(start - {d}, s, d), src, dst, files);
  }

  /** What a move by copying has come to. */
  ghost predicate ByCopy(start: Tree, mid: Tree, now: Tree, r: Outcome, s: Path, d: Path, faulty: bool, stuck: bool, limit: nat) {
    && SameOutside(start, start - {d}, d) && SameOutside(start - {d}, mid, d)
    && (if r.CopyFailed? then now == mid else IsCopied(start, mid, now, s, d))
    && (r.CopyFailed? && !stuck ==> Vacant(now, d))
    && (!faulty && !stuck && s in start - {d} && Fresh(start - {d}, s, d, s) && Roomy(start - {d}, s, d, limit) ==> r.Moved?)
  }

  lemma CopyIsTidy(start: Tree, mid: Tree, now: Tree, r: Outcome, src: Path, dst: Path, files: Files, faulty: bool, stuck: bool, limit: nat)
    requires Given(start, src, dst, files)
    requires ByCopy(start, mid, now, r, EntryOf(start, src), EntryOf(start, dst), faulty, stuck, limit)
    ensures Tidy(start, now, r, src, dst, files, faulty, stuck, limit)
  {
    var s, d := EntryOf(start, src), EntryOf(start, dst);
    VacantPlaceIsBare(start, dst);
    FoundInAFolder(start, src);
    CopyIsBeside(start, mid, now, r, s, d, faulty, stuck, limit);
    if r.CopyFailed? && !stuck {
      AllIsAsItWas(start, now, d);
    }
    if Apart(s, d) {
      CopyIsMade(start, mid, now, r, s, d, faulty, stuck, limit);
    }
  }

  lemma CopyIsBeside(start: Tree, mid: Tree, now: Tree, r: Outcome, s: Path, d: Path, faulty: bool, stuck: bool, limit: nat)
    requires ByCopy(start, mid, now, r, s, d, faulty, stuck, limit)
    ensures Beside(start, now, s, d)
  {
  }

  lemma CopyIsMade(start: Tree, mid: Tree, now: Tree, r: Outcome, s: Path, d: Path, faulty: bool, stuck: bool, limit: nat)
    requires ByCopy(start, mid, now, r, s, d, faulty, stuck, limit) && s in start && NothingBelow(start, d) && Apart(s, d)
    ensures !faulty && !stuck && Roomy(start, s, d, limit) ==> r.Moved?
  {
    ClearedIsFresh(start, s, d);
  }

  lemma AllIsAsItWas(start: Tree, now: Tree, d: Path)
    requires NothingBelow(start, d) && SameOutside(start - {d}, now, d) && Vacant(now, d)
    ensures now == start - {d}
  {
    forall p ensures p in now <==> p in start - {d} {
      assert d <= p ==> d < p || d == p;
    }
  }

  class Volume {
    /** The deepest path the file system takes. */
    const limit: nat
    var fs: Tree
    /** Every state the file system has been in. */
    ghost var trace: seq<Tree>

    ghost predicate Valid()
      reads this
    {
      trace != [] && trace[|trace| - 1] == fs
    }

    constructor (t: Tree, limit: nat)
      ensures Valid() && fs == t && trace == [t] && this.limit == limit
    {
      this.limit := limit;
      fs := t;
      trace := [t];
    }

    method Step(next: Tree)
      requires Valid()
      modifies this
      ensures Valid() && fs == next && trace == old(trace) + [next]
    {
      fs := next;
      trace := trace + [next];
    }

    /** One file: created or truncated, filled piece by piece, flushed. With `faulty`
        it may fail before the first step or after any of them. */
    method CopyFile(content: Bytes, target: Path, faulty: bool) returns (ok: bool)
      requires Valid()
      modifies this
      ensures Valid() && old(trace) <= trace
      ensures AllSameOutside(old(fs), trace[|old(trace)|..], target)
      ensures SameOutside(old(fs), fs, target)
      ensures ok ==> fs == old(fs)[target := File(content)]
      ensures !faulty ==> ok
    {
      ghost var start, n := fs, |trace|;
      if faulty {
        var created: bool := *;
        if !created {
          return false;
        }
      }
      ghost var before := trace;
      Step(fs[target := File([])]);
      OneMoreOutside(start, before, fs, n, target);
      var written: nat := 0;
      while written < |content|
        invariant Valid() && written <= |content| && n <= |trace| && before <= trace
        invariant AllSameOutside(start, trace[n..], target)
        invariant fs == start[target := File(content[..written])]
      {
        if faulty {
          var failed: bool := *;
          if failed {
            return false;
          }
        }
        var more: nat :| written < more <= |content|;
        written := more;
        ghost var states := trace;
        Step(fs[target := File(content[..written])]);
        OneMoreOutside(start, states, fs, n, target);
      }
      assert content[..|content|] == content;
      ok := true;
      if faulty {
        ok := *;
      }
    }

    /** `os.MkdirAll` of a folder whose own folder is there. */
    method MakeFolder(t: Path, faulty: bool) returns (ok: bool)
      requires Valid() && Rooted(fs) && t != [] && Parent(t) in fs && fs[Parent(t)].Dir?
      modifies this
      ensures Valid() && old(trace) <= trace
      ensures AllSameOutside(old(fs), trace[|old(trace)|..], t) && SameOutside(old(fs), fs, t)
      ensures ok ==> fs == old(fs)[t := Dir] && Rooted(fs) && (t in old(fs) || |t| <= limit)
      ensures !faulty && t !in old(fs) && |t| <= limit ==> ok
    {
      if t in fs {
        ok := fs[t].Dir?;
        assert ok ==> fs == fs[t := Dir];
      } else {
        var failed: bool := *;
        if |t| > limit || (faulty && failed) {
          return false;
        }
        EntryKeepsRooted(fs, t, Dir);
        Step(fs[t := Dir]);
        ok := true;
      }
    }

    /** One entry of the walk, as it is when the walk comes to it: a symbolic link is
        passed over, a file copied, a folder made and what it lists walked in turn. */
    method Walk(src: Path, dst: Path, p: Path, faulty: bool) returns (ok: bool)
      requires Valid() && Rooted(fs) && Bounded(fs, limit) && src <= p && p in fs && dst != [] && !(dst <= src)
      requires Parent(Target(src, dst, p)) in fs && fs[Parent(Target(src, dst, p))].Dir?
      modifies this
      ensures Valid() && old(trace) <= trace
      ensures AllSameOutside(old(fs), trace[|old(trace)|..], Target(src, dst, p)) && SameOutside(old(fs), fs, Target(src, dst, p))
      ensures ok ==> Rooted(fs) && Bounded(fs, limit)
      ensures ok && Fresh(old(fs), src, dst, p) ==> Mirror(old(fs), p, fs, Target(src, dst, p))
      ensures ok ==> !OnChain(old(fs), src, dst, p)
      ensures !faulty && Fresh(old(fs), src, dst, p) && Roomy(old(fs), p, Target(src, dst, p), limit) ==> ok
      decreases limit - |p|, 3
    {
      ghost var start := fs;
      var t := Target(src, dst, p);
      match fs[p]
      case Symlink(_) =>
        if Fresh(fs, src, dst, p) {
          LeafMirrors(fs, p, fs, t);
        }
        ok := true;
      case File(content) =>
        if (t in fs && !fs[t].File?) || |t| > limit {
          return false;
        }
        ok := CopyFile(content, t, faulty);
        if ok {
          EntryKeepsRooted(start, t, File(content));
          if Fresh(start, src, dst, p) {
            LeafMirrors(start, p, fs, t);
          }
        }
      case Dir =>
        ok := WalkFolder(src, dst, p, faulty);
    }

    method WalkFolder(src: Path, dst: Path, p: Path, faulty: bool) returns (ok: bool)
      requires Valid() && Rooted(fs) && Bounded(fs, limit) && src <= p && p in fs && fs[p].Dir? && dst != [] && !(dst <= src)
      requires Parent(Target(src, dst, p)) in fs && fs[Parent(Target(src, dst, p))].Dir?
      modifies this
      ensures Valid() && old(trace) <= trace
      ensures AllSameOutside(old(fs), trace[|old(trace)|..], Target(src, dst, p)) && SameOutside(old(fs), fs, Target(src, dst, p))
      ensures ok ==> Rooted(fs) && Bounded(fs, limit)
      ensures ok && Fresh(old(fs), src, dst, p) ==> Mirror(old(fs), p, fs, Target(src, dst, p))
      ensures ok ==> !OnChain(old(fs), src, dst, p)
      ensures !faulty && Fresh(old(fs), src, dst, p) && Roomy(old(fs), p, Target(src, dst, p), limit) ==> ok
      decreases limit - |p|, 2
    {
      ghost var start, n := fs, |trace|;
      var t, names := Target(src, dst, p), Names(fs, p);
      ok := MakeFolder(t, faulty);
      if ok {
        FirstTurn(start, fs, src, dst, p, limit);
        ok := WalkNames(src, dst, p, names, faulty, start, n);
        if ok {
          LastTurn(start, fs, src, dst, p, limit);
        }
      }
    }

    /** What was listed, one by one. `start` is the tree it was listed in. */
    method WalkNames(src: Path, dst: Path, p: Path, names: set<string>, faulty: bool, ghost start: Tree, ghost n: nat) returns (ok: bool)
      requires Valid() && n <= |trace| && dst != [] && !(dst <= src)
      requires Turn(start, fs, src, dst, p, names, limit) && AllSameOutside(start, trace[n..], Target(src, dst, p))
      modifies this
      ensures Valid() && old(trace) <= trace
      ensures AllSameOutside(start, trace[n..], Target(src, dst, p)) && SameOutside(start, fs, Target(src, dst, p))
      ensures ok ==> Turn(start, fs, src, dst, p, {}, limit)
      ensures !faulty && Fresh(start, src, dst, p) && Roomy(start, p, Target(src, dst, p), limit) ==> ok
      decreases limit - |p|, 1
    {
      var left := names;
      while left != {}
        invariant Valid() && n <= |trace| && old(trace) <= trace
        invariant Turn(start, fs, src, dst, p, left, limit) && AllSameOutside(start, trace[n..], Target(src, dst, p))
        decreases |left|
      {
        var c :| c in left;
        ok := WalkChild(src, dst, p, c, faulty, start, n, left);
        if !ok {
          return;
        }
        left := left - {c};
      }
      ok := true;
    }

    /** A listed child's turn. */
    method WalkChild(src: Path, dst: Path, p: Path, c: string, faulty: bool, ghost start: Tree, ghost n: nat, ghost left: set<string>)
        returns (ok: bool)
      requires Valid() && n <= |trace| && dst != [] && !(dst <= src)
      requires Turn(start, fs, src, dst, p, left, limit) && c in left && AllSameOutside(start, trace[n..], Target(src, dst, p))
      modifies this
      ensures Valid() && old(trace) <= trace
      ensures AllSameOutside(start, trace[n..], Target(src, dst, p)) && SameOutside(start, fs, Target(src, dst, p))
      ensures ok ==> Turn(start, fs, src, dst, p, left - {c}, limit)
      ensures !faulty && Fresh(start, src, dst, p) && Roomy(start, p, Target(src, dst, p), limit) ==> ok
      decreases limit - |p|, 0
    {
      var t := Target(src, dst, p);
      ghost var before, states, done := fs, trace, Names(start, p) - left;
      ChildIsThere(start, fs, src, dst, p, done, c, limit);
      ok := Walk(src, dst, p + [c], faulty);
      StepsBelow(start, before, states, trace, n, t + [c], t);
      if ok {
        ChildIsDone(start, before, fs, src, dst, p, done, c, limit);
        NextTurn(start, before, fs, src, dst, p, left, c, limit);
      }
    }

    /** The walk of the whole tree at s, which reports that it is missing if it is. */
    method CopyTree(s: Path, d: Path, faulty: bool) returns (ok: bool)
      requires Valid() && Rooted(fs) && Bounded(fs, limit) && Vacant(fs, d)
      requires d != [] && Parent(d) in fs && fs[Parent(d)].Dir?
      modifies this
      ensures Valid() && old(trace) <= trace
      ensures AllSameOutside(old(fs), trace[|old(trace)|..], d) && SameOutside(old(fs), fs, d)
      ensures ok ==> s in old(fs) && !(old(fs)[s].Dir? && s < Parent(d))
      ensures ok && Fresh(old(fs), s, d, s) ==> Mirror(old(fs), s, fs, d)
      ensures !faulty && s in old(fs) && Fresh(old(fs), s, d, s) && Roomy(old(fs), s, d, limit) ==> ok
    {
      if s !in fs {
        return false;
      }
      assert Target(s, d, s) == d;
      if fs[s].Dir? && s < Parent(d) {
        StartsTheChain(fs, s, d);
      }
      ok := Walk(s, d, s, faulty);
    }

    /** Entries go one by one, a folder only when nothing is left in it; any removal may
        fail, and then the rest stays. A link goes, and not what it leads to. */
    method RemoveAll(root: Path, faulty: bool) returns (ok: bool)
      requires Valid()
      modifies this
      ensures Valid() && old(trace) <= trace
      ensures AllSameOutside(old(fs), trace[|old(trace)|..], root)
      ensures SameOutside(old(fs), fs, root)
      ensures ok ==> Vacant(fs, root)
      ensures !faulty ==> ok
    {
      ghost var start, n := fs, |trace|;
      var left := set p | p in fs && root <= p;
      while left != {}
        invariant Valid() && n <= |trace| && old(trace) <= trace
        invariant AllSameOutside(start, trace[n..], root) && SameOutside(start, fs, root)
        invariant left == set p | p in fs && root <= p
        decreases |left|
      {
        ghost var any :| any in left;
        ghost var bound := LengthBound(left);
        ghost var deepest := MaximalExists(left, any, bound);
        var p :| p in left && forall q :: q in left ==> !(p < q);
        var failed: bool := *;
        if faulty && failed {
          return false;
        }
        ghost var states := trace;
        Step(fs - {p});
        OneMoreOutside(start, states, fs, n, root);
        left := left - {p};
      }
      assert forall p :: p in fs && root <= p ==> p in left;
      ok := true;
    }

    /** The copy; what arrived of one that failed is removed again, and nothing is left of
        it unless the removal is stuck. */
    method CopyOrClean(s: Path, d: Path, faulty: bool, stuck: bool) returns (copied: bool)
      requires Valid() && Rooted(fs) && Bounded(fs, limit) && Vacant(fs, d)
      requires d != [] && Parent(d) in fs && fs[Parent(d)].Dir?
      modifies this
      ensures Valid() && old(trace) <= trace
      ensures AllSameOutside(old(fs), trace[|old(trace)|..], d) && SameOutside(old(fs), fs, d)
      ensures copied ==> s in old(fs) && !(old(fs)[s].Dir? && s < Parent(d))
      ensures copied && Fresh(old(fs), s, d, s) ==> Mirror(old(fs), s, fs, d)
      ensures !faulty && s in old(fs) && Fresh(old(fs), s, d, s) && Roomy(old(fs), s, d, limit) ==> copied
      ensures !copied && !stuck ==> Vacant(fs, d)
    {
      ghost var start, n := fs, |trace|;
      copied := CopyTree(s, d, faulty);
      if !copied {
        ghost var mid, states := fs, trace;
        var cleaned := RemoveAll(d, stuck);
        StepsBelow(start, mid, states, trace, n, d, d);
      }
    }

    /** The copy, and only then the removal of the source. `mid` is the tree between the
        two, and `k` how many states there were by then. */
    method CopyThenRemove(s: Path, d: Path, faulty: bool, stuck: bool) returns (r: Outcome, ghost mid: Tree, ghost k: nat)
      requires Valid() && Rooted(fs) && Bounded(fs, limit) && Vacant(fs, d)
      requires d != [] && Parent(d) in fs && fs[Parent(d)].Dir?
      modifies this
      ensures Valid() && old(trace) <= trace && InTwoParts(old(fs), trace, |old(trace)|, k, mid, s, d)
      ensures r.CopyFailed? || r.SourceNotRemoved? || r.Moved?
      ensures if r.CopyFailed? then fs == mid && k == |trace| else IsCopy(old(fs), mid, s, d) && SameOutside(mid, fs, s)
      ensures r.Moved? ==> Vacant(fs, s)
      ensures r.CopyFailed? && !stuck ==> Vacant(fs, d)
      ensures !faulty && !stuck && s in old(fs) && Fresh(old(fs), s, d, s) && Roomy(old(fs), s, d, limit) ==> r.Moved?
    {
      ghost var start, n := fs, |trace|;
      var copied := CopyOrClean(s, d, faulty, stuck);
      mid, k := fs, |trace|;
      ghost var states := trace;
      r := CopyFailed;
      if copied {
        var removed := RemoveAll(s, stuck);
        r := if removed then Moved else SourceNotRemoved;
      }
      TwoParts(start, states, trace, n, mid, s, d);
    }

    /** The rename of the entry s to d, or when the system refuses it the copy. A rename
        across file systems fails, and one of a folder into itself. */
    method MoveEntry(s: Path, d: Path, dst: Path, crossDevice: bool, faulty: bool, stuck: bool)
        returns (r: Outcome, renamed: bool, ghost mid: Tree, ghost k: nat)
      requires Valid() && Rooted(fs) && Bounded(fs, limit) && Vacant(fs, d)
      requires d != [] && Parent(d) in fs && fs[Parent(d)].Dir?
      modifies this
      ensures Valid() && old(trace) <= trace
      ensures renamed ==> s in old(fs) && !(s <= d) && !crossDevice && (r.Moved? || r.ModeNotSet?)
      ensures renamed ==> fs == Rename(old(fs), s, d) && trace == old(trace) + [fs] && (r.Moved? ==> Stat(fs, dst).Found?)
      ensures !faulty && s in old(fs) && !(s <= d) && !crossDevice ==> renamed
      ensures renamed && !faulty && Stat(fs, dst).Found? ==> r.Moved?
      ensures !renamed ==> r.CopyFailed? || r.SourceNotRemoved? || r.Moved?
      ensures !renamed ==> InTwoParts(old(fs), trace, |old(trace)|, k, mid, s, d)
      ensures !renamed ==> if r.CopyFailed? then fs == mid && k == |trace| else IsCopy(old(fs), mid, s, d) && SameOutside(mid, fs, s)
      ensures !renamed && r.Moved? ==> Vacant(fs, s)
      ensures !renamed && r.CopyFailed? && !stuck ==> Vacant(fs, d)
      ensures !renamed && !faulty && !stuck && s in old(fs) && Fresh(old(fs), s, d, s) && Roomy(old(fs), s, d, limit) ==> r.Moved?
    {
      var refused: bool := *;
      renamed := s in fs && !(s <= d) && !crossDevice && !(faulty && refused);
      if renamed {
        mid, k := fs, |trace|;
        Step(Rename(fs, s, d));
        var restricted: bool := *;
        r := if Stat(fs, dst).Found? && (restricted || !faulty) then Moved else ModeNotSet;
      } else {
        r, mid, k := CopyThenRemove(s, d, faulty, stuck);
      }
    }

    /** The move; with `faulty` any step may fail, with `stuck` any removal of a tree. The
        destination is cleared; then a rename is tried; across file systems
        a copy is made, and only then is the source removed. `files` are the regular
        files of the home. When the move is not safe and nothing else goes wrong, they are
        lost across file systems, and within one too if the way to the destination goes by
        the source. */
    method MoveTree(src: Path, dst: Path, crossDevice: bool, faulty: bool, stuck: bool, ghost files: Files) returns (r: Outcome)
      requires Valid() && Given(fs, src, dst, files) && Bounded(fs, limit)
      modifies this
      ensures Valid() && old(trace) <= trace && Verdict(old(fs), fs, r, src, dst, files)
      ensures Tidy(old(fs), fs, r, src, dst, files, faulty, stuck, limit)
      ensures files == map[] || IsSafe(old(fs), src, dst) ==> NeverLost(trace[|old(trace)|..], src, dst, files)
      ensures !IsSafe(old(fs), src, dst) && files != map[] && GoesPlainly(old(fs), src, dst, crossDevice, faulty, stuck, limit) ==>
                !Kept(fs, src, dst, files) && (crossDevice ==> r.Moved?)
    {
      ghost var start := fs;
      var parentMade: bool, cleared: bool := *, *;
      if faulty && !(parentMade && cleared) {
        r := if parentMade then DestinationNotCleared else ParentNotMade;
        SourceVerdict(start, fs, r, src, dst, files);
        assert trace[|old(trace)|..] == [];
        return;
      }
      r := ClearAndMove(src, dst, crossDevice, faulty, stuck, files);
    }

    method ClearAndMove(src: Path, dst: Path, crossDevice: bool, faulty: bool, stuck: bool, ghost files: Files) returns (r: Outcome)
      requires Valid() && Given(fs, src, dst, files) && Bounded(fs, limit)
      modifies this
      ensures Valid() && old(trace) <= trace
      ensures Tidy(old(fs), fs, r, src, dst, files, faulty, stuck, limit)
      ensures Ends(old(fs), trace[|old(trace)|..], fs, r, src, dst, files, crossDevice, faulty, stuck, limit)
    {
      ghost var start, n := fs, |trace|;
      var s, d := EntryOf(fs, src), EntryOf(fs, dst);
      VacantPlaceIsBare(start, dst);
      Cleared(start, d, limit);
      Clear(d);
      ghost var states := trace;
      var renamed;
      ghost var mid, k;
      r, renamed, mid, k := MoveEntry(s, d, dst, crossDevice, faulty, stuck);
      if renamed {
        RenameIsTidy(start, fs, r, src, dst, files, faulty, stuck, limit);
        RenameEnds(start, states, fs, n, r, src, dst, files, crossDevice, faulty, stuck, limit);
      } else {
        CopyIsTidy(start, mid, fs, r, src, dst, files, faulty, stuck, limit);
        CopyEnds(start, states, trace, n, k, mid, fs, r, src, dst, files, crossDevice, faulty, stuck, limit);
      }
    }

    /** `os.Remove` of an entry with nothing below it, if it is there. */
    method Clear(d: Path)
      requires Valid()
      modifies this
      ensures Valid() && old(trace) <= trace && fs == old(fs) - {d} && AllSameOutside(old(fs), trace[|old(trace)|..], d)
    {
      if d in fs {
        Step(fs - {d});
      }
    }

    /** Checking a destination and then moving to it. A refusal touches nothing. An
        accepted destination never loses the files when the move to it is safe, and when
        it is not there is a move that does, and that reports success. */
    method CheckAndMove(src: Path, given: string, crossDevice: bool, faulty: bool, stuck: bool, ghost files: Files)
        returns (refusal: Option<Refusal>, r: Outcome)
      requires Valid() && Rooted(fs) && Bounded(fs, limit) && CleanPath(src) && IsHome(fs, src, files)
      modifies this
      ensures Valid() && old(trace) <= trace && refusal == CheckDestination(old(fs), src, given)
      ensures refusal.Some? ==> fs == old(fs) && trace == old(trace)
      ensures refusal.None? ==> Given(old(fs), src, Clean(given), files) && Verdict(old(fs), fs, r, src, Clean(given), files)
      ensures refusal.None? ==> Tidy(old(fs), fs, r, src, Clean(given), files, faulty, stuck, limit)
      ensures refusal.None? && (files == map[] || IsSafe(old(fs), src, Clean(given))) ==>
                NeverLost(trace[|old(trace)|..], src, Clean(given), files)
      ensures refusal.None? && !IsSafe(old(fs), src, Clean(given)) && files != map[]
              && GoesPlainly(old(fs), src, Clean(given), crossDevice, faulty, stuck, limit) ==>
                !Kept(fs, src, Clean(given), files) && (crossDevice ==> r.Moved?)
    {
      refusal, r := CheckDestination(fs, src, given), ParentNotMade;
      if refusal.None? {
        AcceptedIsReady(fs, src, given, files);
        r := MoveTree(src, Clean(given), crossDevice, faulty, stuck, files);
      }
    }
  }

  lemma {:induction false} LengthBound(s: set<Path>) returns (bound: nat)
    ensures forall p :: p in s ==> |p| <= bound
    decreases s
  {
    bound := 0;
    if s != {} {
      var x :| x in s;
      bound := LengthBound(s - {x});
      if bound < |x| {
        bound := |x|;
      }
    }
  }

  /** Removing one file of the source after the copy: from then on an error of
      the move leaves the tree whole at the destination only. */
  lemma PartialRemovalIsNotWholeAtSource(fs: Tree, src: Path, dst: Path, files: Files, rel: Path)
    requires ExactlyAt(fs, src, files) && ExactlyAt(fs, dst, files) && Apart(src, dst) && rel in files
    ensures !WholeAt(fs - {src + rel}, src, files) && WholeAt(fs - {src + rel}, dst, files)
  {
    forall r | r in files ensures dst + r != src + rel {
      ApartBelow(src, dst, dst + r);
    }
  }
}
