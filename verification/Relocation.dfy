/** Moving the home folder: which destinations are refused, and what every step
    of the move leaves on disk. */
module Relocation {
  import opened Prelude
  import opened Paths
  import opened Links

  // -------------------------------------------------------------- destinations

  datatype Refusal =
    | Blank | NotAbsolute | SameFolder | InsideSource | AroundSource | NotAFolder | NotEmpty | NoParent | Unreadable

  predicate IsSpace(c: char) {
    c == ' ' || '\t' <= c <= '\r' || c as int == 0x85 || c as int == 0xA0
  }

  /** The destination is compared with the source by their texts; what stands there
      is looked up with links followed. */
  function CheckDestination(fs: Tree, src: Path, given: string): Option<Refusal>
    requires CleanPath(src)
  {
    if forall i :: 0 <= i < |given| ==> IsSpace(given[i]) then Some(Blank)
    else if given[0] != '/' then Some(NotAbsolute)
    else
      var dst := Clean(given);
      if dst == src then Some(SameFolder)
      else if Within(dst, src) then Some(InsideSource)
      else if Within(src, dst) then Some(AroundSource)
      else
        match Stat(fs, dst)
        case Found(e) =>
          if !fs[e].Dir? then Some(NotAFolder)
          else if HasEntries(fs, e) then Some(NotEmpty)
          else None
        case Missing =>
          WithinIsPrefix(src, dst);
          if HasFolder(fs, dst) then None else Some(NoParent)
        case Broken => Some(Unreadable)
  }

  ghost predicate Apart(a: Path, b: Path) {
    !(a <= b) && !(b <= a)
  }

  ghost predicate NothingBelow(fs: Tree, root: Path) {
    forall p :: p in fs ==> !(root < p)
  }

  lemma {:induction false} AncestorsExist(fs: Tree, root: Path, p: Path)
    requires Rooted(fs) && p in fs && root <= p
    ensures root in fs && (root < p ==> HasEntries(fs, root))
    decreases |p|
  {
    if root < p {
      var parent := p[..|p| - 1];
      assert root <= parent;
      AncestorsExist(fs, root, parent);
      assert root == parent ==> |p| == |root| + 1;
    } else {
      assert root == p;
    }
  }

  /** What is missing or empty has nothing below it. */
  lemma NothingBelowIt(fs: Tree, root: Path)
    requires Rooted(fs)
    ensures NothingBelow(fs, root) <==> !HasEntries(fs, root)
    ensures root !in fs ==> NothingBelow(fs, root)
  {
    forall p | p in fs && root < p ensures HasEntries(fs, root) && root in fs {
      AncestorsExist(fs, root, p);
    }
  }

  /** A path that leads to an empty folder, or to nothing though its folder is there. */
  predicate IsVacantPlace(fs: Tree, dst: Path) {
    match Stat(fs, dst)
    case Found(e) => fs[e].Dir? && !HasEntries(fs, e)
    case Missing => HasFolder(fs, dst)
    case Broken => false
  }

  /** A destination is accepted exactly when it is an absolute path, apart from the
      source as written, that leads to an empty folder or to nothing in a folder. */
  lemma AcceptedDestinations(fs: Tree, src: Path, given: string)
    requires CleanPath(src)
    ensures CheckDestination(fs, src, given).None? <==>
            "/" <= given && Apart(src, Clean(given)) && IsVacantPlace(fs, Clean(given))
  {
    if "/" <= given {
      assert given[0] == '/';
      WithinIsPrefix(Clean(given), src);
      WithinIsPrefix(src, Clean(given));
    }
  }

  /** Which refusal is given, and when: by the text, by how it stands to the source as
      written, and then by what is there. */
  lemma WhyItIsRefused(fs: Tree, src: Path, given: string, why: Refusal)
    requires CleanPath(src)
    ensures var dst := Clean(given);
            CheckDestination(fs, src, given) == Some(why) <==>
            match why
            case Blank => forall i :: 0 <= i < |given| ==> IsSpace(given[i])
            case NotAbsolute => !("/" <= given) && exists i :: 0 <= i < |given| && !IsSpace(given[i])
            case SameFolder => "/" <= given && dst == src
            case InsideSource => "/" <= given && src < dst
            case AroundSource => "/" <= given && dst < src
            case NotAFolder => "/" <= given && Apart(src, dst) && Stat(fs, dst).Found? && !fs[Stat(fs, dst).path].Dir?
            case NotEmpty =>
              "/" <= given && Apart(src, dst) && Stat(fs, dst).Found? && fs[Stat(fs, dst).path].Dir? && HasEntries(fs, Stat(fs, dst).path)
            case NoParent => "/" <= given && Apart(src, dst) && Stat(fs, dst).Missing? && !HasFolder(fs, dst)
            case Unreadable => "/" <= given && Apart(src, dst) && Stat(fs, dst).Broken?
  {
    if "/" <= given {
      assert given[0] == '/' && !IsSpace(given[0]);
      WithinIsPrefix(Clean(given), src);
      WithinIsPrefix(src, Clean(given));
    } else if given != "" {
      assert given == [given[0]] + given[1..];
    }
  }

  /** A path leads to something only in a folder. */
  lemma FoundInAFolder(fs: Tree, p: Path)
    requires p != [] && Stat(fs, p).Found?
    ensures HasFolder(fs, p) && EntryOf(fs, p) in fs
    ensures EntryOf(fs, p) in Find(fs, p, {}).seen && WayTo(fs, p) <= Find(fs, p, {}).seen
    ensures fs[EntryOf(fs, p)].Symlink? || Stat(fs, p).path == EntryOf(fs, p)
  {
  }

  lemma EntriesMakeAFolder(fs: Tree, d: Path)
    requires Rooted(fs) && HasEntries(fs, d)
    ensures d in fs && fs[d].Dir?
  {
    var p :| p in fs && d < p && |p| == |d| + 1;
    assert Parent(p) == d;
  }

  lemma StatOfALink(fs: Tree, p: Path)
    requires HasFolder(fs, p) && EntryOf(fs, p) in fs && fs[EntryOf(fs, p)].Symlink?
    ensures Stat(fs, p) == Find(fs, fs[EntryOf(fs, p)].target, {EntryOf(fs, p)}).place
  {
    var d := EntryOf(fs, p);
    var none: set<Path> := {};
    assert none + {d} == {d};
  }

  /** The entry of a vacant place is nothing, an empty folder, or a link that leads to
      an empty folder or nowhere. */
  predicate IsBare(fs: Tree, d: Path) {
    d in fs ==>
      match fs[d]
      case Dir => !HasEntries(fs, d)
      case File(_) => false
      case Symlink(t) => var e := Find(fs, t, {d}).place; e.Found? ==> fs[e.path].Dir? && !HasEntries(fs, e.path)
  }

  lemma VacantPlaceIsBare(fs: Tree, dst: Path)
    requires Rooted(fs) && dst != [] && IsVacantPlace(fs, dst)
    ensures HasFolder(fs, dst) && IsBare(fs, EntryOf(fs, dst)) && NothingBelow(fs, EntryOf(fs, dst))
  {
    if Stat(fs, dst).Found? {
      FoundInAFolder(fs, dst);
    }
    var d := EntryOf(fs, dst);
    if d in fs && fs[d].Symlink? {
      StatOfALink(fs, dst);
    }
    NothingBelowIt(fs, d);
    if HasEntries(fs, d) {
      EntriesMakeAFolder(fs, d);
    }
  }

  /** No way to a folder with anything in it goes by a bare entry. */
  lemma NoWayByABareEntry(fs: Tree, d: Path, p: Path)
    requires IsBare(fs, d) && Stat(fs, p).Found? && HasEntries(fs, Stat(fs, p).path)
    ensures d !in Find(fs, p, {}).seen
  {
    SeenArePresent(fs, p, {});
    if d in Find(fs, p, {}).seen {
      if fs[d].Symlink? {
        LinkInWay(fs, p, {}, d);
        DeadEnd(fs, p, {}, Find(fs, fs[d].target, {d}).place.path);
      } else {
        DeadEnd(fs, p, {}, d);
      }
    }
  }

  /** Nor does the way to its own folder. */
  lemma NoWayToItselfByIt(fs: Tree, dst: Path)
    requires HasFolder(fs, dst) && IsBare(fs, EntryOf(fs, dst))
    ensures EntryOf(fs, dst) !in WayTo(fs, dst)
  {
    var d := EntryOf(fs, dst);
    SeenArePresent(fs, Parent(dst), {});
    if d in fs {
      assert Stat(fs, Parent(dst)).path < d;
      NoWayByABareEntry(fs, d, Parent(dst));
    }
  }

  // ------------------------------------------------------------------- the move

  /** The regular files of a tree by their paths below its root. */
  type Files = map<Path, Bytes>

  ghost predicate WholeAt(fs: Tree, root: Path, files: Files) {
    forall rel :: rel in files ==> root + rel in fs && fs[root + rel] == File(files[rel])
  }

  /** The files below a root are these and no others. */
  ghost predicate ExactlyAt(fs: Tree, root: Path, files: Files) {
    WholeAt(fs, root, files) && forall p :: p in fs && root <= p && fs[p].File? ==> p[|root|..] in files
  }

  // ------------------------------------------------- what is read under a path

  /** Every file is read under a path, links followed. */
  ghost predicate Holds(fs: Tree, p: Path, files: Files) {
    forall rel :: rel in files ==> Stat(fs, p + rel).Found? && fs[Stat(fs, p + rel).path] == File(files[rel])
  }

  /** A file stands below a folder, and folders lead down to it. */
  ghost predicate StandsIn(fs: Tree, h: Path, rel: Path, content: Bytes) {
    h + rel in fs && fs[h + rel] == File(content) && forall i :: 0 <= i < |rel| ==> h + rel[..i] in fs && fs[h + rel[..i]].Dir?
  }

  ghost predicate TreeIn(fs: Tree, h: Path, files: Files) {
    forall rel :: rel in files ==> StandsIn(fs, h, rel, files[rel])
  }

  /** A path leads to a folder that has these files and no others. */
  ghost predicate IsHome(fs: Tree, src: Path, files: Files) {
    Stat(fs, src).Found? && fs[Stat(fs, src).path].Dir? && ExactlyAt(fs, Stat(fs, src).path, files)
  }

  lemma WholeIsTree(fs: Tree, h: Path, files: Files)
    requires Rooted(fs) && WholeAt(fs, h, files)
    ensures TreeIn(fs, h, files)
  {
    forall rel, i | rel in files && 0 <= i < |rel| ensures h + rel[..i] in fs && fs[h + rel[..i]].Dir? {
      assert h + rel[..i] < h + rel && h + rel[..i] <= h + rel;
      AncestorsExist(fs, h + rel[..i], h + rel);
      EntriesMakeAFolder(fs, h + rel[..i]);
    }
  }

  lemma TreeHolds(fs: Tree, p: Path, files: Files)
    requires Stat(fs, p).Found? && TreeIn(fs, Stat(fs, p).path, files)
    ensures Holds(fs, p, files)
  {
    forall rel | rel in files ensures Stat(fs, p + rel) == Found(Stat(fs, p).path + rel) {
      assert StandsIn(fs, Stat(fs, p).path, rel, files[rel]);
      FindBelow(fs, p, rel);
    }
  }

  lemma NothingIsHeld(fs: Tree, p: Path, files: Files)
    requires !Stat(fs, p).Found? && files != map[]
    ensures !Holds(fs, p, files)
  {
    var rel :| rel in files;
    NothingFoundBelow(fs, p, rel);
  }

  /** A home with a file in it has something in it. */
  lemma HomeHasEntries(fs: Tree, src: Path, files: Files)
    requires Rooted(fs) && IsHome(fs, src, files) && files != map[]
    ensures HasEntries(fs, Stat(fs, src).path)
  {
    var h := Stat(fs, src).path;
    var rel :| rel in files;
    assert h + [] == h;
    assert h < h + rel;
    AncestorsExist(fs, h, h + rel);
  }

  // ------------------------------------------------------------- when a move is safe

  /** What a destination that was accepted leaves to be moved. */
  ghost predicate Ready(fs: Tree, src: Path, dst: Path) {
    Rooted(fs) && Apart(src, dst) && Stat(fs, src).Found? && IsVacantPlace(fs, dst)
  }

  lemma ReadyHasFolders(fs: Tree, src: Path, dst: Path)
    requires Ready(fs, src, dst)
    ensures HasFolder(fs, src) && HasFolder(fs, dst)
  {
    FoundInAFolder(fs, src);
    VacantPlaceIsBare(fs, dst);
  }

  /** The home is a folder, not a link to one; and the way to the destination's folder
      does not go by it or by anything in it, unless it ends deeper in it. */
  ghost predicate IsSafe(fs: Tree, src: Path, dst: Path)
    requires HasFolder(fs, src) && HasFolder(fs, dst)
  {
    var s, d := EntryOf(fs, src), EntryOf(fs, dst);
    s in fs && fs[s].Dir? && (Avoids(WayTo(fs, dst), s) || s < Parent(d))
  }

  ghost predicate Avoids(way: set<Path>, root: Path) {
    forall x :: x in way ==> !(root <= x)
  }

  /** The way to the home, and to the destination's folder, goes by nothing at the
      destination. */
  lemma WaysAvoidTheDestination(fs: Tree, src: Path, dst: Path, files: Files)
    requires Ready(fs, src, dst) && HasFolder(fs, src) && HasFolder(fs, dst) && IsHome(fs, src, files) && files != map[]
    ensures var d := EntryOf(fs, dst); NothingBelow(fs, d) && Avoids(Find(fs, src, {}).seen, d) && Avoids(WayTo(fs, dst), d)
  {
    var d := EntryOf(fs, dst);
    VacantPlaceIsBare(fs, dst);
    HomeHasEntries(fs, src, files);
    NoWayByABareEntry(fs, d, src);
    NoWayToItselfByIt(fs, dst);
    SeenArePresent(fs, src, {});
    SeenArePresent(fs, Parent(dst), {});
    AvoidsAll(fs, Find(fs, src, {}).seen, d);
    AvoidsAll(fs, WayTo(fs, dst), d);
  }

  lemma AvoidsAll(fs: Tree, way: set<Path>, d: Path)
    requires way <= fs.Keys && d !in way && NothingBelow(fs, d)
    ensures Avoids(way, d)
  {
    forall x | x in way ensures !(d <= x) {
      assert d <= x ==> d < x || d == x;
    }
  }

  /** The source is not at the destination unless there is nothing in it, and the two
      are apart as long as the way to the one avoids the other. */
  lemma SafeIsApart(fs: Tree, src: Path, dst: Path, files: Files)
    requires Ready(fs, src, dst) && HasFolder(fs, src) && HasFolder(fs, dst) && IsHome(fs, src, files)
    ensures var s, d := EntryOf(fs, src), EntryOf(fs, dst);
            s in fs && !(d < s) && (files != map[] ==> s != d) && (Avoids(WayTo(fs, dst), s) ==> s == d || Apart(s, d))
  {
    var s, d := EntryOf(fs, src), EntryOf(fs, dst);
    VacantPlaceIsBare(fs, dst);
    FoundInAFolder(fs, src);
    if files != map[] {
      WaysAvoidTheDestination(fs, src, dst, files);
    }
    if s <= d && s != d {
      assert s <= Parent(d) && Parent(d) in WayTo(fs, dst);
    }
  }

  /** As long as nothing changes but at the destination, the files are read at the source. */
  lemma SourceStillHolds(fs: Tree, now: Tree, src: Path, dst: Path, files: Files)
    requires Ready(fs, src, dst) && HasFolder(fs, src) && HasFolder(fs, dst) && IsHome(fs, src, files)
    requires SameOutside(fs, now, EntryOf(fs, dst))
    ensures Holds(now, src, files)
  {
    if files != map[] {
      var h, d := Stat(fs, src).path, EntryOf(fs, dst);
      WaysAvoidTheDestination(fs, src, dst, files);
      SameWay(fs, now, src, d);
      WholeIsTree(fs, h, files);
      VacantPlaceIsBare(fs, dst);
      TreeStays(fs, now, d, h, files);
      TreeHolds(now, src, files);
    }
  }

  lemma SameWay(fs: Tree, now: Tree, p: Path, root: Path)
    requires Stat(fs, p).Found? && Avoids(Find(fs, p, {}).seen, root) && SameOutside(fs, now, root)
    ensures Find(now, p, {}) == Find(fs, p, {})
  {
    SeenArePresent(fs, p, {});
    SameOrGone(fs, now, p, {});
  }

  lemma TreeStays(fs: Tree, now: Tree, d: Path, h: Path, files: Files)
    requires IsBare(fs, d) && NothingBelow(fs, d) && TreeIn(fs, h, files) && SameOutside(fs, now, d)
    ensures TreeIn(now, h, files)
  {
    forall rel | rel in files ensures StandsIn(now, h, rel, files[rel]) {
      assert StandsIn(fs, h, rel, files[rel]);
      OutsideABareEntry(fs, d, h, rel);
      assert h + rel[..|rel|] == h + rel;
    }
  }

  lemma OutsideABareEntry(fs: Tree, d: Path, h: Path, rel: Path)
    requires IsBare(fs, d) && NothingBelow(fs, d) && h + rel in fs && fs[h + rel].File?
    ensures forall i :: 0 <= i <= |rel| ==> !(d <= h + rel[..i])
  {
    forall i | 0 <= i <= |rel| ensures !(d <= h + rel[..i]) {
      assert h + rel[..i] <= h + rel;
      assert !(d < h + rel) && h + rel != d;
    }
  }

  /** Once they stand at the destination they are read there, as long as the way to it
      goes by nothing at the source. */
  lemma DestinationHolds(fs: Tree, now: Tree, src: Path, dst: Path, files: Files)
    requires Ready(fs, src, dst) && HasFolder(fs, src) && HasFolder(fs, dst) && IsHome(fs, src, files) && files != map[]
    requires Avoids(WayTo(fs, dst), EntryOf(fs, src))
    requires forall x :: !(EntryOf(fs, src) <= x) && !(EntryOf(fs, dst) <= x) ==> (x in now <==> x in fs) && (x in now ==> now[x] == fs[x])
    requires EntryOf(fs, dst) in now && now[EntryOf(fs, dst)].Dir? && TreeIn(now, EntryOf(fs, dst), files)
    ensures Holds(now, dst, files) && Stat(now, dst).Found?
  {
    WaysAvoidTheDestination(fs, src, dst, files);
    SameWayBeside(fs, now, Parent(dst), EntryOf(fs, src), EntryOf(fs, dst));
    FoundIn(now, dst, EntryOf(fs, dst));
    TreeHolds(now, dst, files);
  }

  lemma SameWayBeside(fs: Tree, now: Tree, p: Path, a: Path, b: Path)
    requires Stat(fs, p).Found? && Avoids(Find(fs, p, {}).seen, a) && Avoids(Find(fs, p, {}).seen, b)
    requires forall x :: !(a <= x) && !(b <= x) ==> (x in now <==> x in fs) && (x in now ==> now[x] == fs[x])
    ensures Find(now, p, {}) == Find(fs, p, {}) && (fs[Stat(fs, p).path].Dir? ==> now[Stat(fs, p).path].Dir?)
  {
    SeenArePresent(fs, p, {});
    SameOrGone(fs, now, p, {});
  }

  lemma FoundIn(fs: Tree, p: Path, d: Path)
    requires HasFolder(fs, p) && EntryOf(fs, p) == d && d in fs && fs[d].Dir?
    ensures Stat(fs, p) == Found(d)
  {
  }

  /** With the source gone, and nothing new but at the destination, nothing is read at
      the source; nor at the destination, when that is missing or something on the way
      to it is. */
  lemma NeitherHolds(fs: Tree, now: Tree, src: Path, dst: Path, files: Files)
    requires Ready(fs, src, dst) && HasFolder(fs, src) && HasFolder(fs, dst) && IsHome(fs, src, files) && files != map[]
    requires forall x :: x in now && !(EntryOf(fs, dst) <= x) ==> x in fs && now[x] == fs[x]
    requires EntryOf(fs, src) !in now && (EntryOf(fs, dst) !in now || !(WayTo(fs, dst) <= now.Keys))
    ensures !Holds(now, src, files) && !Holds(now, dst, files)
  {
    WaysAvoidTheDestination(fs, src, dst, files);
    FoundInAFolder(fs, src);
    SameOrGone(fs, now, src, {});
    NothingIsHeld(now, src, files);
    SameOrGone(fs, now, Parent(dst), {});
    assert !Stat(now, dst).Found?;
    NothingIsHeld(now, dst, files);
  }

  /** Two trees agree everywhere but at and below a root. */
  ghost predicate SameOutside(a: Tree, b: Tree, root: Path) {
    forall p :: !(root <= p) ==> (p in a <==> p in b) && (p in a ==> a[p] == b[p])
  }

  lemma OutsideKeepsWhole(a: Tree, b: Tree, root: Path, other: Path, files: Files)
    requires SameOutside(a, b, root) && Apart(root, other)
    ensures WholeAt(a, other, files) ==> WholeAt(b, other, files)
    ensures ExactlyAt(a, other, files) ==> ExactlyAt(b, other, files)
  {
    forall p | p in b && other <= p ensures !(root <= p) {
      ApartBelow(root, other, p);
    }
    forall rel | rel in files && WholeAt(a, other, files) ensures other + rel in b && b[other + rel] == File(files[rel]) {
      ApartBelow(root, other, other + rel);
    }
  }

  lemma ApartBelow(a: Path, b: Path, p: Path)
    requires Apart(a, b) && b <= p
    ensures !(a <= p)
  {
    if a <= p {
      PrefixesAreComparable(a, b, p);
    }
  }

  /** Renaming moves a whole subtree in one step. */
  ghost predicate IsRename(a: Tree, b: Tree, src: Path, dst: Path) {
    && (forall p :: p in b <==> (p in a && !(src <= p) && !(dst <= p)) || (dst <= p && src + p[|dst|..] in a))
    && (forall p :: p in b ==> b[p] == if dst <= p then a[src + p[|dst|..]] else a[p])
  }

  function Rename(a: Tree, src: Path, dst: Path): (b: Tree)
    ensures IsRename(a, b, src, dst)
  {
    var moved := set p | p in a && src <= p :: dst + p[|src|..];
    var b := map p | p in (a.Keys + moved) && (if dst <= p then src + p[|dst|..] in a else !(src <= p))
      :: if dst <= p then a[src + p[|dst|..]] else a[p];
    assert forall p :: dst <= p && src + p[|dst|..] in a ==> p in moved by {
      forall p | dst <= p && src + p[|dst|..] in a ensures p in moved {
        var q := src + p[|dst|..];
        assert src <= q && q[|src|..] == p[|dst|..] && dst + q[|src|..] == p;
      }
    }
    b
  }

  lemma RenameCarriesEverything(a: Tree, src: Path, dst: Path, files: Files)
    requires ExactlyAt(a, src, files) && Apart(src, dst)
    ensures ExactlyAt(Rename(a, src, dst), dst, files)
    ensures forall p :: p in Rename(a, src, dst) ==> !(src <= p)
  {
    var b := Rename(a, src, dst);
    forall rel | rel in files ensures dst + rel in b && b[dst + rel] == File(files[rel]) {
      assert (dst + rel)[|dst|..] == rel && dst <= dst + rel;
      assert src + rel in a;
    }
    forall p | p in b && dst <= p && b[p].File? ensures p[|dst|..] in files {
      var q := src + p[|dst|..];
      assert src <= q && q[|src|..] == p[|dst|..];
    }
    forall p | p in b ensures !(src <= p) {
      if dst <= p {
        ApartBelow(src, dst, p);
      }
    }
  }

  /** And the folders that lead to the files with it. */
  lemma RenameCarriesTree(a: Tree, src: Path, dst: Path, files: Files)
    requires TreeIn(a, src, files)
    ensures TreeIn(Rename(a, src, dst), dst, files)
  {
    var b := Rename(a, src, dst);
    forall rel | rel in files ensures StandsIn(b, dst, rel, files[rel]) {
      assert StandsIn(a, src, rel, files[rel]);
      Renamed(a, src, dst, rel);
      forall i | 0 <= i < |rel| ensures dst + rel[..i] in b && b[dst + rel[..i]].Dir? {
        Renamed(a, src, dst, rel[..i]);
      }
    }
  }

  lemma Renamed(a: Tree, src: Path, dst: Path, rel: Path)
    requires src + rel in a
    ensures dst + rel in Rename(a, src, dst) && Rename(a, src, dst)[dst + rel] == a[src + rel]
  {
    assert dst <= dst + rel && (dst + rel)[|dst|..] == rel;
  }

  datatype Outcome =
    | ParentNotMade
    | DestinationNotCleared
    | Moved
    | ModeNotSet
    | CopyFailed
    | SourceNotRemoved
  {
    /** Every outcome but one is returned as an error. */
    predicate IsError() {
      !Moved?
    }
  }

  lemma {:induction false} MaximalExists(s: set<Path>, p: Path, bound: nat) returns (m: Path)
    requires p in s && forall q :: q in s ==> |q| <= bound
    ensures m in s && forall q :: q in s ==> !(m < q)
    decreases bound - |p|
  {
    m := p;
    if exists q :: q in s && p < q {
      var q :| q in s && p < q;
      m := MaximalExists(s, q, bound);
    }
  }
}
