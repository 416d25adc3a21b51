/** A file system with symbolic links, and where a path leads in it. */
module Links {
  import opened Prelude
  import opened Paths

  type Bytes = seq<int>

  /** What a symbolic link says is a clean absolute path. */
  datatype Node = Dir | File(content: Bytes) | Symlink(target: Path)

  type Tree = map<Path, Node>

  /** Every entry stands in a folder. */
  ghost predicate Rooted(fs: Tree) {
    [] in fs && fs[[]].Dir? && forall p :: p in fs && p != [] ==> p[..|p| - 1] in fs && fs[p[..|p| - 1]].Dir?
  }

  function Parent(p: Path): Path
    requires p != []
  {
    p[..|p| - 1]
  }

  /** Where following a path ends: at an entry that is no link, or at none, or at a
      file that is not the last of the path, or in a ring of links. */
  datatype Place = Found(path: Path) | Missing | Broken

  /** Where a path leads, and every entry that was looked up on the way. */
  datatype Way = Way(place: Place, seen: set<Path>)

  function LinksOf(fs: Tree): set<Path> {
    set p | p in fs && fs[p].Symlink?
  }

  lemma OneMoreBusy(fs: Tree, busy: set<Path>, e: Path)
    requires e in LinksOf(fs) && e !in busy
    ensures |LinksOf(fs) - (busy + {e})| < |LinksOf(fs) - busy|
  {
    assert LinksOf(fs) - (busy + {e}) == (LinksOf(fs) - busy) - {e};
  }

  /** Follows a path from the root, and every link it meets, the last component's
      included. `busy` are the links that are being followed already. */
  function Find(fs: Tree, p: Path, busy: set<Path>): (w: Way)
    ensures w.place.Found? ==> w.place.path in fs && !fs[w.place.path].Symlink? && w.place.path in w.seen
    decreases |LinksOf(fs) - busy|, |p|
  {
    if p == [] then Way(if [] in fs && !fs[[]].Symlink? then Found([]) else Missing, {[]})
    else
      var w := Find(fs, Parent(p), busy);
      if !w.place.Found? then w
      else if !fs[w.place.path].Dir? then Way(Broken, w.seen)
      else
        var e := w.place.path + [p[|p| - 1]];
        if e !in fs then Way(Missing, w.seen + {e})
        else if fs[e].Symlink? then
          if e in busy then Way(Broken, w.seen + {e})
          else
            OneMoreBusy(fs, busy, e);
            var t := Find(fs, fs[e].target, busy + {e});
            Way(t.place, w.seen + {e} + t.seen)
        else Way(Found(e), w.seen + {e})
  }

  /** What a path leads to, as `os.Stat` has it. */
  function Stat(fs: Tree, p: Path): Place {
    Find(fs, p, {}).place
  }

  /** Whether the last component of a path has a folder to stand in. */
  predicate HasFolder(fs: Tree, p: Path) {
    p != [] && Stat(fs, Parent(p)).Found? && fs[Stat(fs, Parent(p)).path].Dir?
  }

  /** The entry the last component of a path stands for, not followed if it is a
      link: what `os.Lstat`, `os.Remove` and `os.Rename` are about. */
  function EntryOf(fs: Tree, p: Path): Path
    requires HasFolder(fs, p)
  {
    Stat(fs, Parent(p)).path + [p[|p| - 1]]
  }

  /** The entries looked up on the way to a path's folder. */
  function WayTo(fs: Tree, p: Path): set<Path>
    requires p != []
  {
    Find(fs, Parent(p), {}).seen
  }

  // ------------------------------------------------------------- what is looked up

  lemma {:induction false} SeenArePresent(fs: Tree, p: Path, busy: set<Path>)
    requires Find(fs, p, busy).place.Found?
    ensures Find(fs, p, busy).seen <= fs.Keys
    decreases |LinksOf(fs) - busy|, |p|
  {
    if p != [] {
      SeenArePresent(fs, Parent(p), busy);
      var e := Find(fs, Parent(p), busy).place.path + [p[|p| - 1]];
      if fs[e].Symlink? {
        OneMoreBusy(fs, busy, e);
        SeenArePresent(fs, fs[e].target, busy + {e});
      }
    }
  }

  /** In another tree, where each entry looked up is what it was or is gone, a path
      leads where it led if none is gone, and otherwise nowhere. */
  lemma {:induction false} SameOrGone(a: Tree, b: Tree, p: Path, busy: set<Path>)
    requires Find(a, p, busy).place.Found?
    requires forall x :: x in Find(a, p, busy).seen && x in b ==> x in a && b[x] == a[x]
    ensures if Find(a, p, busy).seen <= b.Keys then Find(b, p, busy) == Find(a, p, busy) else !Find(b, p, busy).place.Found?
    decreases |LinksOf(a) - busy|, |p|
  {
    if p != [] {
      var w := Find(a, Parent(p), busy);
      SameOrGone(a, b, Parent(p), busy);
      var e := w.place.path + [p[|p| - 1]];
      if w.seen <= b.Keys && e in b && a[e].Symlink? {
        OneMoreBusy(a, busy, e);
        SameOrGone(a, b, a[e].target, busy + {e});
      }
    }
  }

  /** A way that looks up a folder with nothing in it ends there. */
  lemma {:induction false} DeadEnd(fs: Tree, p: Path, busy: set<Path>, x: Path)
    requires Find(fs, p, busy).place.Found? && x in Find(fs, p, busy).seen
    requires x in fs && fs[x].Dir? && !HasEntries(fs, x)
    ensures Find(fs, p, busy).place.path == x
    decreases |LinksOf(fs) - busy|, |p|
  {
    if p != [] {
      var w := Find(fs, Parent(p), busy);
      var e := w.place.path + [p[|p| - 1]];
      assert HasEntries(fs, w.place.path) by {
        assert w.place.path < e && e in fs;
      }
      if x in w.seen {
        DeadEnd(fs, Parent(p), busy, x);
      } else if fs[e].Symlink? {
        OneMoreBusy(fs, busy, e);
        DeadEnd(fs, fs[e].target, busy + {e}, x);
      }
    }
  }

  predicate HasEntries(fs: Tree, dir: Path) {
    exists p :: p in fs && dir < p && |p| == |dir| + 1
  }

  /** With fewer links being followed already, a path that leads somewhere leads there. */
  lemma {:induction false} LessBusy(fs: Tree, p: Path, busy: set<Path>, less: set<Path>)
    requires Find(fs, p, busy).place.Found? && less <= busy
    ensures Find(fs, p, less) == Find(fs, p, busy)
    decreases |LinksOf(fs) - busy|, |p|
  {
    if p != [] {
      LessBusy(fs, Parent(p), busy, less);
      var e := Find(fs, Parent(p), busy).place.path + [p[|p| - 1]];
      if fs[e].Symlink? {
        OneMoreBusy(fs, busy, e);
        LessBusy(fs, fs[e].target, busy + {e}, less + {e});
      }
    }
  }

  /** A way that looks up a link goes by where the link leads. */
  lemma {:induction false} LinkInWay(fs: Tree, p: Path, busy: set<Path>, x: Path)
    requires Find(fs, p, busy).place.Found? && x in Find(fs, p, busy).seen && x in fs && fs[x].Symlink?
    ensures Find(fs, fs[x].target, {x}).place.Found? && Find(fs, fs[x].target, {x}).place.path in Find(fs, p, busy).seen
    decreases |LinksOf(fs) - busy|, |p|
  {
    if p != [] {
      var w := Find(fs, Parent(p), busy);
      var e := w.place.path + [p[|p| - 1]];
      if x in w.seen {
        LinkInWay(fs, Parent(p), busy, x);
      } else if fs[e].Symlink? {
        OneMoreBusy(fs, busy, e);
        if x == e {
          LessBusy(fs, fs[e].target, busy + {e}, {e});
        } else {
          LinkInWay(fs, fs[e].target, busy + {e}, x);
        }
      }
    }
  }

  /** Below a folder a path leads to, through folders, it leads to what stands there. */
  lemma {:induction false} FindBelow(fs: Tree, p: Path, rel: Path)
    requires Stat(fs, p).Found?
    requires var h := Stat(fs, p).path;
             h + rel in fs && !fs[h + rel].Symlink? && forall i :: 0 <= i < |rel| ==> h + rel[..i] in fs && fs[h + rel[..i]].Dir?
    ensures Stat(fs, p + rel) == Found(Stat(fs, p).path + rel)
    decreases |rel|
  {
    var h := Stat(fs, p).path;
    if rel == [] {
      assert p + rel == p && h + rel == h;
    } else {
      var up := rel[..|rel| - 1];
      assert forall i :: 0 <= i < |up| ==> up[..i] == rel[..i];
      FindBelow(fs, p, up);
      assert Parent(p + rel) == p + up && h + up + [rel[|rel| - 1]] == h + rel;
    }
  }

  /** Below a path that leads nowhere nothing is found. */
  lemma {:induction false} NothingFoundBelow(fs: Tree, p: Path, rel: Path)
    requires !Stat(fs, p).Found?
    ensures !Stat(fs, p + rel).Found?
    decreases |rel|
  {
    if rel == [] {
      assert p + rel == p;
    } else {
      NothingFoundBelow(fs, p, rel[..|rel| - 1]);
      assert Parent(p + rel) == p + rel[..|rel| - 1];
    }
  }
}
