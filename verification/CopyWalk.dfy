/** Copying a folder entry by entry: what a finished walk leaves, and when it cannot
    finish because it copies the folder deeper into itself. */
module CopyWalk {
  import opened Prelude
  import opened Paths
  import opened Links
  import opened Relocation

  ghost predicate Vacant(fs: Tree, root: Path) {
    forall p :: p in fs ==> !(root <= p)
  }

  /** Where an entry below `src` is copied to. */
  function Target(src: Path, dst: Path, p: Path): Path
    requires src <= p
  {
    dst + p[|src|..]
  }

  lemma TargetOfChild(src: Path, dst: Path, p: Path, c: string)
    requires src <= p
    ensures src <= p + [c] && Target(src, dst, p + [c]) == Target(src, dst, p) + [c]
  {
    assert (p + [c])[|src|..] == p[|src|..] + [c];
  }

  /** What is read from a folder. */
  function Names(fs: Tree, p: Path): (names: set<string>)
    ensures forall c :: c in names <==> p + [c] in fs
  {
    var names := set q | q in fs && p < q && |q| == |p| + 1 :: q[|p|];
    assert forall c :: p + [c] in fs ==> (p + [c])[|p|] == c;
    assert forall c :: c in names ==> p + [c] in fs by {
      forall c | c in names ensures p + [c] in fs {
        var q :| q in fs && p < q && |q| == |p| + 1 && q[|p|] == c;
        assert q == p + [c];
      }
    }
    names
  }

  // ------------------------------------------------------------- a finished walk

  /** At t stands what stands at p, without its symbolic links. */
  ghost predicate Mirror(a: Tree, p: Path, b: Tree, t: Path) {
    forall rel: Path :: MirrorAt(a, p, b, t, rel)
  }

  ghost predicate MirrorAt(a: Tree, p: Path, b: Tree, t: Path, rel: Path) {
    && (t + rel in b <==> p + rel in a && !a[p + rel].Symlink?)
    && (t + rel in b ==> b[t + rel] == a[p + rel])
  }

  /** The folder is made, the children in `done` are copied, and of the others nothing. */
  ghost predicate Progress(a: Tree, p: Path, b: Tree, t: Path, done: set<string>) {
    && t in b && b[t].Dir?
    && (forall c :: c in done ==> Mirror(a, p + [c], b, t + [c]))
    && (forall c :: c !in done ==> Vacant(b, t + [c]))
  }

  lemma FolderMirrors(a: Tree, p: Path, b: Tree, t: Path)
    requires Rooted(a) && p in a && a[p].Dir? && Progress(a, p, b, t, Names(a, p))
    ensures Mirror(a, p, b, t)
  {
    forall rel: Path ensures MirrorAt(a, p, b, t, rel) {
      if rel == [] {
        assert p + rel == p && t + rel == t;
      } else {
        BelowAName(a, p, b, t, rel[0], rel[1..]);
        assert [rel[0]] + rel[1..] == rel;
      }
    }
  }

  lemma BelowAName(a: Tree, p: Path, b: Tree, t: Path, c: string, more: Path)
    requires Rooted(a) && Progress(a, p, b, t, Names(a, p))
    ensures MirrorAt(a, p, b, t, [c] + more)
  {
    Regrouped(p, c, more);
    Regrouped(t, c, more);
    if c in Names(a, p) {
      assert MirrorAt(a, p + [c], b, t + [c], more);
    } else {
      NoneBelowNothing(a, p + [c], more);
      NoneInAVacantPlace(b, t + [c], more);
    }
  }

  lemma Regrouped(p: Path, c: string, more: Path)
    ensures p + ([c] + more) == (p + [c]) + more
  {
  }

  lemma NoneInAVacantPlace(b: Tree, t: Path, more: Path)
    requires Vacant(b, t)
    ensures t + more !in b
  {
    assert t <= t + more;
  }

  lemma NoneBelowNothing(a: Tree, p: Path, more: Path)
    requires Rooted(a) && p !in a
    ensures p + more !in a
  {
    if p + more in a {
      AncestorsExist(a, p, p + more);
    }
  }

  /** A file, or a link, has nothing below it. */
  lemma LeafMirrors(a: Tree, p: Path, b: Tree, t: Path)
    requires Rooted(a) && p in a && !a[p].Dir?
    requires forall q :: q in b && t <= q ==> q == t
    requires t in b <==> a[p].File?
    requires t in b ==> b[t] == a[p]
    ensures Mirror(a, p, b, t)
  {
    forall rel: Path ensures MirrorAt(a, p, b, t, rel) {
      if rel == [] {
        assert p + rel == p && t + rel == t;
      } else {
        assert t <= t + rel && t + rel != t;
        NoneBelowALeaf(a, p, rel);
      }
    }
  }

  lemma NoneBelowALeaf(a: Tree, p: Path, rel: Path)
    requires Rooted(a) && p in a && !a[p].Dir? && rel != []
    ensures p + rel !in a
  {
    if p + rel in a {
      assert p < p + rel;
      AncestorsExist(a, p, p + rel);
      EntriesMakeAFolder(a, p);
    }
  }

  lemma MirrorKept(a: Tree, p: Path, b: Tree, t: Path, next: Tree, root: Path)
    requires Mirror(a, p, b, t) && SameOutside(b, next, root) && Apart(root, t)
    ensures Mirror(a, p, next, t)
  {
    forall rel: Path ensures MirrorAt(a, p, next, t, rel) {
      assert MirrorAt(a, p, b, t, rel) && t <= t + rel;
      ApartBelow(root, t, t + rel);
    }
  }

  lemma SameMirrored(a: Tree, now: Tree, root: Path, p: Path, b: Tree, t: Path)
    requires Mirror(now, p, b, t) && SameOutside(a, now, root) && Apart(root, p)
    ensures Mirror(a, p, b, t)
  {
    forall rel: Path ensures MirrorAt(a, p, b, t, rel) {
      assert MirrorAt(now, p, b, t, rel) && p <= p + rel;
      ApartBelow(root, p, p + rel);
    }
  }

  lemma VacantKept(b: Tree, next: Tree, t: Path, root: Path)
    requires Vacant(b, t) && SameOutside(b, next, root) && Apart(root, t)
    ensures Vacant(next, t)
  {
    forall p | p in next && t <= p ensures p in b {
      ApartBelow(root, t, p);
    }
  }

  lemma SiblingsApart(t: Path, c: string, e: string)
    requires c != e
    ensures Apart(t + [c], t + [e])
  {
    assert (t + [c])[|t|] == c && (t + [e])[|t|] == e;
  }

  /** One child more: nothing else at the target has changed. */
  lemma OneMoreChild(a: Tree, p: Path, b: Tree, t: Path, done: set<string>, c: string, next: Tree)
    requires Progress(a, p, b, t, done) && SameOutside(b, next, t + [c]) && Mirror(a, p + [c], next, t + [c])
    ensures Progress(a, p, next, t, done + {c})
  {
    assert !(t + [c] <= t);
    forall e | e in done + {c} ensures Mirror(a, p + [e], next, t + [e]) {
      if e != c {
        SiblingsApart(t, c, e);
        MirrorKept(a, p + [e], b, t + [e], next, t + [c]);
      }
    }
    forall e | e !in done + {c} ensures Vacant(next, t + [e]) {
      SiblingsApart(t, c, e);
      VacantKept(b, next, t + [e], t + [c]);
    }
  }

  lemma NoneDone(a: Tree, p: Path, b: Tree, t: Path, next: Tree)
    requires Vacant(b, t) && next == b[t := Dir]
    ensures Progress(a, p, next, t, {})
  {
    forall c, q | q in next ensures !(t + [c] <= q) {
      assert t + [c] <= q ==> t <= q && q != t;
    }
  }

  /** The entry may be copied as it stands: nothing is at its target yet, and it is
      apart from the destination, or it is the whole source with the destination to
      be made directly in it. */
  ghost predicate Fresh(fs: Tree, src: Path, dst: Path, p: Path)
    requires src <= p
  {
    Vacant(fs, Target(src, dst, p)) && (Apart(p, dst) || (p == src && src <= dst && |dst| == |src| + 1))
  }

  /** There is room for the whole copy. */
  ghost predicate Roomy(fs: Tree, p: Path, t: Path, limit: nat) {
    forall q :: q in fs && p <= q ==> |t| + |q| - |p| <= limit
  }

  /** A child that was listed is as fresh as its folder, and apart from what is changed
      meanwhile. */
  lemma ChildIsFresh(fs: Tree, src: Path, dst: Path, p: Path, c: string, b: Tree, done: set<string>)
    requires src <= p && Fresh(fs, src, dst, p) && c in Names(fs, p) && c !in done
    requires Progress(fs, p, b, Target(src, dst, p), done)
    ensures src <= p + [c] && Fresh(b, src, dst, p + [c])
    ensures Apart(dst, p + [c]) && Apart(Target(src, dst, p), p + [c])
  {
    TargetOfChild(src, dst, p, c);
    var t := Target(src, dst, p);
    assert dst <= t;
    if Apart(p, dst) {
      ChildApart(p, dst, c);
    } else {
      assert t == dst;
      assert p + [c] != dst;
    }
    assert t <= p + [c] ==> dst <= p + [c];
    ApartBelow(p + [c], dst, t);
  }

  lemma ChildApart(p: Path, d: Path, c: string)
    requires Apart(p, d)
    ensures Apart(p + [c], d)
  {
    assert p <= p + [c] && (p + [c] <= d ==> p <= d);
    ApartBelow(d, p, p + [c]);
  }

  // ---------------------------------------------- a walk that cannot come to an end

  /** The entry is on the way the walk never leaves once the destination stands deeper
      in the source: down to the destination, and from there down to the copy of the
      destination in itself, again and again. */
  ghost predicate OnChain(fs: Tree, src: Path, dst: Path, p: Path) {
    && src <= p && src <= dst && |dst| >= |src| + 2 && p in fs && fs[p].Dir?
    && p[|src|..] <= dst[|src|..] + p[|src|..]
    && (forall i :: |src| <= i < |dst| ==> dst[..i] in fs && fs[dst[..i]].Dir?)
    && (forall j :: 0 <= j < |p| - |src| ==> dst + p[|src|..][..j] in fs && fs[dst + p[|src|..][..j]].Dir?)
  }

  /** The next name on it. */
  function NextOnChain(src: Path, dst: Path, p: Path): string
    requires src <= p && src <= dst && |dst| >= |src| + 2
  {
    (dst[|src|..] + p[|src|..])[|p| - |src|]
  }

  lemma StartsTheChain(fs: Tree, src: Path, dst: Path)
    requires Rooted(fs) && src in fs && fs[src].Dir? && dst != [] && src < Parent(dst) && Parent(dst) in fs && fs[Parent(dst)].Dir?
    ensures OnChain(fs, src, dst, src)
  {
    forall i | |src| <= i < |dst| ensures dst[..i] in fs && fs[dst[..i]].Dir? {
      FolderAbove(fs, dst, i);
    }
  }

  lemma FolderAbove(fs: Tree, dst: Path, i: nat)
    requires Rooted(fs) && i < |dst| && Parent(dst) in fs && fs[Parent(dst)].Dir?
    ensures dst[..i] in fs && fs[dst[..i]].Dir?
  {
    assert dst[..i] <= Parent(dst);
    AncestorsExist(fs, dst[..i], Parent(dst));
    if dst[..i] != Parent(dst) {
      EntriesMakeAFolder(fs, dst[..i]);
    }
  }

  /** The next name is there to be listed, and it is a folder. */
  lemma ChainIsListed(fs: Tree, src: Path, dst: Path, p: Path)
    requires OnChain(fs, src, dst, p)
    ensures var c := NextOnChain(src, dst, p); p + [c] in fs && fs[p + [c]].Dir?
  {
    var m, rel, c := dst[|src|..], p[|src|..], NextOnChain(src, dst, p);
    assert p == src + rel && dst == src + m;
    if |rel| < |m| {
      var i := |p| + 1;
      assert p + [c] == dst[..i];
      if i == |dst| {
        assert dst + rel[..0] == dst;
      }
    } else {
      var j := |rel| - |m| + 1;
      assert (m + rel)[..|rel| + 1] == rel + [c];
      assert p + [c] == src + (m + rel)[..|rel| + 1] == dst + rel[..j];
    }
  }

  /** And it is on the chain, as long as nothing has changed but at the target of the
      folder, which is made by then. */
  lemma ChainGoesOn(fs: Tree, now: Tree, src: Path, dst: Path, p: Path)
    requires OnChain(fs, src, dst, p) && SameOutside(fs, now, Target(src, dst, p))
    requires Target(src, dst, p) in now && now[Target(src, dst, p)].Dir?
    ensures OnChain(now, src, dst, p + [NextOnChain(src, dst, p)])
  {
    var m, rel, c, t := dst[|src|..], p[|src|..], NextOnChain(src, dst, p), Target(src, dst, p);
    ChainIsListed(fs, src, dst, p);
    var q := p + [c];
    assert q[|src|..] == rel + [c];
    assert |q| < |t|;
    NextPrefix(m, rel);
    forall j | 0 <= j < |q| - |src| ensures dst + q[|src|..][..j] in now && now[dst + q[|src|..][..j]].Dir? {
      assert q[|src|..][..j] == rel[..j];
      if j == |rel| {
        assert rel[..j] == rel;
      } else {
        assert |dst + rel[..j]| < |t|;
      }
    }
  }

  lemma NextPrefix(m: Path, rel: Path)
    requires m != [] && rel <= m + rel
    ensures rel + [(m + rel)[|rel|]] <= m + (rel + [(m + rel)[|rel|]])
  {
    var c := (m + rel)[|rel|];
    assert m + (rel + [c]) == (m + rel) + [c];
    assert (m + rel)[..|rel| + 1] == rel + [c];
  }

  // -------------------------------------------------------------- a folder's turn

  /** No path is deeper than the file system takes. */
  ghost predicate Bounded(fs: Tree, limit: nat) {
    forall p :: p in fs ==> |p| <= limit
  }

  /** The folder at p is being walked, with the children in `done` behind it. */
  ghost predicate Walking(a: Tree, b: Tree, src: Path, dst: Path, p: Path, done: set<string>, limit: nat) {
    && src <= p && Rooted(b) && Bounded(b, limit)
    && var t := Target(src, dst, p);
       SameOutside(a, b, t) && t in b && b[t].Dir? && (Fresh(a, src, dst, p) ==> Progress(a, p, b, t, done))
  }

  lemma FolderIsBegun(a: Tree, b: Tree, src: Path, dst: Path, p: Path, limit: nat)
    requires src <= p && b == a[Target(src, dst, p) := Dir] && Rooted(b) && Bounded(a, limit)
    requires Target(src, dst, p) in a || |Target(src, dst, p)| <= limit
    ensures Walking(a, b, src, dst, p, {}, limit)
    ensures OnChain(a, src, dst, p) ==> NextOnChain(src, dst, p) in Names(a, p)
  {
    if Fresh(a, src, dst, p) {
      NoneDone(a, p, a, Target(src, dst, p), b);
    }
    if OnChain(a, src, dst, p) {
      ChainIsListed(a, src, dst, p);
    }
  }

  /** A child that was listed is still there when its turn comes, and what held of the
      folder holds of it. */
  lemma ChildIsThere(a: Tree, b: Tree, src: Path, dst: Path, p: Path, done: set<string>, c: string, limit: nat)
    requires Walking(a, b, src, dst, p, done, limit) && c in Names(a, p) && c !in done && !(dst <= src)
    ensures src <= p + [c] && p + [c] in b && |p| < limit
    ensures Target(src, dst, p + [c]) == Target(src, dst, p) + [c]
    ensures Fresh(a, src, dst, p) ==> Fresh(b, src, dst, p + [c]) && Apart(Target(src, dst, p), p + [c])
    ensures Fresh(a, src, dst, p) && Roomy(a, p, Target(src, dst, p), limit) ==> Roomy(b, p + [c], Target(src, dst, p) + [c], limit)
    ensures OnChain(a, src, dst, p) && c == NextOnChain(src, dst, p) ==> OnChain(b, src, dst, p + [c])
  {
    var t := Target(src, dst, p);
    TargetOfChild(src, dst, p, c);
    ListedStays(a, b, src, dst, p, c);
    if Fresh(a, src, dst, p) {
      ChildIsFresh(a, src, dst, p, c, b, done);
      if Roomy(a, p, t, limit) {
        RoomyBelow(a, b, p, t, c, limit);
      }
    }
    if OnChain(a, src, dst, p) {
      ChainGoesOn(a, b, src, dst, p);
    }
  }

  lemma ListedStays(a: Tree, b: Tree, src: Path, dst: Path, p: Path, c: string)
    requires src <= p && p + [c] in a && !(dst <= src)
    requires SameOutside(a, b, Target(src, dst, p)) && Target(src, dst, p) in b
    ensures p + [c] in b
  {
    var t := Target(src, dst, p);
    if t <= p + [c] {
      assert dst <= t <= p + [c] && src <= p + [c];
      PrefixesAreComparable(dst, src, p + [c]);
      assert |t| >= |p| + 1;
      assert t == p + [c];
    }
  }

  lemma RoomyBelow(a: Tree, b: Tree, p: Path, t: Path, c: string, limit: nat)
    requires Roomy(a, p, t, limit) && SameOutside(a, b, t) && Apart(t, p + [c])
    ensures Roomy(b, p + [c], t + [c], limit)
  {
    forall q | q in b && p + [c] <= q ensures |t + [c]| + |q| - |p + [c]| <= limit {
      ApartBelow(t, p + [c], q);
      assert p <= p + [c] <= q;
    }
  }

  lemma ChildIsDone(a: Tree, b: Tree, now: Tree, src: Path, dst: Path, p: Path, done: set<string>, c: string, limit: nat)
    requires Walking(a, b, src, dst, p, done, limit) && c in Names(a, p) && c !in done
    requires SameOutside(b, now, Target(src, dst, p) + [c]) && Rooted(now) && Bounded(now, limit)
    requires Fresh(a, src, dst, p) ==> Mirror(b, p + [c], now, Target(src, dst, p) + [c]) && Apart(Target(src, dst, p), p + [c])
    ensures Walking(a, now, src, dst, p, done + {c}, limit)
  {
    var t := Target(src, dst, p);
    assert t <= t + [c] && !(t + [c] <= t);
    if Fresh(a, src, dst, p) {
      SameMirrored(a, b, t, p + [c], now, t + [c]);
      OneMoreChild(a, p, b, t, done, c, now);
    }
  }

  lemma WalkIsDone(a: Tree, b: Tree, src: Path, dst: Path, p: Path, limit: nat)
    requires Rooted(a) && p in a && a[p].Dir? && Walking(a, b, src, dst, p, Names(a, p), limit)
    ensures Fresh(a, src, dst, p) ==> Mirror(a, p, b, Target(src, dst, p))
  {
    if Fresh(a, src, dst, p) {
      FolderMirrors(a, p, b, Target(src, dst, p));
    }
  }

  /** It is the turn of the names in `left`. */
  ghost predicate Turn(a: Tree, b: Tree, src: Path, dst: Path, p: Path, left: set<string>, limit: nat) {
    && left <= Names(a, p) && Walking(a, b, src, dst, p, Names(a, p) - left, limit)
    && (OnChain(a, src, dst, p) ==> NextOnChain(src, dst, p) in left)
  }

  lemma NextTurn(a: Tree, b: Tree, now: Tree, src: Path, dst: Path, p: Path, left: set<string>, c: string, limit: nat)
    requires Turn(a, b, src, dst, p, left, limit) && c in left
    requires Walking(a, now, src, dst, p, Names(a, p) - left + {c}, limit)
    requires OnChain(a, src, dst, p) ==> c != NextOnChain(src, dst, p)
    ensures Turn(a, now, src, dst, p, left - {c}, limit)
  {
    assert Names(a, p) - (left - {c}) == Names(a, p) - left + {c};
  }

  lemma FirstTurn(a: Tree, b: Tree, src: Path, dst: Path, p: Path, limit: nat)
    requires src <= p && b == a[Target(src, dst, p) := Dir] && Rooted(b) && Bounded(a, limit)
    requires Target(src, dst, p) in a || |Target(src, dst, p)| <= limit
    ensures Turn(a, b, src, dst, p, Names(a, p), limit)
  {
    FolderIsBegun(a, b, src, dst, p, limit);
    assert Names(a, p) - Names(a, p) == {};
  }

  lemma LastTurn(a: Tree, b: Tree, src: Path, dst: Path, p: Path, limit: nat)
    requires Rooted(a) && p in a && a[p].Dir? && Turn(a, b, src, dst, p, {}, limit)
    ensures Rooted(b) && Bounded(b, limit) && !OnChain(a, src, dst, p)
    ensures Fresh(a, src, dst, p) ==> Mirror(a, p, b, Target(src, dst, p))
  {
    assert Names(a, p) - {} == Names(a, p);
    WalkIsDone(a, b, src, dst, p, limit);
  }
}
