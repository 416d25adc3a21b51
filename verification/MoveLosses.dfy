/** Three homes and destinations that are accepted and not safe, one for each way a move
    loses the files. */
module MoveLosses {
  import opened Prelude
  import opened Paths
  import opened Links
  import opened Relocation
  import opened MoveTree

  lemma SplitOfTwo(a: char, b: char)
    requires a != '/' && b != '/'
    ensures Split(['/', a, '/', b]) == ["", [a], [b]]
  {
    assert ['/', a, '/', b][1..] == [a, '/', b] && [a, '/', b][1..] == ['/', b] && ['/', b][1..] == [b] && [b][1..] == "";
    assert [""][1..] == [] && [b] + "" == [b];
    assert Split([b]) == [[b]];
    assert Split(['/', b]) == ["", [b]];
    assert ["", [b]][1..] == [[b]] && [a] + "" == [a];
    assert Split([a, '/', b]) == [[a], [b]];
  }

  lemma CleanOfTwo(a: char, b: char)
    requires a !in "/." && b !in "/."
    ensures Clean(['/', a, '/', b]) == [[a], [b]]
  {
    SplitOfTwo(a, b);
    var pieces := ["", [a], [b]];
    assert pieces[..2] == ["", [a]] && ["", [a]][..1] == [""] && [""][..0] == [];
    assert Resolve([""]) == [];
    assert Resolve(["", [a]]) == [[a]];
  }

  lemma CleanOfOne(a: char)
    requires a !in "/."
    ensures Clean(['/', a]) == [[a]]
  {
    assert ['/', a][1..] == [a] && [a][1..] == "" && [""][1..] == [] && [a] + "" == [a];
    assert Split([a]) == [[a]];
    assert Split(['/', a]) == ["", [a]];
    assert ["", [a]][..1] == [""] && [""][..0] == [];
    assert Resolve([""]) == [];
  }

  lemma Texts()
    ensures CleanPath(["h"]) && "/" <= "/l/n" && Clean("/l/n") == ["l", "n"] && "/" <= "/n" && Clean("/n") == ["n"]
  {
    CleanOfTwo('l', 'n');
    CleanOfOne('n');
  }

  // ------------------------------------------------------------ in and below the root

  lemma RootFolder(c: string)
    ensures Parent([c]) == [] && [] + [c] == [c]
  {
  }

  lemma FindInRoot(fs: Tree, c: string, busy: set<Path>)
    requires [] in fs && fs[[]].Dir? && [c] in fs && !fs[[c]].Symlink?
    ensures Find(fs, [c], busy) == Way(Found([c]), {[], [c]})
  {
    RootFolder(c);
  }

  /** A link in the root that leads somewhere. */
  lemma FindLinkInRoot(fs: Tree, c: string)
    requires [] in fs && fs[[]].Dir? && [c] in fs && fs[[c]].Symlink?
    ensures var t := Find(fs, fs[[c]].target, {[c]}); Find(fs, [c], {}) == Way(t.place, {[], [c]} + t.seen)
  {
    RootFolder(c);
    var none: set<Path> := {};
    assert none + {[c]} == {[c]};
  }

  lemma EntryInRoot(fs: Tree, c: string)
    requires [] in fs && fs[[]].Dir?
    ensures HasFolder(fs, [c]) && EntryOf(fs, [c]) == [c] && WayTo(fs, [c]) == {[]}
    ensures [c] !in fs ==> Stat(fs, [c]) == Missing
  {
    RootFolder(c);
  }

  /** What stands in a folder a path leads to. */
  lemma EntryInAFolder(fs: Tree, p: Path, n: string, e: Path)
    requires Stat(fs, p) == Found(e) && e in fs && fs[e].Dir? && e + [n] !in fs
    ensures HasFolder(fs, p + [n]) && EntryOf(fs, p + [n]) == e + [n] && WayTo(fs, p + [n]) == Find(fs, p, {}).seen
    ensures Stat(fs, p + [n]) == Missing
  {
    assert Parent(p + [n]) == p;
  }

  // -------------------------------------------------------------- when a move loses

  /** The destination is accepted, the home has a file, and the move is not safe. */
  ghost predicate Loses(fs: Tree, src: Path, given: string, files: Files) {
    && CleanPath(src) && CheckDestination(fs, src, given).None? && files != map[]
    && Given(fs, src, Clean(given), files) && !IsSafe(fs, src, Clean(given))
  }

  /** A home that is nothing but one file at h, and a destination that is not there and
      not safe. */
  ghost predicate IsTrap(fs: Tree, src: Path, h: Path, content: Bytes, dst: Path) {
    && Rooted(fs) && Apart(src, dst) && Stat(fs, src) == Found(h) && fs[h].Dir? && ExactlyAt(fs, h, map[["f"] := content])
    && HasFolder(fs, src) && HasFolder(fs, dst) && Stat(fs, dst) == Missing && !IsSafe(fs, src, dst)
  }

  lemma TrapLoses(fs: Tree, src: Path, h: Path, content: Bytes, given: string, dst: Path)
    requires IsTrap(fs, src, h, content, dst) && CleanPath(src) && "/" <= given && Clean(given) == dst
    ensures Loses(fs, src, given, map[["f"] := content])
  {
    AcceptedDestinations(fs, src, given);
    assert ["f"] in map[["f"] := content];
  }

  lemma OneFile(fs: Tree, h: Path, content: Bytes)
    requires h + ["f"] in fs && fs[h + ["f"]] == File(content)
    requires forall p :: p in fs && h <= p && fs[p].File? ==> p == h + ["f"]
    ensures ExactlyAt(fs, h, map[["f"] := content])
  {
    assert (h + ["f"])[|h|..] == ["f"];
  }

  /** The folders of such a tree. */
  lemma SmallIsRooted(fs: Tree)
    requires [] in fs && fs[[]].Dir? && forall p :: p in fs ==> |p| <= 2
    requires forall p :: p in fs && |p| == 2 ==> [p[0]] in fs && fs[[p[0]]].Dir?
    ensures Rooted(fs)
  {
    forall p | p in fs && p != [] ensures p[..|p| - 1] in fs && fs[p[..|p| - 1]].Dir? {
      assert p[..|p| - 1] == if |p| == 1 then [] else [p[0]];
    }
  }

  lemma NamesApart(a: string, b: string, c: string)
    requires a != b
    ensures Apart([a], [b]) && Apart([a], [b, c]) && [b] + [c] == [b, c]
  {
    assert [a][0] == a && [b][0] == b && [b, c][0] == b;
  }

  // -------------------------------------------------- into the home itself, by a link

  /** /l is a link to the home /h, and the destination is a new folder in it, /l/n. */
  predicate HomeIsLinkedTo(fs: Tree, content: Bytes) {
    && [] in fs && fs[[]].Dir? && ["l"] in fs && fs[["l"]] == Symlink(["h"]) && ["h"] in fs && fs[["h"]].Dir?
    && ["h", "f"] in fs && fs[["h", "f"]] == File(content)
    && forall p :: p in fs ==> p == [] || p == ["l"] || p == ["h"] || p == ["h", "f"]
  }

  lemma IntoTheHomeByALink(fs: Tree, content: Bytes)
    requires HomeIsLinkedTo(fs, content)
    ensures Loses(fs, ["h"], "/l/n", map[["f"] := content])
  {
    HomeIsATrap(fs, content);
    Texts();
    TrapLoses(fs, ["h"], ["h"], content, "/l/n", ["l", "n"]);
  }

  lemma HomeIsATrap(fs: Tree, content: Bytes)
    requires HomeIsLinkedTo(fs, content)
    ensures IsTrap(fs, ["h"], ["h"], content, ["l", "n"])
  {
    WaysToTheHome(fs, content);
    TheHome(fs, content);
    ByALink(fs, "l", "h", "n");
    NamesApart("h", "l", "n");
  }

  lemma WaysToTheHome(fs: Tree, content: Bytes)
    requires HomeIsLinkedTo(fs, content)
    ensures Stat(fs, ["h"]) == Stat(fs, ["l"]) == Found(["h"]) && ["h"] in Find(fs, ["l"], {}).seen
    ensures HasFolder(fs, ["h"]) && EntryOf(fs, ["h"]) == ["h"]
  {
    FindInRoot(fs, "h", {});
    FindInRoot(fs, "h", {["l"]});
    FindLinkInRoot(fs, "l");
    EntryInRoot(fs, "h");
  }

  lemma TheHome(fs: Tree, content: Bytes)
    requires HomeIsLinkedTo(fs, content)
    ensures Rooted(fs) && ExactlyAt(fs, ["h"], map[["f"] := content]) && ["h", "n"] !in fs
  {
    assert ["h"] + ["f"] == ["h", "f"] && ["h", "f"][0] == "h";
    SmallIsRooted(fs);
    OneFile(fs, ["h"], content);
    assert ["h", "n"][1] == "n" && ["h", "f"][1] == "f";
  }

  lemma ByALink(fs: Tree, l: string, h: string, n: string)
    requires Stat(fs, [l]) == Found([h]) && [h] in fs && fs[[h]].Dir? && [h] in Find(fs, [l], {}).seen && [h, n] !in fs
    requires HasFolder(fs, [h]) && EntryOf(fs, [h]) == [h]
    ensures HasFolder(fs, [l, n]) && Stat(fs, [l, n]) == Missing && !IsSafe(fs, [h], [l, n])
  {
    assert [h] + [n] == [h, n] && [l] + [n] == [l, n] && Parent([h, n]) == [h];
    EntryInAFolder(fs, [l], n, [h]);
  }

  // -------------------------------------------------------- a home that is a link

  /** /h is a link to the folder /d that has the file, and the destination is /n. */
  predicate HomeIsALink(fs: Tree, content: Bytes) {
    && [] in fs && fs[[]].Dir? && ["h"] in fs && fs[["h"]] == Symlink(["d"]) && ["d"] in fs && fs[["d"]].Dir?
    && ["d", "f"] in fs && fs[["d", "f"]] == File(content)
    && forall p :: p in fs ==> p == [] || p == ["h"] || p == ["d"] || p == ["d", "f"]
  }

  lemma ByAHomeThatIsALink(fs: Tree, content: Bytes)
    requires HomeIsALink(fs, content)
    ensures Loses(fs, ["h"], "/n", map[["f"] := content])
  {
    LinkIsATrap(fs, content);
    Texts();
    TrapLoses(fs, ["h"], ["d"], content, "/n", ["n"]);
  }

  lemma LinkIsATrap(fs: Tree, content: Bytes)
    requires HomeIsALink(fs, content)
    ensures IsTrap(fs, ["h"], ["d"], content, ["n"])
  {
    WayByTheLink(fs, content);
    TheFolder(fs, content);
    EntryInRoot(fs, "h");
    EntryInRoot(fs, "n");
    NamesApart("h", "n", "n");
  }

  lemma WayByTheLink(fs: Tree, content: Bytes)
    requires HomeIsALink(fs, content)
    ensures Stat(fs, ["h"]) == Found(["d"])
  {
    FindInRoot(fs, "d", {["h"]});
    FindLinkInRoot(fs, "h");
  }

  lemma TheFolder(fs: Tree, content: Bytes)
    requires HomeIsALink(fs, content)
    ensures Rooted(fs) && ExactlyAt(fs, ["d"], map[["f"] := content]) && ["n"] !in fs
  {
    assert ["d"] + ["f"] == ["d", "f"] && ["d", "f"][0] == "d";
    SmallIsRooted(fs);
    OneFile(fs, ["d"], content);
    assert ["n"][0] == "n" && ["h"][0] == "h" && ["d"][0] == "d";
  }

  // --------------------------------------------- a way that goes by the home's inside

  /** /l is a link to /h/o in the home, and that is one to the folder /e; the destination
      is /l/n, a new folder in it. */
  predicate WayIsInTheHome(fs: Tree, content: Bytes) {
    && [] in fs && fs[[]].Dir? && ["l"] in fs && fs[["l"]] == Symlink(["h", "o"]) && ["h"] in fs && fs[["h"]].Dir?
    && ["h", "o"] in fs && fs[["h", "o"]] == Symlink(["e"]) && ["e"] in fs && fs[["e"]].Dir?
    && ["h", "f"] in fs && fs[["h", "f"]] == File(content)
    && forall p :: p in fs ==> p == [] || p == ["l"] || p == ["h"] || p == ["e"] || p == ["h", "o"] || p == ["h", "f"]
  }

  lemma ByAWayInTheHome(fs: Tree, content: Bytes)
    requires WayIsInTheHome(fs, content)
    ensures Loses(fs, ["h"], "/l/n", map[["f"] := content])
  {
    WayIsATrap(fs, content);
    Texts();
    TrapLoses(fs, ["h"], ["h"], content, "/l/n", ["l", "n"]);
  }

  lemma WayIsATrap(fs: Tree, content: Bytes)
    requires WayIsInTheHome(fs, content)
    ensures IsTrap(fs, ["h"], ["h"], content, ["l", "n"])
  {
    WayOut(fs, content);
    TheWholeHome(fs, content);
    OutOfTheHome(fs);
    NamesApart("h", "l", "n");
  }

  lemma WayOut(fs: Tree, content: Bytes)
    requires WayIsInTheHome(fs, content)
    ensures Stat(fs, ["h"]) == Found(["h"]) && HasFolder(fs, ["h"]) && EntryOf(fs, ["h"]) == ["h"]
    ensures Stat(fs, ["l"]) == Found(["e"]) && ["h"] in Find(fs, ["l"], {}).seen
  {
    FindInRoot(fs, "h", {});
    FindInRoot(fs, "h", {["l"]});
    EntryInRoot(fs, "h");
    FindInRoot(fs, "e", {["l"], ["h", "o"]});
    assert ["h"] + ["o"] == ["h", "o"] && ["h", "o"] !in {["l"]};
    LinkInAFolder(fs, ["h"], "o", {["l"]}, {["l"], ["h", "o"]});
    FindLinkInRoot(fs, "l");
  }

  lemma LinkInAFolder(fs: Tree, p: Path, n: string, busy: set<Path>, more: set<Path>)
    requires Find(fs, p, busy).place == Found(p) && fs[p].Dir? && p + [n] in fs && fs[p + [n]].Symlink? && p + [n] !in busy
    requires more == busy + {p + [n]}
    ensures var t := Find(fs, fs[p + [n]].target, more);
            Find(fs, p + [n], busy) == Way(t.place, Find(fs, p, busy).seen + {p + [n]} + t.seen)
  {
    assert Parent(p + [n]) == p;
  }

  lemma TheWholeHome(fs: Tree, content: Bytes)
    requires WayIsInTheHome(fs, content)
    ensures Rooted(fs) && ExactlyAt(fs, ["h"], map[["f"] := content]) && ["e", "n"] !in fs
  {
    assert ["h"] + ["f"] == ["h", "f"] && ["h", "f"][0] == "h" && ["h", "o"][0] == "h";
    SmallIsRooted(fs);
    OneFile(fs, ["h"], content);
    assert ["e", "n"][0] == "e";
  }

  lemma OutOfTheHome(fs: Tree)
    requires Stat(fs, ["l"]) == Found(["e"]) && ["e"] in fs && fs[["e"]].Dir? && ["h"] in Find(fs, ["l"], {}).seen && ["e", "n"] !in fs
    requires HasFolder(fs, ["h"]) && EntryOf(fs, ["h"]) == ["h"]
    ensures HasFolder(fs, ["l", "n"]) && Stat(fs, ["l", "n"]) == Missing && !IsSafe(fs, ["h"], ["l", "n"])
  {
    assert ["e"] + ["n"] == ["e", "n"] && ["l"] + ["n"] == ["l", "n"] && Parent(["e", "n"]) == ["e"];
    EntryInAFolder(fs, ["l"], "n", ["e"]);
    assert ["e"][0] == "e" && ["h"][0] == "h";
  }
}
