/** Renaming an export's user files so that every number is written equally
    wide, and what that renaming never does. */
module PadUserFiles {
  import opened Prelude
  import opened Decimal
  import opened ExportLayout

  function DigitsOf(name: string): nat {
    match SplitUserFile(name)
    case None => 0
    case Some((_, n)) => |Print(n)|
  }

  /** The widest number among the files, never less than the floor. */
  function WidthOf(files: seq<string>): (w: nat)
    ensures w >= UserFileDigits
    ensures forall i :: 0 <= i < |files| ==> DigitsOf(files[i]) <= w
  {
    if files == [] then UserFileDigits
    else
      var front, d := files[..|files| - 1], DigitsOf(files[|files| - 1]);
      var w := WidthOf(front);
      assert forall i :: 0 <= i < |front| ==> files[i] == front[i];
      if d > w then d else w
  }

  /** The name a user file gets; a file that does not split keeps its own. */
  function Target(name: string, width: nat): string {
    match SplitUserFile(name)
    case None => name
    case Some((prefix, n)) => UserFileName(prefix, Pad(n, width))
  }

  function Targets(files: seq<string>, width: nat): (r: seq<string>)
    ensures |r| == |files| && forall i :: 0 <= i < |files| ==> r[i] == Target(files[i], width)
  {
    seq(|files|, i requires 0 <= i < |files| => Target(files[i], width))
  }

  /** Every name in the layout; an absent realm file has none. */
  function Names(l: Layout): seq<string> {
    (if l.realmFile == "" then [] else [l.realmFile]) + l.userFiles + l.other
  }

  function Seeds(l: Layout): set<string> {
    {l.realmFile} + (set name | name in l.other) + (set name | name in l.userFiles)
  }

  /** Padding the k-th file would land on a name already there or already given. */
  predicate Clash(l: Layout, width: nat, k: nat)
    requires k < |l.userFiles|
  {
    var name := Target(l.userFiles[k], width);
    name != l.userFiles[k] && (name in Seeds(l) || name in Targets(l.userFiles[..k], width))
  }

  ghost predicate NoClashBefore(l: Layout, width: nat, i: nat)
    requires i <= |l.userFiles|
  {
    forall k :: 0 <= k < i ==> !Clash(l, width, k)
  }

  predicate AnyClash(l: Layout) {
    exists k :: 0 <= k < |l.userFiles| && Clash(l, WidthOf(l.userFiles), k)
  }

  /** The file names that change, with the name each changes to. */
  function Renames(files: seq<string>, width: nat): map<string, string> {
    map name | name in files && Target(name, width) != name :: Target(name, width)
  }

  /** The outcome of padding: on a clash, or with nothing to rename, the layout
      as it came. */
  function Padded(l: Layout): (Layout, Option<map<string, string>>) {
    var width := WidthOf(l.userFiles);
    if AnyClash(l) || Targets(l.userFiles, width) == l.userFiles then (l, None)
    else (l.(userFiles := Targets(l.userFiles, width)), Some(Renames(l.userFiles, width)))
  }

  /** The three loops: the width, the names taken, the new names. */
  method PadUserFiles(l: Layout) returns (out: Layout, renames: Option<map<string, string>>)
    ensures (out, renames) == Padded(l)
  {
    if |l.userFiles| == 0 {
      assert Targets(l.userFiles, WidthOf(l.userFiles)) == l.userFiles;
      return l, None;
    }
    var width := UserFileDigits;
    for i := 0 to |l.userFiles|
      invariant width == WidthOf(l.userFiles[..i])
    {
      assert l.userFiles[..i + 1][..i] == l.userFiles[..i];
      match SplitUserFile(l.userFiles[i])
      case None =>
      case Some((_, n)) =>
        var d := |Print(n)|;
        if d > width {
          width := d;
        }
    }
    assert l.userFiles[..|l.userFiles|] == l.userFiles;
    out, renames := PadAll(l, width);
  }

  method PadAll(l: Layout, width: nat) returns (out: Layout, renames: Option<map<string, string>>)
    requires width == WidthOf(l.userFiles)
    ensures (out, renames) == Padded(l)
  {
    var files := l.userFiles;
    var taken := Seeds(l);
    var changed: map<string, string> := map[];
    var padded: seq<string> := [];
    for i := 0 to |files|
      invariant padded == Targets(files[..i], width)
      invariant IsTaken(l, padded, taken)
      invariant changed == Renames(files[..i], width)
      invariant NoClashBefore(l, width, i)
    {
      var next := Target(files[i], width);
      WhenItClashes(l, width, i, padded, taken);
      OneMoreFile(files, width, i);
      if next != files[i] {
        if next in taken {
          return l, None;
        }
        changed := changed[files[i] := next];
      }
      OneMoreTaken(l, padded, taken, next);
      taken := taken + {next};
      padded := padded + [next];
      OneMoreClear(l, width, i);
    }
    assert files[..|files|] == files;
    NothingRenamed(files, width);
    if changed == map[] {
      return l, None;
    }
    return l.(userFiles := padded), Some(changed);
  }

  /** The names of the layout and those already given. */
  ghost predicate IsTaken(l: Layout, padded: seq<string>, taken: set<string>) {
    forall x :: x in taken <==> x in Seeds(l) || x in padded
  }

  lemma OneMoreTaken(l: Layout, padded: seq<string>, taken: set<string>, next: string)
    requires IsTaken(l, padded, taken)
    ensures IsTaken(l, padded + [next], taken + {next})
  {
  }

  lemma WhenItClashes(l: Layout, width: nat, i: nat, padded: seq<string>, taken: set<string>)
    requires i < |l.userFiles| && padded == Targets(l.userFiles[..i], width) && IsTaken(l, padded, taken)
    ensures var next := Target(l.userFiles[i], width); Clash(l, width, i) <==> next != l.userFiles[i] && next in taken
  {
  }

  lemma OneMoreClear(l: Layout, width: nat, i: nat)
    requires i < |l.userFiles| && NoClashBefore(l, width, i) && !Clash(l, width, i)
    ensures NoClashBefore(l, width, i + 1)
  {
  }

  lemma OneMoreFile(files: seq<string>, width: nat, i: nat)
    requires i < |files|
    ensures Targets(files[..i + 1], width) == Targets(files[..i], width) + [Target(files[i], width)]
    ensures Renames(files[..i + 1], width) ==
            var next := Target(files[i], width);
            if next != files[i] then Renames(files[..i], width)[files[i] := next] else Renames(files[..i], width)
  {
    assert files[..i + 1] == files[..i] + [files[i]];
  }

  lemma NothingRenamed(files: seq<string>, width: nat)
    ensures Renames(files, width) == map[] <==> Targets(files, width) == files
  {
    if Renames(files, width) == map[] {
      forall k | 0 <= k < |files| ensures Target(files[k], width) == files[k] {
        assert files[k] !in Renames(files, width);
      }
    } else {
      var name :| name in Renames(files, width);
      var k :| 0 <= k < |files| && files[k] == name;
      assert Targets(files, width)[k] != files[k];
    }
  }

  // ------------------------------------------------------- what padding keeps

  /** A padded name still splits into the same prefix and number. */
  lemma SplitTarget(name: string, width: nat)
    ensures SplitUserFile(Target(name, width)) == SplitUserFile(name)
  {
    if SplitUserFile(name).Some? {
      var (prefix, n) := SplitUserFile(name).value;
      SplitGivesTheName(name);
      ValuePad(n, width);
      SplitOfName(prefix, Pad(n, width));
    }
  }

  lemma {:induction false} WidthOfTargets(files: seq<string>, width: nat)
    ensures WidthOf(Targets(files, width)) == WidthOf(files)
  {
    if files != [] {
      var front := files[..|files| - 1];
      WidthOfTargets(front, width);
      assert Targets(files, width)[..|files| - 1] == Targets(front, width);
      SplitTarget(files[|files| - 1], width);
    }
  }

  lemma TargetTwice(name: string, width: nat)
    ensures Target(Target(name, width), width) == Target(name, width)
  {
    SplitTarget(name, width);
  }

  /** Padding a padded layout changes nothing more. */
  lemma PadIsIdempotent(l: Layout)
    ensures Padded(Padded(l).0) == (Padded(l).0, None)
  {
    var files, width := l.userFiles, WidthOf(l.userFiles);
    if Padded(l).1.Some? {
      WidthOfTargets(files, width);
      forall k | 0 <= k < |files| ensures Target(Targets(files, width)[k], width) == Targets(files, width)[k] {
        TargetTwice(files[k], width);
      }
      assert Targets(Targets(files, width), width) == Targets(files, width);
    }
  }

  /** Unless a clash left the layout as it came, the text order of two user
      files with one prefix is the order of their numbers. */
  lemma TextOrderIsPageOrder(l: Layout, i: nat, j: nat)
    requires !AnyClash(l)
    requires i < |l.userFiles| && j < |l.userFiles|
    requires SplitUserFile(l.userFiles[i]).Some? && SplitUserFile(l.userFiles[j]).Some?
    requires SplitUserFile(l.userFiles[i]).value.0 == SplitUserFile(l.userFiles[j]).value.0
    ensures var files := Padded(l).0.userFiles;
            |files| == |l.userFiles| &&
            SplitUserFile(files[i]) == SplitUserFile(l.userFiles[i]) &&
            SplitUserFile(files[j]) == SplitUserFile(l.userFiles[j]) &&
            var m, n := SplitUserFile(l.userFiles[i]).value.1, SplitUserFile(l.userFiles[j]).value.1;
            (TextLess(files[i], files[j]) <==> m < n)
  {
    var width := WidthOf(l.userFiles);
    assert Padded(l).0.userFiles == Targets(l.userFiles, width);
    SplitTarget(l.userFiles[i], width);
    SplitTarget(l.userFiles[j], width);
    var (prefix, m) := SplitUserFile(l.userFiles[i]).value;
    var n := SplitUserFile(l.userFiles[j]).value.1;
    assert DigitsOf(l.userFiles[i]) <= width && DigitsOf(l.userFiles[j]) <= width;
    PaddedNamesInOrder(prefix, m, n, width);
  }

  lemma PaddedNamesInOrder(prefix: string, m: nat, n: nat, width: nat)
    requires |Print(m)| <= width && |Print(n)| <= width
    ensures TextLess(UserFileName(prefix, Pad(m, width)), UserFileName(prefix, Pad(n, width))) <==> m < n
  {
    var head, a, b := prefix + "-users-", Pad(m, width), Pad(n, width);
    assert UserFileName(prefix, a) == head + (a + ".json");
    assert UserFileName(prefix, b) == head + (b + ".json");
    TextLessCommonPrefix(head, a + ".json", b + ".json");
    TextLessCommonSuffix(a, b, ".json");
    TextOrderIsNumeric(a, b);
    ValuePad(m, width);
    ValuePad(n, width);
  }

  // ------------------------------------------------- how wide, and when refused

  /** The width is not wider than it has to be: three, or what some number takes. */
  lemma {:induction false} WidthIsNeeded(files: seq<string>)
    ensures 3 <= WidthOf(files) && (WidthOf(files) == 3 || TakesAll(files, WidthOf(files)))
  {
    if files != [] {
      var front := files[..|files| - 1];
      WidthIsNeeded(front);
      if WidthOf(files) == WidthOf(front) {
        if TakesAll(front, WidthOf(files)) {
          var i :| 0 <= i < |front| && SplitUserFile(front[i]).Some? && |Print(SplitUserFile(front[i]).value.1)| == WidthOf(files);
          assert files[i] == front[i];
        }
      } else {
        assert SplitUserFile(files[|files| - 1]).Some?;
      }
    }
  }

  /** The shortest numeral of some file takes the whole width. */
  ghost predicate TakesAll(files: seq<string>, width: nat) {
    exists i :: 0 <= i < |files| && SplitUserFile(files[i]).Some? && |Print(SplitUserFile(files[i]).value.1)| == width
  }

  /** Unless it is refused every number is written in that many digits, after the prefix
      it had; and a file that does not split keeps its name. */
  lemma PaddedToOneWidth(l: Layout, i: nat)
    requires !AnyClash(l) && i < |l.userFiles|
    ensures var name, width, files := l.userFiles[i], WidthOf(l.userFiles), Padded(l).0.userFiles;
            |files| == |l.userFiles|
            && match SplitUserFile(name)
               case None => files[i] == name
               case Some((prefix, n)) =>
                 exists digits :: |digits| == width && AllDigits(digits) && Value(digits) == n && files[i] == prefix + "-users-" + digits + ".json"
  {
    assert Padded(l).0.userFiles == Targets(l.userFiles, WidthOf(l.userFiles));
    if SplitUserFile(l.userFiles[i]).Some? {
      var (prefix, n) := SplitUserFile(l.userFiles[i]).value;
      assert DigitsOf(l.userFiles[i]) <= WidthOf(l.userFiles);
      ValuePad(n, WidthOf(l.userFiles));
      assert |Pad(n, WidthOf(l.userFiles))| == WidthOf(l.userFiles);
    }
  }

  /** Padding is refused if and only if some name would change to one that stands in the
      layout, or to one that an earlier file has been given; the layout is as it came then,
      and when there is nothing to rename. */
  lemma WhenItIsRefused(l: Layout)
    ensures var files, t := l.userFiles, Targets(l.userFiles, WidthOf(l.userFiles));
            AnyClash(l) <==> exists k :: 0 <= k < |files| && t[k] != files[k] && (t[k] in Names(l) || t[k] in t[..k])
    ensures Padded(l).1.None? <==> AnyClash(l) || Targets(l.userFiles, WidthOf(l.userFiles)) == l.userFiles
    ensures Padded(l).1.None? ==> Padded(l).0 == l
  {
    var files, width := l.userFiles, WidthOf(l.userFiles);
    var t := Targets(files, width);
    forall k | 0 <= k < |files| ensures Clash(l, width, k) <==> t[k] != files[k] && (t[k] in Names(l) || t[k] in t[..k]) {
      assert Targets(files[..k], width) == t[..k];
      TargetsHaveNames(l, width, k);
    }
  }

  lemma TargetsHaveNames(l: Layout, width: nat, k: nat)
    requires k < |l.userFiles|
    ensures Target(l.userFiles[k], width) != l.userFiles[k] ==>
              (Target(l.userFiles[k], width) in Seeds(l) <==> Target(l.userFiles[k], width) in Names(l))
  {
    var r := if l.realmFile == "" then [] else [l.realmFile];
    assert forall x :: x in r + l.userFiles + l.other <==> x in r || x in l.userFiles || x in l.other;
  }

  /** No prefix has a number twice, as kc.sh numbers its files. */
  ghost predicate NumberedApart(files: seq<string>) {
    forall i, j :: 0 <= i < j < |files| && SplitUserFile(files[i]).Some? ==> SplitUserFile(files[i]) != SplitUserFile(files[j])
  }

  ghost predicate NoneSplits(names: seq<string>) {
    forall i :: 0 <= i < |names| ==> SplitUserFile(names[i]).None?
  }

  /** Then it is not refused, unless another file is named like one of them. */
  lemma NotRefusedAsNumbered(l: Layout)
    requires NumberedApart(l.userFiles) && SplitUserFile(l.realmFile).None? && NoneSplits(l.other)
    ensures !AnyClash(l)
  {
    var width := WidthOf(l.userFiles);
    forall k | 0 <= k < |l.userFiles| ensures !Clash(l, width, k) {
      if Target(l.userFiles[k], width) != l.userFiles[k] {
        TargetIsNew(l, width, k);
        TargetIsNotGiven(l.userFiles, width, k);
      }
    }
  }

  lemma NoneIsNamed(names: seq<string>, name: string)
    requires NoneSplits(names) && SplitUserFile(name).Some?
    ensures name !in names
  {
    forall i | 0 <= i < |names| ensures names[i] != name {
      assert SplitUserFile(names[i]).None?;
    }
  }

  lemma NoOtherSplitsSo(files: seq<string>, k: nat, next: string)
    requires NumberedApart(files) && k < |files| && SplitUserFile(files[k]).Some?
    requires SplitUserFile(next) == SplitUserFile(files[k]) && next != files[k]
    ensures next !in files
  {
    forall j | 0 <= j < |files| ensures files[j] != next {
      assert j < k && SplitUserFile(files[j]).Some? ==> SplitUserFile(files[j]) != SplitUserFile(files[k]);
      assert k < j ==> SplitUserFile(files[k]) != SplitUserFile(files[j]);
    }
  }

  lemma TargetIsNew(l: Layout, width: nat, k: nat)
    requires NumberedApart(l.userFiles) && SplitUserFile(l.realmFile).None? && NoneSplits(l.other)
    requires k < |l.userFiles| && Target(l.userFiles[k], width) != l.userFiles[k]
    ensures Target(l.userFiles[k], width) !in Seeds(l)
  {
    var next := Target(l.userFiles[k], width);
    SplitTarget(l.userFiles[k], width);
    NoneIsNamed(l.other, next);
    NoOtherSplitsSo(l.userFiles, k, next);
  }

  lemma TargetIsNotGiven(files: seq<string>, width: nat, k: nat)
    requires NumberedApart(files) && k < |files| && SplitUserFile(files[k]).Some?
    ensures Target(files[k], width) !in Targets(files[..k], width)
  {
    SplitTarget(files[k], width);
    forall j | 0 <= j < k ensures Targets(files[..k], width)[j] != Target(files[k], width) {
      SplitTarget(files[j], width);
      assert SplitUserFile(files[j]).Some? ==> SplitUserFile(files[j]) != SplitUserFile(files[k]);
    }
  }

  /** What the renames say is what becomes of the files. */
  lemma RenamesTellTheFiles(l: Layout)
    requires Padded(l).1.Some?
    ensures var files, renames := Padded(l).0.userFiles, Padded(l).1.value;
            |files| == |l.userFiles|
            && (forall i :: 0 <= i < |files| ==>
                  files[i] == if l.userFiles[i] in renames then renames[l.userFiles[i]] else l.userFiles[i])
            && forall name :: name in renames ==> name in l.userFiles && renames[name] != name
  {
  }

  lemma RenameOfAFile(l: Layout, name: string) returns (k: nat)
    requires Padded(l).1.Some? && name in Padded(l).1.value
    ensures k < |l.userFiles| && l.userFiles[k] == name
    ensures Padded(l).1.value[name] == Target(name, WidthOf(l.userFiles)) != name
    ensures !Clash(l, WidthOf(l.userFiles), k)
  {
    RenamedIsAFile(l, name);
    k :| 0 <= k < |l.userFiles| && l.userFiles[k] == name;
  }

  lemma RenamedIsAFile(l: Layout, name: string)
    requires Padded(l).1.Some? && name in Padded(l).1.value
    ensures name in l.userFiles && Padded(l).1.value[name] == Target(name, WidthOf(l.userFiles)) != name && !AnyClash(l)
  {
  }

  /** Every new name is new to the whole original layout. */
  lemma RenamesAreFresh(l: Layout, a: string)
    requires Padded(l).1.Some? && a in Padded(l).1.value
    ensures a in l.userFiles && Padded(l).1.value[a] !in Names(l)
  {
    var i := RenameOfAFile(l, a);
    NamesAreSeeds(l);
  }

  /** And no two files get one name: the renames can be carried out in any order. */
  lemma RenamesDiffer(l: Layout, a: string, b: string)
    requires Padded(l).1.Some? && a in Padded(l).1.value && b in Padded(l).1.value && a != b
    ensures Padded(l).1.value[a] != Padded(l).1.value[b]
  {
    var i := RenameOfAFile(l, a);
    var j := RenameOfAFile(l, b);
    if i < j {
      TargetsDiffer(l, i, j);
    } else {
      TargetsDiffer(l, j, i);
    }
  }

  lemma NamesAreSeeds(l: Layout)
    ensures forall x :: x in Names(l) ==> x in Seeds(l)
  {
  }

  /** Distinct names stay distinct, and no file is lost. */
  lemma PadKeepsNamesDistinct(l: Layout)
    requires Distinct(Names(l))
    ensures Distinct(Names(Padded(l).0)) && |Names(Padded(l).0)| == |Names(l)|
    ensures Padded(l).0.realmFile == l.realmFile && Padded(l).0.other == l.other
  {
    if Padded(l).1.Some? {
      var files, t := l.userFiles, Targets(l.userFiles, WidthOf(l.userFiles));
      var r := if l.realmFile == "" then [] else [l.realmFile];
      DistinctParts(r, files, l.other);
      assert Distinct(t) by {
        forall i, j | 0 <= i < j < |files| ensures t[i] != t[j] {
          TargetsDiffer(l, i, j);
        }
      }
      forall i, x | 0 <= i < |t| && x in r + l.other ensures t[i] != x {
        TargetIsNotOther(l, i, x);
      }
      DistinctWhole(r, t, l.other);
    }
  }

  lemma TargetsDiffer(l: Layout, i: nat, j: nat)
    requires !AnyClash(l) && i < j < |l.userFiles| && l.userFiles[i] != l.userFiles[j]
    ensures Target(l.userFiles[i], WidthOf(l.userFiles)) != Target(l.userFiles[j], WidthOf(l.userFiles))
  {
    var width := WidthOf(l.userFiles);
    assert !Clash(l, width, i) && !Clash(l, width, j);
    assert Targets(l.userFiles[..j], width)[i] == Target(l.userFiles[i], width);
  }

  lemma TargetIsNotOther(l: Layout, i: nat, x: string)
    requires Distinct(Names(l)) && !AnyClash(l) && i < |l.userFiles|
    requires x in (if l.realmFile == "" then [] else [l.realmFile]) + l.other
    ensures Target(l.userFiles[i], WidthOf(l.userFiles)) != x
  {
    assert !Clash(l, WidthOf(l.userFiles), i);
    assert x in Seeds(l);
    DistinctParts(if l.realmFile == "" then [] else [l.realmFile], l.userFiles, l.other);
  }

  lemma DistinctParts<T>(r: seq<T>, s: seq<T>, t: seq<T>)
    requires Distinct(r + s + t)
    ensures Distinct(r) && Distinct(s) && Distinct(t)
    ensures forall x :: x in s ==> x !in r + t
    ensures forall x :: x in r ==> x !in t
  {
    var w := r + s + t;
    assert forall i :: 0 <= i < |r| ==> w[i] == r[i];
    assert forall i :: 0 <= i < |s| ==> w[|r| + i] == s[i];
    assert forall i :: 0 <= i < |t| ==> w[|r| + |s| + i] == t[i];
  }

  lemma DistinctWhole<T>(r: seq<T>, s: seq<T>, t: seq<T>)
    requires Distinct(r) && Distinct(s) && Distinct(t)
    requires forall i, x :: 0 <= i < |s| && x in r + t ==> s[i] != x
    requires forall x :: x in r ==> x !in t
    ensures Distinct(r + s + t)
  {
    var w := r + s + t;
    forall i, j | 0 <= i < j < |w| ensures w[i] != w[j] {
      if i < |r| <= j < |r| + |s| {
        assert r[i] in r + t && s[j - |r|] != r[i];
      } else if |r| <= i < |r| + |s| <= j {
        assert t[j - |r| - |s|] in r + t && s[i - |r|] != t[j - |r| - |s|];
      } else if i < |r| && |r| + |s| <= j {
        assert r[i] in r && t[j - |r| - |s|] in t;
      }
    }
  }
}
