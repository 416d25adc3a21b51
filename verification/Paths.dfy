/** Clean absolute paths as lists of components, and the test of whether one
    lies inside another. */
module Paths {
  import opened Prelude

  type Path = seq<string>

  predicate CleanName(c: string) {
    c != "" && c != "." && c != ".." && '/' !in c
  }

  predicate CleanPath(p: Path) {
    forall i :: 0 <= i < |p| ==> CleanName(p[i])
  }

  /** The pieces of a text between its slashes. */
  function Split(s: string): (r: seq<string>)
    ensures forall i :: 0 <= i < |r| ==> '/' !in r[i]
  {
    if s == "" then [""]
    else
      var rest := Split(s[1..]);
      if s[0] == '/' then [""] + rest
      else if rest == [] then [[s[0]]] else [[s[0]] + rest[0]] + rest[1..]
  }

  /** Cleaning an absolute path: empty and dot pieces go, and a double dot takes
      the piece before it along. */
  function Resolve(pieces: seq<string>): (p: Path)
    requires forall i :: 0 <= i < |pieces| ==> '/' !in pieces[i]
    ensures CleanPath(p)
  {
    if pieces == [] then []
    else
      var before, c := Resolve(pieces[..|pieces| - 1]), pieces[|pieces| - 1];
      if c == "" || c == "." then before
      else if c == ".." then (if before == [] then [] else before[..|before| - 1])
      else before + [c]
  }

  function Clean(s: string): (p: Path)
    ensures CleanPath(p)
  {
    Resolve(Split(s))
  }

  lemma {:induction false} SplitOfOne(c: string)
    requires '/' !in c
    ensures Split(c) == [c]
  {
    if c != "" {
      SplitOfOne(c[1..]);
      assert c == [c[0]] + c[1..];
    }
  }

  lemma {:induction false} SplitAtLast(s: string, c: string)
    requires '/' !in c
    ensures Split(s + "/" + c) == Split(s) + [c]
  {
    var t := s + "/" + c;
    if s == "" {
      SplitOfOne(c);
      assert t[1..] == c;
    } else {
      SplitAtLast(s[1..], c);
      assert t[1..] == s[1..] + "/" + c && t[0] == s[0];
      SplitHasPieces(s[1..]);
    }
  }

  lemma {:induction false} SplitHasPieces(s: string)
    ensures Split(s) != []
  {
    if s != "" { SplitHasPieces(s[1..]); }
  }

  /** What one more piece behind a slash does to the path a text spells: none or a dot
      changes nothing, a double dot leads to the folder it is in, and a name goes on. */
  lemma CleanOfOneMore(s: string, c: string)
    requires '/' !in c
    ensures Clean("") == []
    ensures Clean(s + "/" + c) ==
            if c == "" || c == "." then Clean(s)
            else if c != ".." then Clean(s) + [c]
            else if Clean(s) == [] then []
            else Clean(s)[..|Clean(s)| - 1]
  {
    SplitAtLast(s, c);
    assert (Split(s) + [c])[..|Split(s) + [c]| - 1] == Split(s);
  }

  function Join(p: seq<string>): string {
    if p == [] then "" else if |p| == 1 then p[0] else p[0] + "/" + Join(p[1..])
  }

  function CommonLength(a: Path, b: Path): (k: nat)
    ensures k <= |a| && k <= |b| && a[..k] == b[..k]
    ensures k < |a| && k < |b| ==> a[k] != b[k]
    ensures k == |a| <==> a <= b
  {
    if a == [] || b == [] || a[0] != b[0] then 0
    else
      var k := 1 + CommonLength(a[1..], b[1..]);
      assert a == [a[0]] + a[1..] && b == [b[0]] + b[1..];
      k
  }

  /** The text of `target` relative to `base`: up once for every component of
      the base that is not shared, then down. */
  function Rel(base: Path, target: Path): string {
    var k := CommonLength(base, target);
    if |base| == k == |target| then "."
    else Join(seq(|base| - k, _ => "..") + target[k..])
  }

  /** The test as the code makes it, on the relative path's text. */
  predicate Within(path: Path, root: Path) {
    var rel := Rel(root, path);
    rel != ".." && !("../" <= rel)
  }

  lemma JoinStartsWithItsFirst(p: seq<string>)
    requires p != [] && '/' !in p[0]
    ensures Join(p) == ".." || "../" <= Join(p) <==> p[0] == ".."
  {
    var c, s := p[0], Join(p);
    assert forall i :: 0 <= i < |c| ==> c[i] != '/';
    assert "../" <= s <==> |s| >= 3 && s[0] == '.' && s[1] == '.' && s[2] == '/';
    assert c == ".." <==> |c| == 2 && c[0] == '.' && c[1] == '.';
    if |p| > 1 {
      assert s == c + "/" + Join(p[1..]);
      assert s[|c|] == '/' && forall i :: 0 <= i < |c| ==> s[i] == c[i];
    }
  }

  /** The test on texts is exactly whether the root's components begin the
      path's, names such as "..cache" included. */
  lemma WithinIsPrefix(path: Path, root: Path)
    requires CleanPath(path) && CleanPath(root)
    ensures Within(path, root) <==> root <= path
  {
    var k := CommonLength(root, path);
    var p := seq(|root| - k, _ => "..") + path[k..];
    if k < |root| {
      assert p[0] == "..";
      JoinStartsWithItsFirst(p);
    } else {
      assert root <= path;
      if k < |path| {
        assert p[0] == path[k] && CleanName(path[k]);
        JoinStartsWithItsFirst(p);
      }
    }
  }

  /** Two paths that both begin a third are one inside the other. */
  lemma PrefixesAreComparable(a: Path, b: Path, c: Path)
    requires a <= c && b <= c
    ensures a <= b || b <= a
  {
    if |a| <= |b| {
      assert b[..|a|] == c[..|a|] == a;
    } else {
      assert a[..|b|] == c[..|b|] == b;
    }
  }
}
