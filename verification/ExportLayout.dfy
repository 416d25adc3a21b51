/** What an export directory holds, and the renaming that makes the text order
    of its user files the order of their numbers. */
module ExportLayout {
  import opened Prelude
  import opened Decimal

  const MaxInt := 0x7fff_ffff_ffff_ffff
  const UserFileDigits := 3

  datatype Layout = Layout(realmFile: string, userFiles: seq<string>, other: seq<string>)

  // ---------------------------------------------------------------- file names

  /** Where the last component of a slash-separated name starts. */
  function BaseStart(name: string): (k: nat)
    ensures k <= |name| && '/' !in name[k..]
    ensures k > 0 ==> name[k - 1] == '/'
  {
    if name == [] || name[|name| - 1] == '/' then |name| else BaseStart(name[..|name| - 1])
  }

  lemma {:induction false} BaseStartIsTheLastSlash(dir: string, base: string)
    requires '/' !in base && (dir == [] || dir[|dir| - 1] == '/')
    ensures BaseStart(dir + base) == |dir|
    decreases |base|
  {
    if base == [] {
      assert dir + base == dir;
    } else {
      assert (dir + base)[..|dir + base| - 1] == dir + base[..|base| - 1];
      BaseStartIsTheLastSlash(dir, base[..|base| - 1]);
    }
  }

  function TrimSlashes(name: string): string {
    if name != [] && name[|name| - 1] == '/' then TrimSlashes(name[..|name| - 1]) else name
  }

  /** The last component, trailing slashes apart. */
  function PathBase(name: string): string {
    if name == "" then "."
    else
      var trimmed := TrimSlashes(name);
      if trimmed == "" then "/" else trimmed[BaseStart(trimmed)..]
  }

  lemma {:induction false} SlashesAreTrimmed(name: string, slashes: string)
    requires name == "" || name[|name| - 1] != '/'
    requires forall i :: 0 <= i < |slashes| ==> slashes[i] == '/'
    ensures TrimSlashes(name + slashes) == name
  {
    if slashes == [] {
      assert name + slashes == name;
    } else {
      assert (name + slashes)[..|name + slashes| - 1] == name + slashes[..|slashes| - 1];
      SlashesAreTrimmed(name, slashes[..|slashes| - 1]);
    }
  }

  /** What stands behind the last slash that something stands behind. */
  lemma BaseOfAName(dir: string, base: string, slashes: string)
    requires base != "" && '/' !in base && (dir == "" || dir[|dir| - 1] == '/')
    requires forall i :: 0 <= i < |slashes| ==> slashes[i] == '/'
    ensures PathBase(dir + base + slashes) == base
  {
    SlashesAreTrimmed(dir + base, slashes);
    BaseStartIsTheLastSlash(dir, base);
    assert (dir + base)[|dir|..] == base;
  }

  /** With nothing but slashes there is no such thing. */
  lemma BaseOfNoName(slashes: string)
    requires forall i :: 0 <= i < |slashes| ==> slashes[i] == '/'
    ensures PathBase(slashes) == if slashes == "" then "." else "/"
  {
    SlashesAreTrimmed("", slashes);
    assert "" + slashes == slashes;
  }

  function TrailingDigits(s: string): (k: nat)
    ensures k <= |s| && AllDigits(s[|s| - k..])
    ensures k < |s| ==> !IsDigit(s[|s| - k - 1])
  {
    if s != [] && IsDigit(s[|s| - 1]) then 1 + TrailingDigits(s[..|s| - 1]) else 0
  }

  /** The two groups of the pattern ^(.*)-users-(\d+)\.json$, found by scanning
      back from the end. */
  function MatchUserFile(base: string): Option<(string, string)> {
    if |base| < 5 || base[|base| - 5..] != ".json" then None
    else
      var stem := base[..|base| - 5];
      var k := TrailingDigits(stem);
      var head := stem[..|stem| - k];
      if k == 0 || |head| < 7 || head[|head| - 7..] != "-users-" || '\n' in head[..|head| - 7] then None
      else Some((head[..|head| - 7], stem[|stem| - k..]))
  }

  /** What the pattern says: a prefix on one line, the marker, digits. */
  predicate UserFileShape(base: string, prefix: string, digits: string) {
    base == prefix + "-users-" + digits + ".json" && digits != "" && AllDigits(digits) && '\n' !in prefix
  }

  /** The scan finds exactly the decomposition the pattern describes, so there
      is never more than one. */
  lemma MatchIsTheShape(base: string, prefix: string, digits: string)
    ensures MatchUserFile(base) == Some((prefix, digits)) <==> UserFileShape(base, prefix, digits)
  {
    if UserFileShape(base, prefix, digits) {
      var head := prefix + "-users-";
      assert base[|base| - 5..] == ".json" && base[..|base| - 5] == head + digits;
      DigitsRunToTheMarker(head, digits);
      assert head[|head| - 7..] == "-users-" && head[..|head| - 7] == prefix;
    }
    if MatchUserFile(base) == Some((prefix, digits)) {
      var stem := base[..|base| - 5];
      assert base == stem + ".json";
      var head := stem[..|stem| - |digits|];
      assert stem == head + digits;
      assert head == prefix + "-users-";
    }
  }

  lemma {:induction false} DigitsRunToTheMarker(head: string, digits: string)
    requires head != "" && !IsDigit(head[|head| - 1]) && AllDigits(digits)
    ensures TrailingDigits(head + digits) == |digits|
    ensures (head + digits)[..|head + digits| - |digits|] == head
    ensures (head + digits)[|head + digits| - |digits|..] == digits
  {
    if digits == [] {
      assert head + digits == head;
    } else {
      var s := head + digits;
      assert s[|s| - 1] == digits[|digits| - 1];
      assert s[..|s| - 1] == head + digits[..|digits| - 1];
      DigitsRunToTheMarker(head, digits[..|digits| - 1]);
    }
  }

  /** `strconv.Atoi` on a digit string: past the range of an int it still
      reports the greatest int, beside an error. */
  function Atoi(digits: string): (r: (nat, bool))
    requires AllDigits(digits)
    ensures r.0 <= MaxInt && (r.1 <==> r.0 == Value(digits))
  {
    if Value(digits) <= MaxInt then (Value(digits), true) else (MaxInt, false)
  }

  /** A user file's name as everything before its number, and the number. */
  function SplitUserFile(name: string): (r: Option<(string, nat)>) {
    var k := BaseStart(name);
    SplitBase(name[..k], name[k..])
  }

  function SplitBase(dir: string, base: string): (r: Option<(string, nat)>) {
    match MatchUserFile(base)
    case None => None
    case Some((prefix, digits)) =>
      MatchIsTheShape(base, prefix, digits);
      var (n, ok) := Atoi(digits);
      if ok then Some((dir + prefix, n)) else None
  }

  function UserFileName(prefix: string, number: string): string {
    prefix + "-users-" + number + ".json"
  }

  lemma SplitGivesTheName(name: string)
    requires SplitUserFile(name).Some?
    ensures var (prefix, n) := SplitUserFile(name).value;
            n <= MaxInt && '\n' !in prefix[BaseStart(prefix)..] &&
            exists digits :: AllDigits(digits) && Value(digits) == n && name == UserFileName(prefix, digits)
  {
    var k := BaseStart(name);
    var (m, digits) := MatchUserFile(name[k..]).value;
    MatchIsTheShape(name[k..], m, digits);
    var prefix := name[..k] + m;
    assert '/' !in m by {
      assert forall i :: 0 <= i < |m| ==> m[i] == name[k..][i];
    }
    BaseStartIsTheLastSlash(name[..k], m);
    assert prefix[|name[..k]|..] == m;
    assert name == UserFileName(prefix, digits);
  }

  lemma NoSlashInBase(m: string, digits: string)
    requires '/' !in m && AllDigits(digits)
    ensures '/' !in UserFileName(m, digits)
  {
    assert '/' !in digits;
    assert '/' !in m + "-users-";
    assert '/' !in m + "-users-" + digits;
  }

  /** Any numeral after a prefix whose last component has no line break splits
      back into that prefix and the number. */
  lemma SplitOfName(prefix: string, digits: string)
    requires digits != "" && AllDigits(digits) && Value(digits) <= MaxInt
    requires '\n' !in prefix[BaseStart(prefix)..]
    ensures SplitUserFile(UserFileName(prefix, digits)) == Some((prefix, Value(digits)))
  {
    var dir, m := DirAndBase(prefix);
    SplitOfParts(dir, m, digits);
  }

  /** A name is its directory, slash included, and its last component. */
  lemma DirAndBase(name: string) returns (dir: string, base: string)
    ensures name == dir + base && base == name[BaseStart(name)..]
    ensures '/' !in base && (dir == [] || dir[|dir| - 1] == '/')
  {
    var k := BaseStart(name);
    dir, base := name[..k], name[k..];
    assert name == dir + base;
  }

  lemma SplitOfParts(dir: string, m: string, digits: string)
    requires digits != "" && AllDigits(digits) && Value(digits) <= MaxInt
    requires '/' !in m && '\n' !in m && (dir == [] || dir[|dir| - 1] == '/')
    ensures SplitUserFile(UserFileName(dir + m, digits)) == Some((dir + m, Value(digits)))
  {
    var base := UserFileName(m, digits);
    NoSlashInBase(m, digits);
    UserFileNameInDir(dir, m, digits);
    SplitAtTheLastSlash(dir, base);
    MatchIsTheShape(base, m, digits);
  }

  lemma UserFileNameInDir(dir: string, m: string, digits: string)
    ensures UserFileName(dir + m, digits) == dir + UserFileName(m, digits)
  {
    assert dir + m + "-users-" == dir + (m + "-users-");
    assert dir + (m + "-users-") + digits == dir + (m + "-users-" + digits);
  }

  lemma SplitAtTheLastSlash(dir: string, base: string)
    requires '/' !in base && (dir == [] || dir[|dir| - 1] == '/')
    ensures SplitUserFile(dir + base) == SplitBase(dir, base)
  {
    BaseStartIsTheLastSlash(dir, base);
    assert (dir + base)[|dir|..] == base && (dir + base)[..|dir|] == dir;
  }
}
