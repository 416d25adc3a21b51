/** Distinguished-name escaping and LDIF lines, with the readers that undo them.
    Strings stand for byte strings, one character below 256 for each byte. */
module Ldif {
  import opened Prelude
  import Base64

  // ------------------------------------------------------------ RFC 4514 escaping

  predicate AlwaysEscaped(c: char) {
    c == ',' || c == '+' || c == '"' || c == '\\' || c == '<' || c == '>' || c == ';' || c == '='
  }

  /** What becomes of the character at index i of a value. */
  function EscapedAt(value: string, i: nat): string
    requires i < |value|
  {
    var c := value[i];
    if AlwaysEscaped(c) then ['\\', c]
    else if c == ' ' && (i == 0 || i == |value| - 1) then "\\ "
    else if c == '#' && i == 0 then "\\#"
    else [c]
  }

  function EscapedFrom(value: string, i: nat): string
    requires i <= |value|
    decreases |value| - i
  {
    if i == |value| then [] else EscapedAt(value, i) + EscapedFrom(value, i + 1)
  }

  method EscapeRDN(value: string) returns (b: string)
    ensures b == EscapedFrom(value, 0)
  {
    b := [];
    for i := 0 to |value|
      invariant b + EscapedFrom(value, i) == EscapedFrom(value, 0)
    {
      var c := value[i];
      assert b + EscapedFrom(value, i) == b + EscapedAt(value, i) + EscapedFrom(value, i + 1);
      if AlwaysEscaped(c) {
        b := b + ['\\', c];
      } else if c == ' ' && (i == 0 || i == |value| - 1) {
        b := b + "\\ ";
      } else if c == '#' && i == 0 {
        b := b + "\\#";
      } else {
        b := b + [c];
      }
    }
  }

  /** The characters a backslash may stand before (section 3, `pair`). */
  predicate Pairable(c: char) {
    c == '\\' || c == '"' || c == '+' || c == ',' || c == ';' || c == '<' || c == '>' || c == ' ' || c == '#' || c == '='
  }

  /** What may stand unescaped: `leadchar`, `stringchar` or `trailchar`. */
  predicate Plain(c: char, first: bool, last: bool) {
    && c != '\0' && c != '"' && c != '+' && c != ',' && c != ';' && c != '<' && c != '>' && c != '\\'
    && (first ==> c != ' ' && c != '#') && (last ==> c != ' ')
  }

  function Hex(c: char): Option<nat> {
    if '0' <= c <= '9' then Some(c as int - '0' as int)
    else if 'a' <= c <= 'f' then Some(c as int - 'a' as int + 10)
    else if 'A' <= c <= 'F' then Some(c as int - 'A' as int + 10)
    else None
  }

  function Cons(c: char, rest: Option<string>): Option<string> {
    match rest
    case Some(s) => Some([c] + s)
    case None => None
  }

  /** A reader of attribute values by the grammar of RFC 4514, section 3. */
  function ParseValue(s: string, first: bool): Option<string> {
    if s == [] then Some([])
    else if s[0] == '\\' then
      if |s| >= 2 && Pairable(s[1]) then Cons(s[1], ParseValue(s[2..], false))
      else if |s| >= 3 && Hex(s[1]).Some? && Hex(s[2]).Some? then
        Cons((Hex(s[1]).value * 16 + Hex(s[2]).value) as char, ParseValue(s[3..], false))
      else None
    else if Plain(s[0], first, |s| == 1) then Cons(s[0], ParseValue(s[1..], false))
    else None
  }

  lemma {:induction false} ParseEscapedFrom(value: string, i: nat)
    requires i <= |value|
    ensures ParseValue(EscapedFrom(value, i), i == 0) ==
            if '\0' in value[i..] then None else Some(value[i..])
    decreases |value| - i
  {
    if i < |value| {
      ParseEscapedFrom(value, i + 1);
      assert value[i..] == [value[i]] + value[i + 1..];
      ReadOne(value, i, EscapedFrom(value, i + 1));
    } else {
      assert value[i..] == [];
    }
  }

  lemma ReadOne(value: string, i: nat, rest: string)
    requires i < |value| && (rest == [] <==> i + 1 == |value|)
    ensures ParseValue(EscapedAt(value, i) + rest, i == 0) ==
            if value[i] == '\0' then None else Cons(value[i], ParseValue(rest, false))
  {
    var s := EscapedAt(value, i) + rest;
    if |EscapedAt(value, i)| == 2 {
      assert s[2..] == rest;
    } else {
      assert s[1..] == rest;
    }
  }

  /** Escaping a value and reading it back returns it if and only if it holds no
      NUL, which the grammar never allows unescaped and the escaping leaves be. */
  lemma EscapingUndone(value: string)
    ensures ParseValue(EscapedFrom(value, 0), true) == Some(value) <==> '\0' !in value
  {
    ParseEscapedFrom(value, 0);
    assert value[0..] == value;
  }

  /** A character is escaped where the grammar does not let it stand by itself, NUL apart,
      and an equals sign everywhere; all others are written as they are. */
  lemma EscapedWhereNeeded(value: string, i: nat)
    requires i < |value|
    ensures var c := value[i];
            EscapedAt(value, i) == if c == '=' || (c != '\0' && !Plain(c, i == 0, i == |value| - 1)) then ['\\', c] else [c]
  {
  }

  /** Where the first unescaped comma of a name stands, or its length. */
  function FirstComma(dn: string): (k: nat)
    ensures k <= |dn|
  {
    if dn == [] || dn[0] == ',' then 0
    else if dn[0] == '\\' && |dn| >= 2 then 2 + FirstComma(dn[2..])
    else 1 + FirstComma(dn[1..])
  }

  lemma {:induction false} EscapedHasNoComma(value: string, i: nat, rest: string)
    requires i <= |value|
    ensures FirstComma(EscapedFrom(value, i) + rest) == |EscapedFrom(value, i)| + FirstComma(rest)
    decreases |value| - i
  {
    if i == |value| {
      assert EscapedFrom(value, i) + rest == rest;
    } else {
      var tail := EscapedFrom(value, i + 1) + rest;
      EscapedHasNoComma(value, i + 1, rest);
      assert EscapedFrom(value, i) + rest == EscapedAt(value, i) + tail;
      StepOverOne(value, i, tail);
    }
  }

  lemma StepOverOne(value: string, i: nat, tail: string)
    requires i < |value|
    ensures FirstComma(EscapedAt(value, i) + tail) == |EscapedAt(value, i)| + FirstComma(tail)
  {
    var s := EscapedAt(value, i) + tail;
    if |EscapedAt(value, i)| == 2 {
      assert s[2..] == tail;
    } else {
      assert s[1..] == tail;
    }
  }

  lemma {:induction false} PlainHeadHasNoComma(head: string, rest: string)
    requires ',' !in head && '\\' !in head
    ensures FirstComma(head + rest) == |head| + FirstComma(rest)
  {
    if head == [] {
      assert head + rest == rest;
    } else {
      assert (head + rest)[1..] == head[1..] + rest;
      PlainHeadHasNoComma(head[1..], rest);
    }
  }

  /** A name composed as uid=VALUE,REST splits at its first unescaped comma into
      exactly those two, whatever the value and the rest. */
  lemma ComposedNameSplits(value: string, rest: string)
    ensures var rdn := "uid=" + EscapedFrom(value, 0);
            var dn := rdn + "," + rest;
            var k := FirstComma(dn);
            k < |dn| && dn[..k] == rdn && dn[k + 1..] == rest
  {
    var esc := EscapedFrom(value, 0);
    var rdn := "uid=" + esc;
    assert rdn + "," + rest == "uid=" + (esc + ("," + rest));
    PlainHeadHasNoComma("uid=", esc + ("," + rest));
    EscapedHasNoComma(value, 0, "," + rest);
    assert rdn + "," + rest == rdn + ("," + rest);
  }

  // ------------------------------------------------------------------ LDIF lines

  predicate Unsafe(c: char) {
    c as int > 127 || c == '\n' || c == '\r' || c == '\0'
  }

  predicate Encoded(value: string) {
    value != "" && (value[0] == ' ' || value[0] == ':' || value[0] == '<' || value[|value| - 1] == ' '
      || exists i :: 0 <= i < |value| && Unsafe(value[i]))
  }

  method NeedsBase64(value: string) returns (r: bool)
    ensures r <==> Encoded(value)
  {
    if value == "" {
      return false;
    }
    if value[0] == ' ' || value[0] == ':' || value[0] == '<' {
      return true;
    }
    if value[|value| - 1] == ' ' {
      return true;
    }
    for i := 0 to |value|
      invariant forall k :: 0 <= k < i ==> !Unsafe(value[k])
    {
      if Unsafe(value[i]) {
        return true;
      }
    }
    return false;
  }

  function Attr(name: string, value: string): string
    requires Base64.Bytes(value)
  {
    if Encoded(value) then name + (":: " + Base64.Encode(value)) else name + ": " + value
  }

  predicate ColonSpaceAt(line: string, k: nat) {
    k + 1 < |line| && line[k] == ':' && line[k + 1] == ' '
  }

  /** Where ": " first stands in a line, or None. */
  function Cut(line: string): (r: Option<nat>)
    ensures r.Some? ==> ColonSpaceAt(line, r.value) && forall k: nat :: k < r.value ==> !ColonSpaceAt(line, k)
    ensures r.None? ==> forall k: nat :: !ColonSpaceAt(line, k)
  {
    CutFrom(line, 0)
  }

  function CutFrom(line: string, i: nat): (r: Option<nat>)
    requires forall k: nat :: k < i ==> !ColonSpaceAt(line, k)
    ensures r.Some? ==> ColonSpaceAt(line, r.value) && forall k: nat :: k < r.value ==> !ColonSpaceAt(line, k)
    ensures r.None? ==> forall k: nat :: !ColonSpaceAt(line, k)
    decreases |line| - i
  {
    if i >= |line| then None
    else if ColonSpaceAt(line, i) then Some(i)
    else CutFrom(line, i + 1)
  }

  function LdifLine(line: string): string
    requires Base64.Bytes(line)
  {
    match Cut(line)
    case None => line
    case Some(k) =>
      if k > 0 && line[k - 1] == ':' then line
      else if Encoded(line[k + 2..]) then line[..k] + (":: " + Base64.Encode(line[k + 2..]))
      else line
  }

  function SkipSpaces(s: string): string {
    if s != [] && s[0] == ' ' then SkipSpaces(s[1..]) else s
  }

  function FirstColon(s: string): (k: nat)
    ensures k <= |s|
  {
    if s == [] || s[0] == ':' then 0 else 1 + FirstColon(s[1..])
  }

  /** SAFE-STRING of RFC 2849, or nothing at all. */
  predicate SafeString(s: string) {
    (forall i :: 0 <= i < |s| ==> !Unsafe(s[i])) && (s != "" ==> s[0] != ' ' && s[0] != ':' && s[0] != '<')
  }

  /** A reader of one attribute line by the formal syntax of RFC 2849: name,
      colon, then spaces and a safe string, or a second colon, spaces and
      base64. References to a URL are not read. */
  function ReadLine(line: string): Option<(string, string)> {
    var k := FirstColon(line);
    if k == |line| then None
    else ReadRest(line[..k], line[k + 1..])
  }

  function ReadRest(name: string, rest: string): Option<(string, string)> {
    if rest != "" && rest[0] == ':' then
      match Base64.Decode(SkipSpaces(rest[1..]))
      case Some(value) => Some((name, value))
      case None => None
    else if rest != "" && rest[0] == '<' then None
    else if SafeString(SkipSpaces(rest)) then Some((name, SkipSpaces(rest)))
    else None
  }

  /** A value is written as it is if and only if it is a safe string that no space ends. */
  lemma PlainWhereSafe(value: string)
    ensures !Encoded(value) <==> SafeString(value) && (value == "" || value[|value| - 1] != ' ')
  {
  }

  lemma {:induction false} FirstColonAfter(name: string, rest: string)
    requires ':' !in name
    ensures FirstColon(name + ":" + rest) == |name|
  {
    if name == [] {
      assert name + ":" + rest == ":" + rest;
    } else {
      assert (name + ":" + rest)[1..] == name[1..] + ":" + rest;
      FirstColonAfter(name[1..], rest);
    }
  }

  lemma NoLeadingSpace(b: string)
    requires Base64.Bytes(b)
    ensures SkipSpaces(" " + Base64.Encode(b)) == Base64.Encode(b)
  {
    var e := Base64.Encode(b);
    assert (" " + e)[1..] == e;
    if b != [] {
      assert e[0] == Base64.Letter(b[0] as int / 4);
    }
  }

  /** Reading back an attribute line gives its name and value, whatever bytes
      the value holds. */
  lemma AttrUndone(name: string, value: string)
    requires ':' !in name && Base64.Bytes(value)
    ensures ReadLine(Attr(name, value)) == Some((name, value))
  {
    var rest := if Encoded(value) then ": " + Base64.Encode(value) else " " + value;
    ColonFirst(name, value);
    ReadAfterName(name, rest);
    if Encoded(value) {
      ReadEncoded(name, value);
    } else {
      ReadPlain(name, value);
    }
  }

  lemma ColonFirst(name: string, value: string)
    requires Base64.Bytes(value)
    ensures Attr(name, value) == name + ":" + if Encoded(value) then ": " + Base64.Encode(value) else " " + value
  {
    var e := Base64.Encode(value);
    assert name + (":: " + e) == name + ":" + (": " + e);
    assert name + ": " + value == name + ":" + (" " + value);
  }

  lemma ReadEncoded(name: string, value: string)
    requires Base64.Bytes(value)
    ensures ReadRest(name, ": " + Base64.Encode(value)) == Some((name, value))
  {
    NoLeadingSpace(value);
    Base64.DecodeEncode(value);
    ReadSecondColon(name, Base64.Encode(value), value);
  }

  lemma ReadSecondColon(name: string, e: string, value: string)
    requires SkipSpaces(" " + e) == e && Base64.Decode(e) == Some(value)
    ensures ReadRest(name, ": " + e) == Some((name, value))
  {
    AfterTheColon(e);
  }

  lemma AfterTheColon(e: string)
    ensures var rest := ": " + e; rest != "" && rest[0] == ':' && rest[1..] == " " + e
  {
  }

  lemma ReadPlain(name: string, value: string)
    requires !Encoded(value)
    ensures ReadRest(name, " " + value) == Some((name, value))
  {
    assert (" " + value)[1..] == value;
    assert SkipSpaces(value) == value;
  }

  lemma ReadAfterName(name: string, rest: string)
    requires ':' !in name
    ensures ReadLine(name + ":" + rest) == ReadRest(name, rest)
  {
    FirstColonAfter(name, rest);
    var line := name + ":" + rest;
    assert line[..|name|] == name && line[|name| + 1..] == rest;
  }

  /** The first ": " of a line is where one stands with none before it. */
  lemma CutIsTheFirst(line: string, k: nat)
    requires ColonSpaceAt(line, k) && forall j: nat :: j < k ==> !ColonSpaceAt(line, j)
    ensures Cut(line) == Some(k)
  {
  }

  /** A plain line comes out as the attribute line of its name and value, so it
      reads back as those. */
  lemma PlainLineUndone(name: string, value: string)
    requires ':' !in name && Base64.Bytes(name) && Base64.Bytes(value)
    ensures LdifLine(name + ": " + value) == Attr(name, value)
    ensures ReadLine(LdifLine(name + ": " + value)) == Some((name, value))
  {
    var line := name + ": " + value;
    forall j: nat | j < |name| ensures !ColonSpaceAt(line, j) {
      assert line[j] == name[j];
    }
    CutIsTheFirst(line, |name|);
    assert line[..|name|] == name && line[|name| + 2..] == value;
    AttrUndone(name, value);
  }

  lemma {:induction false} EncodeIsBytes(b: string)
    requires Base64.Bytes(b)
    ensures Base64.Bytes(Base64.Encode(b))
  {
    if |b| >= 3 {
      EncodeIsBytes(b[3..]);
    }
  }

  lemma LdifLineIsBytes(line: string)
    requires Base64.Bytes(line)
    ensures Base64.Bytes(LdifLine(line))
  {
    if Cut(line).Some? {
      EncodeIsBytes(line[Cut(line).value + 2..]);
    }
  }

  /** Encoding a line twice is encoding it once, for every line whatever. */
  lemma LdifLineIsIdempotent(line: string)
    requires Base64.Bytes(line)
    ensures Base64.Bytes(LdifLine(line)) && LdifLine(LdifLine(line)) == LdifLine(line)
  {
    LdifLineIsBytes(line);
    if LdifLine(line) != line {
      var k, e := EncodedAt(line);
      EncodedLineStays(line, k, e);
    }
  }

  /** A line that does not stand as it is gets its value encoded where it was cut. */
  lemma EncodedAt(line: string) returns (k: nat, e: string)
    requires Base64.Bytes(line) && LdifLine(line) != line
    ensures Cut(line) == Some(k) && (k == 0 || line[k - 1] != ':') && LdifLine(line) == line[..k] + (":: " + e)
  {
    k := Cut(line).value;
    e := Base64.Encode(line[k + 2..]);
  }

  lemma EncodedLineStays(line: string, k: nat, e: string)
    requires Cut(line) == Some(k) && (k == 0 || line[k - 1] != ':')
    requires Base64.Bytes(line[..k] + (":: " + e))
    ensures LdifLine(line[..k] + (":: " + e)) == line[..k] + (":: " + e)
  {
    var out := line[..k] + (":: " + e);
    forall j: nat | j < k + 1 ensures !ColonSpaceAt(out, j) {
      if j < k {
        assert out[j] == line[j] && out[j + 1] == if j + 1 < k then line[j + 1] else ':';
        assert !ColonSpaceAt(line, j);
      }
    }
    CutIsTheFirst(out, k + 1);
  }
}
