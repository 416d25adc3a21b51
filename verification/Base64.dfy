/** Standard base64 with padding (RFC 4648, section 4). Strings stand for byte
    strings, one character below 256 for each byte. */
module Base64 {
  import opened Prelude

  predicate Bytes(s: string) {
    forall i :: 0 <= i < |s| ==> s[i] as int < 256
  }

  function Letter(i: nat): (c: char)
    requires i < 64
  {
    if i < 26 then 'A' + i as char
    else if i < 52 then 'a' + (i - 26) as char
    else if i < 62 then '0' + (i - 52) as char
    else if i == 62 then '+' else '/'
  }

  function Index(c: char): (r: Option<nat>)
    ensures r.Some? ==> r.value < 64
  {
    if 'A' <= c <= 'Z' then Some(c as int - 'A' as int)
    else if 'a' <= c <= 'z' then Some(c as int - 'a' as int + 26)
    else if '0' <= c <= '9' then Some(c as int - '0' as int + 52)
    else if c == '+' then Some(62) else if c == '/' then Some(63) else None
  }

  lemma IndexLetter(i: nat)
    requires i < 64
    ensures Index(Letter(i)) == Some(i) && Letter(i) != '='
  {
  }

  /** The alphabet of the standard: capital letters, small letters and digits, each in
      their order, then a plus and a slash. */
  lemma LettersInOrder(i: nat)
    ensures Letter(0) == 'A' && Letter(25) == 'Z' && Letter(26) == 'a' && Letter(51) == 'z'
    ensures Letter(52) == '0' && Letter(61) == '9' && Letter(62) == '+' && Letter(63) == '/'
    ensures i < 61 && i != 25 && i != 51 ==> Letter(i + 1) as int == Letter(i) as int + 1
  {
  }

  function Encode(b: string): string
    requires Bytes(b)
  {
    if |b| == 0 then []
    else if |b| == 1 then LastGroup(b[0] as int)
    else if |b| == 2 then LastTwoGroup(b[0] as int, b[1] as int)
    else Group(b[0] as int, b[1] as int, b[2] as int) + Encode(b[3..])
  }

  function LastGroup(x: nat): string
    requires x < 256
  {
    [Letter(x / 4), Letter(x % 4 * 16), '=', '=']
  }

  function LastTwoGroup(x: nat, y: nat): string
    requires x < 256 && y < 256
  {
    [Letter(x / 4), Letter(x % 4 * 16 + y / 16), Letter(y % 16 * 4), '=']
  }

  function Group(x: nat, y: nat, z: nat): (g: string)
    requires x < 256 && y < 256 && z < 256
    ensures |g| == 4
  {
    [Letter(x / 4), Letter(x % 4 * 16 + y / 16), Letter(y % 16 * 4 + z / 64), Letter(z % 64)]
  }

  /** The bytes of four letters, and of a last group padded once or twice. */
  function Join(c0: char, c1: char, c2: char, c3: char): Option<string> {
    match (Index(c0), Index(c1), Index(c2), Index(c3))
    case (Some(p), Some(q), Some(r), Some(t)) =>
      Some([(p * 4 + q / 16) as char, (q % 16 * 16 + r / 4) as char, (r % 4 * 64 + t) as char])
    case _ => None
  }

  function JoinLast(c0: char, c1: char, c2: char): Option<string> {
    match (Index(c0), Index(c1), Index(c2))
    case (Some(p), Some(q), Some(r)) => Some([(p * 4 + q / 16) as char, (q % 16 * 16 + r / 4) as char])
    case (Some(p), Some(q), None) => if c2 == '=' then Some([(p * 4 + q / 16) as char]) else None
    case _ => None
  }

  function Decode(s: string): Option<string> {
    if s == [] then Some([])
    else if |s| < 4 then None
    else if |s| == 4 && s[3] == '=' then JoinLast(s[0], s[1], s[2])
    else
      match (Join(s[0], s[1], s[2], s[3]), Decode(s[4..]))
      case (Some(head), Some(rest)) => Some(head + rest)
      case _ => None
  }

  /** Three bytes cut into four six-bit groups and joined again. */
  lemma SixBitGroups(x: nat, y: nat, z: nat)
    requires x < 256 && y < 256 && z < 256
    ensures var p, q, r, t := x / 4, x % 4 * 16 + y / 16, y % 16 * 4 + z / 64, z % 64;
            p < 64 && q < 64 && r < 64 && t < 64 &&
            p * 4 + q / 16 == x && q % 16 * 16 + r / 4 == y && r % 4 * 64 + t == z
  {
  }

  /** The places of four letters in the alphabet, read as one number. */
  function Read(g: string): Option<nat>
    requires |g| == 4
  {
    match (Index(g[0]), Index(g[1]), Index(g[2]), Index(g[3]))
    case (Some(p), Some(q), Some(r), Some(t)) => Some(((p * 64 + q) * 64 + r) * 64 + t)
    case _ => None
  }

  /** Three bytes are encoded by the letters that read as the same number; and for one or
      two at the end the missing bytes count as zero, and their letters are padding. */
  lemma GroupsAreNumbers(x: nat, y: nat, z: nat)
    requires x < 256 && y < 256 && z < 256
    ensures Read(Group(x, y, z)) == Some((x * 256 + y) * 256 + z)
    ensures LastTwoGroup(x, y) == Group(x, y, 0)[..3] + "=" && LastGroup(x) == Group(x, 0, 0)[..2] + "=="
  {
    IndexLetter(x / 4);
    IndexLetter(x % 4 * 16 + y / 16);
    IndexLetter(y % 16 * 4 + z / 64);
    IndexLetter(z % 64);
    SixBitsAreTheNumber(x, y, z);
  }

  lemma SixBitsAreTheNumber(x: nat, y: nat, z: nat)
    ensures ((x / 4 * 64 + (x % 4 * 16 + y / 16)) * 64 + (y % 16 * 4 + z / 64)) * 64 + z % 64 == (x * 256 + y) * 256 + z
  {
  }

  lemma {:induction false} DecodeEncode(b: string)
    requires Bytes(b)
    ensures Decode(Encode(b)) == Some(b)
  {
    if |b| == 1 {
      JoinOfLast(b[0] as int);
      assert b == [b[0] as int as char];
    } else if |b| == 2 {
      JoinOfLastTwo(b[0] as int, b[1] as int);
      assert b == [b[0] as int as char, b[1] as int as char];
    } else if |b| >= 3 {
      DecodeEncode(b[3..]);
      FirstGroup(b);
    }
  }

  lemma FirstGroup(b: string)
    requires Bytes(b) && |b| >= 3 && Decode(Encode(b[3..])) == Some(b[3..])
    ensures Decode(Encode(b)) == Some(b)
  {
    GroupDecodes(b[0] as int, b[1] as int, b[2] as int, Encode(b[3..]), b[3..]);
    FirstThree(b);
  }

  lemma FirstThree(b: string)
    requires Bytes(b) && |b| >= 3
    ensures [b[0] as int as char, b[1] as int as char, b[2] as int as char] + b[3..] == b
  {
  }

  lemma GroupDecodes(x: nat, y: nat, z: nat, rest: string, value: string)
    requires x < 256 && y < 256 && z < 256 && Decode(rest) == Some(value)
    ensures Decode(Group(x, y, z) + rest) == Some([x as char, y as char, z as char] + value)
  {
    JoinOfGroup(x, y, z);
    OneGroupMore(Group(x, y, z), rest, [x as char, y as char, z as char], value);
  }

  lemma OneGroupMore(g: string, rest: string, head: string, value: string)
    requires |g| == 4 && g[3] != '=' && Join(g[0], g[1], g[2], g[3]) == Some(head)
    requires Decode(rest) == Some(value)
    ensures Decode(g + rest) == Some(head + value)
  {
    assert (g + rest)[4..] == rest;
  }

  lemma JoinOfLast(x: nat)
    requires x < 256
    ensures var g := LastGroup(x); JoinLast(g[0], g[1], g[2]) == Some([x as char])
  {
    SixBitGroups(x, 0, 0);
    IndexLetter(x / 4);
    IndexLetter(x % 4 * 16);
  }

  lemma JoinOfLastTwo(x: nat, y: nat)
    requires x < 256 && y < 256
    ensures var g := LastTwoGroup(x, y); JoinLast(g[0], g[1], g[2]) == Some([x as char, y as char])
  {
    SixBitGroups(x, y, 0);
    IndexLetter(x / 4);
    IndexLetter(x % 4 * 16 + y / 16);
    IndexLetter(y % 16 * 4);
  }

  lemma JoinOfGroup(x: nat, y: nat, z: nat)
    requires x < 256 && y < 256 && z < 256
    ensures var g := Group(x, y, z);
            Join(g[0], g[1], g[2], g[3]) == Some([x as char, y as char, z as char]) && g[3] != '='
  {
    SixBitGroups(x, y, z);
    IndexLetter(x / 4);
    IndexLetter(x % 4 * 16 + y / 16);
    IndexLetter(y % 16 * 4 + z / 64);
    IndexLetter(z % 64);
  }
}
