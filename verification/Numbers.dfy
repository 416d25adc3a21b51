/** The two hand-written number printers: `itoa` over a fixed 20-byte buffer and
    the binary-unit loop of `humanBytes`, both on 64-bit integers. */
module Numbers {
  import opened Decimal

  const MinInt64 := -0x8000_0000_0000_0000
  const MaxInt64 := 0x7fff_ffff_ffff_ffff

  predicate InInt64(n: int) {
    MinInt64 <= n <= MaxInt64
  }

  /** Two's-complement negation: the least value is its own negative. */
  function Negate(n: int): (r: int)
    requires InInt64(n)
    ensures InInt64(r) && (r + n == 0 || r + n == 2 * MinInt64)
  {
    if n == MinInt64 then n else -n
  }

  /** The number a signed numeral spells, if it is one. */
  function Read(s: string): (r: int)
    requires s != [] && s != "-" && (AllDigits(s) || (s[0] == '-' && AllDigits(s[1..])))
  {
    if s[0] == '-' then -(Value(s[1..]) as int) else Value(s)
  }

  predicate Numeral(s: string) {
    s != [] && s != "-" && (AllDigits(s) || (s[0] == '-' && AllDigits(s[1..])))
  }

  lemma {:induction false} DigitCount(n: nat, k: nat)
    requires n < Pow10(k) && k > 0
    ensures |Print(n)| <= k
  {
    if n >= 10 {
      DigitCount(n / 10, k - 1);
    }
  }

  lemma NineteenDigits(n: nat)
    requires n <= MaxInt64
    ensures |Print(n)| <= 19
  {
    assert Pow10(4) == 10_000;
    assert Pow10(8) == 100_000_000;
    assert Pow10(12) == 1_000_000_000_000;
    assert Pow10(16) == 10_000_000_000_000_000;
    assert Pow10(19) == 10_000_000_000_000_000_000;
    DigitCount(n, 19);
  }

  /** `itoa` prints every 64-bit integer but the least, whose negation is
      itself, so that the digit loop never runs. */
  method Itoa(n: int) returns (s: string)
    requires InInt64(n)
    ensures n != MinInt64 ==> Numeral(s) && Read(s) == n
    ensures n != MinInt64 ==> s == if n < 0 then "-" + Print(-n) else Print(n)
    ensures n == MinInt64 ==> s == "-"
  {
    if n == 0 {
      assert Value("0") == 0 && Print(0) == "0";
      return "0";
    }
    var neg := n < 0;
    var m := if neg then Negate(n) else n;
    var buf := new char[20];
    var i := WriteDigits(buf, m);
    ghost var text := buf[i..];
    if neg {
      i := i - 1;
      buf[i] := '-';
    }
    s := buf[i..];
    assert s == Signed(neg, text);
    ReadSigned(n);
  }

  /** The digit loop, writing backwards from the end of the buffer. One byte is
      always left for a sign. */
  method WriteDigits(buf: array<char>, n: int) returns (i: nat)
    requires buf.Length == 20 && n <= MaxInt64
    modifies buf
    ensures 1 <= i <= 20 && buf[i..] == Digits(n)
  {
    DigitsFit(n);
    var m := n;
    i := buf.Length;
    while m > 0
      invariant m <= MaxInt64 && 0 <= i <= 20 && |Digits(m)| + 1 <= i
      invariant Digits(m) + buf[i..] == Digits(n)
      decreases m
    {
      ghost var rest := buf[i..];
      OneDigit(m, rest);
      var digit := DigitChar(m % 10);
      m := m / 10;
      i := i - 1;
      buf[i] := digit;
      assert buf[i..] == [digit] + rest;
    }
  }

  function Signed(neg: bool, digits: string): string {
    if neg then ['-'] + digits else digits
  }

  lemma OneDigit(m: int, rest: string)
    requires m > 0
    ensures Digits(m) + rest == Digits(m / 10) + ([DigitChar(m % 10)] + rest)
    ensures |Digits(m)| == |Digits(m / 10)| + 1
  {
    assert Digits(m) == Digits(m / 10) + [DigitChar(m % 10)];
  }

  lemma ReadSigned(n: int)
    requires InInt64(n) && n != 0
    ensures var s := Signed(n < 0, Digits(if n < 0 then Negate(n) else n));
            if n == MinInt64 then s == "-" else Numeral(s) && Read(s) == n
  {
    var m := if n < 0 then Negate(n) else n;
    var s := Signed(n < 0, Digits(m));
    if n != MinInt64 {
      ValuePrint(m);
      assert n < 0 ==> s[1..] == Digits(m);
    }
  }

  /** What the digit loop is still to write for m. */
  function Digits(m: int): (s: string) {
    if m <= 0 then "" else Print(m)
  }

  lemma DigitsFit(m: int)
    requires m <= MaxInt64
    ensures |Digits(m)| <= 19
  {
    if m > 0 {
      NineteenDigits(m);
    }
  }

  function Pow1024(k: nat): (p: nat)
    ensures p > 0
  {
    if k == 0 then 1 else 1024 * Pow1024(k - 1)
  }

  /** The loop of `humanBytes`: the largest power of 1024 not above n, and the
      index of its unit letter. No step leaves the 64-bit range, and the letter
      is always one of "KMGTPE". */
  method BinaryUnit(n: int) returns (div: int, exp: nat)
    requires 1024 <= n <= MaxInt64
    ensures div == Pow1024(exp + 1) && InInt64(div)
    ensures div <= n < 1024 * div
    ensures exp <= 5
  {
    div, exp := 1024, 0;
    var m := n / 1024;
    assert Pow1024(1) == 1024;
    while m >= 1024
      invariant m >= 1 && exp <= 5
      invariant div == Pow1024(exp + 1)
      invariant Quotient(n, div, m)
      decreases m
    {
      DivideAgain(n, div, m);
      div := div * 1024;
      exp := exp + 1;
      if exp == 6 {
        Pow1024Of7();
        assert false;
      }
      m := m / 1024;
    }
    QuotientBounds(n, div, m);
  }

  /** q is n divided by d, rounded down. */
  predicate Quotient(n: int, d: int, q: int) {
    d > 0 && d * q <= n < d * (q + 1)
  }

  lemma Scale(d: int, a: int, b: int)
    requires d > 0 && a <= b
    ensures d * a <= d * b
  {
  }

  lemma DivideAgain(n: int, d: int, q: int)
    requires Quotient(n, d, q) && q >= 1024
    ensures Quotient(n, d * 1024, q / 1024)
    ensures d * 1024 <= n
  {
    var r := q / 1024;
    Scale(d, 1024 * r, q);
    Scale(d, q + 1, 1024 * (r + 1));
    Scale(d, 1024, q);
    Regroup(d, r);
    Regroup(d, r + 1);
  }

  lemma Regroup(d: int, r: int)
    ensures d * (1024 * r) == d * 1024 * r
  {
  }

  lemma QuotientBounds(n: int, d: int, q: int)
    requires Quotient(n, d, q) && 1 <= q < 1024
    ensures d <= n < 1024 * d
  {
    Scale(d, 1, q);
    Scale(d, q + 1, 1024);
  }

  lemma Pow1024Of7()
    ensures Pow1024(7) == 0x40_0000_0000_0000_0000 && Pow1024(7) > MaxInt64
  {
    assert Pow1024(3) == 0x4000_0000;
    assert Pow1024(5) == 0x4_0000_0000_0000;
  }
}
