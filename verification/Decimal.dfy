/** Decimal numerals as text: printing, reading back, zero-padding, and how the
    order of texts relates to the order of the numbers they spell. */
module Decimal {

  predicate IsDigit(c: char) {
    '0' <= c <= '9'
  }

  predicate AllDigits(s: string) {
    forall i :: 0 <= i < |s| ==> IsDigit(s[i])
  }

  function DigitChar(d: nat): (c: char)
    requires d < 10
    ensures IsDigit(c) && c as int - '0' as int == d
  {
    '0' + d as char
  }

  /** The shortest decimal numeral of n. */
  function Print(n: nat): (s: string)
    ensures |s| > 0 && AllDigits(s)
    decreases n
  {
    if n < 10 then [DigitChar(n)] else Print(n / 10) + [DigitChar(n % 10)]
  }

  /** The number a digit string spells, leading zeros allowed. */
  function Value(s: string): nat
    requires AllDigits(s)
  {
    if s == [] then 0 else 10 * Value(s[..|s| - 1]) + DigitValue(s[|s| - 1])
  }

  /** n written in at least `width` digits, as the verb %0*d writes it. */
  function Pad(n: nat, width: nat): (s: string)
    ensures |s| == if |Print(n)| < width then width else |Print(n)|
    ensures |s| > 0 && AllDigits(s)
  {
    var digits := Print(n);
    if |digits| < width then Zeros(width - |digits|) + digits else digits
  }

  function Zeros(k: nat): (s: string)
    ensures |s| == k && forall i :: 0 <= i < k ==> s[i] == '0'
  {
    seq(k, _ => '0')
  }

  lemma {:induction false} ValuePrint(n: nat)
    ensures Value(Print(n)) == n
  {
    if n >= 10 {
      ValuePrint(n / 10);
      assert Print(n)[..|Print(n)| - 1] == Print(n / 10);
    }
  }

  /** Two different numbers never print alike. */
  lemma PrintInjective(a: nat, b: nat)
    requires Print(a) == Print(b)
    ensures a == b
  {
    ValuePrint(a);
    ValuePrint(b);
  }

  lemma {:induction false} ValueZeros(k: nat, s: string)
    requires AllDigits(s)
    ensures AllDigits(Zeros(k) + s) && Value(Zeros(k) + s) == Value(s)
    decreases |s|, k
  {
    var t := Zeros(k) + s;
    if s != [] {
      assert t[..|t| - 1] == Zeros(k) + s[..|s| - 1];
      ValueZeros(k, s[..|s| - 1]);
    } else if k > 0 {
      assert t[..|t| - 1] == Zeros(k - 1) + s;
      ValueZeros(k - 1, s);
    }
  }

  lemma ValuePad(n: nat, width: nat)
    ensures Value(Pad(n, width)) == n
  {
    ValuePrint(n);
    if |Print(n)| < width {
      ValueZeros(width - |Print(n)|, Print(n));
    }
  }

  function Pow10(k: nat): (p: nat)
    ensures p > 0
  {
    if k == 0 then 1 else 10 * Pow10(k - 1)
  }

  /** Byte-wise order of texts, a proper prefix coming first. */
  predicate TextLess(a: string, b: string) {
    b != [] && (a == [] || a[0] < b[0] || (a[0] == b[0] && TextLess(a[1..], b[1..])))
  }

  lemma {:induction false} TextLessCommonPrefix(p: string, a: string, b: string)
    ensures TextLess(p + a, p + b) <==> TextLess(a, b)
  {
    if p == [] {
      assert p + a == a && p + b == b;
    } else {
      assert (p + a)[1..] == p[1..] + a && (p + b)[1..] == p[1..] + b;
      TextLessCommonPrefix(p[1..], a, b);
    }
  }

  /** A common ending does not decide between texts of equal length. */
  lemma {:induction false} TextLessCommonSuffix(a: string, b: string, t: string)
    requires |a| == |b|
    ensures TextLess(a + t, b + t) <==> TextLess(a, b)
  {
    if a == [] {
      assert a + t == t && b + t == t;
      TextLessIrreflexive(t);
    } else {
      assert (a + t)[1..] == a[1..] + t && (b + t)[1..] == b[1..] + t;
      TextLessCommonSuffix(a[1..], b[1..], t);
    }
  }

  lemma {:induction false} TextLessIrreflexive(t: string)
    ensures !TextLess(t, t)
  {
    if t != [] {
      TextLessIrreflexive(t[1..]);
    }
  }

  /** The first difference decides, or else a's end before b's. */
  lemma {:induction false} TextLessTold(a: string, b: string)
    ensures TextLess(a, b) <==> exists k :: 0 <= k <= |a| && k < |b| && a[..k] == b[..k] && (k == |a| || a[k] < b[k])
  {
    if a != [] && b != [] && a[0] == b[0] {
      TextLessTold(a[1..], b[1..]);
      forall k | 1 <= k <= |a| && k < |b| ensures a[..k] == b[..k] <==> a[1..][..k - 1] == b[1..][..k - 1] {
        assert a[..k] == [a[0]] + a[1..][..k - 1] && b[..k] == [b[0]] + b[1..][..k - 1];
      }
      if TextLess(a, b) {
        var k :| 0 <= k <= |a[1..]| && k < |b[1..]| && a[1..][..k] == b[1..][..k] && (k == |a[1..]| || a[1..][k] < b[1..][k]);
        assert a[..k + 1] == b[..k + 1];
      }
    } else if b != [] && (a == [] || a[0] < b[0]) {
      assert a[..0] == b[..0];
    } else if a != [] && b != [] {
      forall k | 0 < k <= |a| && k < |b| ensures a[..k] != b[..k] {
        assert a[..k][0] != b[..k][0];
      }
    }
  }

  /** No numeral is written with a zero before others. */
  lemma {:induction false} PrintsNoLeadingZero(n: nat)
    ensures Print(n)[0] == '0' <==> n == 0
    ensures n == 0 ==> Print(n) == "0"
  {
    if n >= 10 {
      PrintsNoLeadingZero(n / 10);
    }
  }

  /** Reading from the left: the first digit weighs a power of ten. */
  lemma {:induction false} ValueFromTheLeft(s: string)
    requires |s| > 0 && AllDigits(s)
    ensures Value(s) == Weigh(DigitValue(s[0]), |s| - 1) + Value(s[1..])
    ensures Value(s[1..]) < Pow10(|s| - 1)
  {
    if |s| == 1 {
      assert s[..0] == [];
    } else {
      var front, last := s[..|s| - 1], DigitValue(s[|s| - 1]);
      ValueFromTheLeft(front);
      assert s[1..][..|s| - 2] == front[1..];
      assert Value(s) == 10 * Value(front) + last;
      assert Value(s[1..]) == 10 * Value(front[1..]) + last;
    }
  }

  function DigitValue(c: char): nat
    requires IsDigit(c)
  {
    c as int - '0' as int
  }

  /** d times the k-th power of ten, without a product of two unknowns. */
  function Weigh(d: nat, k: nat): nat {
    if k == 0 then d else 10 * Weigh(d, k - 1)
  }

  lemma {:induction false} WeighMonotone(x: nat, y: nat, k: nat)
    requires x < y
    ensures Weigh(x, k) + Pow10(k) <= Weigh(y, k)
  {
    if k > 0 {
      WeighMonotone(x, y, k - 1);
    }
  }

  /** Among digit strings of one length, text order is numeric order. */
  lemma {:induction false} TextOrderIsNumeric(a: string, b: string)
    requires |a| == |b| && AllDigits(a) && AllDigits(b)
    ensures TextLess(a, b) <==> Value(a) < Value(b)
  {
    if a != [] {
      ValueFromTheLeft(a);
      ValueFromTheLeft(b);
      var x, y := DigitValue(a[0]), DigitValue(b[0]);
      if x < y {
        WeighMonotone(x, y, |a| - 1);
      } else if y < x {
        WeighMonotone(y, x, |a| - 1);
      } else {
        TextOrderIsNumeric(a[1..], b[1..]);
      }
    }
  }
}
