/**
 * Decimal rendering of natural numbers, as JavaScript's `Number.prototype.toString()`
 * renders a non-negative integer, and the facts about it that the slot calendar and
 * the identifier generator rely on.
 */
module Text {

  /** The character of a decimal digit. */
  function Digit(d: nat): (c: char)
    requires d < 10
    ensures '0' <= c <= '9'
  {
    ('0' as int + d) as char
  }

  /** `n.toString()` for a non-negative integer: no sign, no leading zeros. */
  function NatToString(n: nat): (s: string)
    ensures 1 <= |s|
    ensures n < 10 <==> |s| == 1
    ensures forall i :: 0 <= i < |s| ==> '0' <= s[i] <= '9'
    decreases n
  {
    if n < 10 then [Digit(n)] else NatToString(n / 10) + [Digit(n % 10)]
  }

  /** Two different numbers never render the same. */
  lemma {:induction false} NatToStringInjective(a: nat, b: nat)
    requires NatToString(a) == NatToString(b)
    ensures a == b
    decreases a
  {
    var s := NatToString(a);
    if a >= 10 && b >= 10 {
      assert s[|s| - 1] == Digit(a % 10) == Digit(b % 10);
      assert NatToString(a / 10) == s[..|s| - 1] == NatToString(b / 10);
      NatToStringInjective(a / 10, b / 10);
    }
  }

  /** Two-digit numbers render as their tens digit followed by their units digit. */
  lemma TwoDigitRendering(n: nat)
    requires 10 <= n < 100
    ensures NatToString(n) == [Digit(n / 10), Digit(n % 10)]
  {
  }

  /** Splitting off the last decimal digit. */
  lemma DivModTen(q: int, r: int)
    requires 0 <= r < 10
    ensures (10 * q + r) / 10 == q && (10 * q + r) % 10 == r
  {
  }

  /** Four decimal digits are recovered from the number they make, one division by ten at a time. */
  lemma FourDigitSplit(a: int, b: int, c: int, e: int)
    requires 0 <= a < 10 && 0 <= b < 10 && 0 <= c < 10 && 0 <= e < 10
    ensures var y := 1000 * a + 100 * b + 10 * c + e;
      y / 10 / 10 / 10 == a && y / 10 / 10 % 10 == b && y / 10 % 10 == c && y % 10 == e
  {
    DivModTen(100 * a + 10 * b + c, e);
    DivModTen(10 * a + b, c);
    DivModTen(a, b);
  }

  /** A number below 10000 is the sum of its four digits times their place values. */
  lemma FourDigitValue(y: int)
    requires 0 <= y <= 9999
    ensures 1000 * (y / 10 / 10 / 10) + 100 * (y / 10 / 10 % 10) + 10 * (y / 10 % 10) + y % 10 == y
  {
  }

  /** `s.padStart(2, '0')`: zeros are put in front of `s` until it is two characters long. */
  function PadStart2(s: string): string
    decreases 2 - |s|
  {
    if |s| < 2 then PadStart2(['0'] + s) else s
  }

  /**
   * What padding promises: the result is at least two characters long, ends with `s`,
   * and everything before `s` is `'0'`.
   */
  lemma PadStart2Pads(s: string)
    ensures var r := PadStart2(s);
      && |r| == (if |s| < 2 then 2 else |s|)
      && r[|r| - |s|..] == s
      && forall i :: 0 <= i < |r| - |s| ==> r[i] == '0'
  {
    if |s| == 0 {
      assert ['0'] + s == "0" && ['0'] + "0" == "00";
      assert PadStart2(s) == PadStart2("0") == PadStart2("00") == "00";
    } else if |s| == 1 {
      assert PadStart2(s) == ['0'] + s;
    }
  }

  /** The empty string gets two zeros, one character gets one, two characters are kept. */
  lemma PadStart2Examples()
    ensures PadStart2("") == "00" && PadStart2("7") == "07" && PadStart2("22") == "22"
  {
  }

  /**
   * Lexicographic order on strings, character by character. JavaScript's `<` compares
   * UTF-16 code units instead; the two orders agree on the ASCII strings compared here.
   */
  predicate LexLess(a: string, b: string)
    decreases |a|
  {
    if a == [] then b != []
    else if b == [] then false
    else a[0] < b[0] || (a[0] == b[0] && LexLess(a[1..], b[1..]))
  }
}
