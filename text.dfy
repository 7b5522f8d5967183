/**
  Decimal text of integers, as Python's f-string and `%0Nd` formatting
  render them, together with the digit reader that inverts that rendering.
 */
module Text {

  function Pow10(w: nat): (p: nat)
    ensures p >= 1
  {
    if w == 0 then 1 else 10 * Pow10(w - 1)
  }

  predicate IsDigit(c: char) {
    '0' <= c <= '9'
  }

  predicate AllDigits(s: string) {
    forall i :: 0 <= i < |s| ==> IsDigit(s[i])
  }

  function DigitChar(d: nat): (c: char)
    requires d < 10
    ensures IsDigit(c)
  {
    ('0' as int + d) as char
  }

  function DigitValue(c: char): (d: nat)
    requires IsDigit(c)
    ensures d < 10 && DigitChar(d) == c
  {
    (c as int - '0' as int) as nat
  }

  /** The value of a string of decimal digits, most significant first. */
  function ReadDigits(s: string): (v: nat)
    requires AllDigits(s)
    ensures v < Pow10(|s|)
  {
    if s == [] then 0
    else
      var v0 := ReadDigits(s[..|s| - 1]);
      assert v0 + 1 <= Pow10(|s| - 1);
      v0 * 10 + DigitValue(s[|s| - 1])
  }

  /** `%0wd`: the w lowest decimal digits of v, zero-padded on the left. */
  function Padded(v: nat, w: nat): (s: string)
    ensures |s| == w && AllDigits(s)
  {
    if w == 0 then [] else Padded(v / 10, w - 1) + [DigitChar(v % 10)]
  }

  /** `f"{n}"` for a non-negative n: its digits with no leading zero. */
  function NatText(n: nat): (s: string)
    ensures 1 <= |s| && AllDigits(s)
    ensures s[0] == '0' ==> n == 0
  {
    if n < 10 then [DigitChar(n)] else NatText(n / 10) + [DigitChar(n % 10)]
  }

  /** `f"{i}"` for any integer: a minus sign before the digits of a negative one. */
  function IntText(i: int): string
  {
    if i < 0 then "-" + NatText(-i) else NatText(i)
  }

  /** Reading back a value that fits in w digits gives that value. */
  lemma {:induction false} ReadPadded(v: nat, w: nat)
    requires v < Pow10(w)
    ensures ReadDigits(Padded(v, w)) == v
  {
    if w > 0 {
      var s := Padded(v, w);
      assert s[..w - 1] == Padded(v / 10, w - 1);
      ReadPadded(v / 10, w - 1);
    }
  }

  /** Padding a digit string's value to its own width gives the string back. */
  lemma {:induction false} PaddedRead(s: string)
    requires AllDigits(s)
    ensures Padded(ReadDigits(s), |s|) == s
  {
    if s != [] {
      var init := s[..|s| - 1];
      var v := ReadDigits(s);
      assert v / 10 == ReadDigits(init) && v % 10 == DigitValue(s[|s| - 1]);
      PaddedRead(init);
      assert s == init + [s[|s| - 1]];
    }
  }

  /** The decimal text of a natural number reads back as that number. */
  lemma {:induction false} ReadNatText(n: nat)
    ensures ReadDigits(NatText(n)) == n
  {
    if n >= 10 {
      var s := NatText(n);
      assert s[..|s| - 1] == NatText(n / 10);
      ReadNatText(n / 10);
    }
  }

  /** Distinct integers have distinct texts. */
  lemma IntTextInjective(i: int, j: int)
    requires IntText(i) == IntText(j)
    ensures i == j
  {
    if i < 0 && j < 0 {
      assert NatText(-i) == IntText(i)[1..] == IntText(j)[1..] == NatText(-j);
      NatTextInjective(-i, -j);
    } else if i >= 0 && j >= 0 {
      NatTextInjective(i, j);
    } else {
      SignDistinguishes(if i < 0 then i else j, if i < 0 then j else i);
    }
  }

  lemma NatTextInjective(m: nat, n: nat)
    requires NatText(m) == NatText(n)
    ensures m == n
  {
    ReadNatText(m);
    ReadNatText(n);
  }

  lemma SignDistinguishes(i: int, j: int)
    requires i < 0 <= j
    ensures IntText(i) != IntText(j)
  {
    assert IntText(i)[0] == '-';
    assert IsDigit(IntText(j)[0]);
  }
}
