/** Characters, decimal numerals and joined strings, shared by the other modules. */
module Text {

  /** The first digit of every run of ten decimal digits in Unicode 14, the `\d` of a Python pattern. */
  const DIGIT_ZEROES: seq<int> := [
    0x30, 0x660, 0x6f0, 0x7c0, 0x966, 0x9e6, 0xa66, 0xae6, 0xb66, 0xbe6, 0xc66, 0xce6, 0xd66, 0xde6,
    0xe50, 0xed0, 0xf20, 0x1040, 0x1090, 0x17e0, 0x1810, 0x1946, 0x19d0, 0x1a80, 0x1a90, 0x1b50,
    0x1bb0, 0x1c40, 0x1c50, 0xa620, 0xa8d0, 0xa900, 0xa9d0, 0xa9f0, 0xaa50, 0xabf0, 0xff10, 0x104a0,
    0x10d30, 0x11066, 0x110f0, 0x11136, 0x111d0, 0x112f0, 0x11450, 0x114d0, 0x11650, 0x116c0,
    0x11730, 0x118e0, 0x11950, 0x11c50, 0x11d50, 0x11da0, 0x16a60, 0x16ac0, 0x16b50, 0x1d7ce,
    0x1d7d8, 0x1d7e2, 0x1d7ec, 0x1d7f6, 0x1e140, 0x1e2f0, 0x1e950, 0x1fbf0]

  /** What `str.strip()` removes besides the space itself. */
  const OTHER_SPACES: seq<int> := [
    0x9, 0xa, 0xb, 0xc, 0xd, 0x1c, 0x1d, 0x1e, 0x1f, 0x85, 0xa0, 0x1680, 0x2000, 0x2001, 0x2002,
    0x2003, 0x2004, 0x2005, 0x2006, 0x2007, 0x2008, 0x2009, 0x200a, 0x2028, 0x2029, 0x202f, 0x205f,
    0x3000]

  predicate IsAsciiDigit(c: char) {
    '0' <= c <= '9'
  }

  predicate IsDigit(c: char) {
    IsAsciiDigit(c) || exists i | 0 <= i < |DIGIT_ZEROES| :: 0 <= c as int - DIGIT_ZEROES[i] <= 9
  }

  predicate IsSpace(c: char) {
    c == ' ' || c as int in OTHER_SPACES
  }

  predicate AllDigits(s: string) {
    forall i | 0 <= i < |s| :: IsAsciiDigit(s[i])
  }

  // ---- decimal numerals ----

  function DigitChar(d: nat): char
    requires d < 10
  {
    ('0' as int + d) as char
  }

  function OfNat(n: nat): (s: string)
    ensures s != "" && AllDigits(s)
  {
    if n < 10 then [DigitChar(n)] else OfNat(n / 10) + [DigitChar(n % 10)]
  }

  function OfInt(n: int): string {
    if n < 0 then "-" + OfNat(-n) else OfNat(n)
  }

  function ToNat(s: string): nat
    requires AllDigits(s)
  {
    if s == "" then 0 else ToNat(s[..|s| - 1]) * 10 + (s[|s| - 1] as int - '0' as int)
  }

  function ToInt(s: string): int
    requires if s != "" && s[0] == '-' then AllDigits(s[1..]) else AllDigits(s)
  {
    if s != "" && s[0] == '-' then 0 - ToNat(s[1..]) else ToNat(s)
  }

  lemma {:induction false} ToNatOfNat(n: nat)
    ensures ToNat(OfNat(n)) == n
  {
    if n >= 10 {
      ToNatOfNat(n / 10);
      assert OfNat(n)[..|OfNat(n)| - 1] == OfNat(n / 10);
    } else {
      assert ToNat([DigitChar(n)][..0]) == 0;
    }
  }

  lemma ToIntOfInt(n: int)
    ensures OfInt(n) != ""
    ensures OfInt(n)[0] == '-' <==> n < 0
    ensures if n < 0 then AllDigits(OfInt(n)[1..]) && OfInt(n)[1..] != "" else AllDigits(OfInt(n))
    ensures ToInt(OfInt(n)) == n
  {
    if n < 0 {
      assert OfInt(n)[1..] == OfNat(-n);
      ToNatOfNat(-n);
    } else {
      ToNatOfNat(n);
    }
  }

  // ---- joining ----

  lemma ConcatAssoc<T>(a: seq<T>, b: seq<T>, c: seq<T>)
    ensures a + b + c == a + (b + c)
  {
  }

  lemma DropFront<T>(a: seq<T>, b: seq<T>)
    ensures (a + b)[|a|..] == b && (a + b)[..|a|] == a
    ensures a != [] ==> (a + b)[0] == a[0]
  {
  }

  function Join(sep: string, parts: seq<string>): string {
    if |parts| == 0 then ""
    else if |parts| == 1 then parts[0]
    else parts[0] + sep + Join(sep, parts[1..])
  }

  /** The index of the first character outside `keep`, or the length. */
  function Span(s: string, keep: char -> bool): (n: nat)
    ensures n <= |s|
    ensures forall i | 0 <= i < n :: keep(s[i])
    ensures n < |s| ==> !keep(s[n])
  {
    if s == "" || !keep(s[0]) then 0 else 1 + Span(s[1..], keep)
  }

  lemma {:induction false} SpanPrefix(s: string, rest: string, keep: char -> bool)
    requires forall i | 0 <= i < |s| :: keep(s[i])
    requires rest == "" || !keep(rest[0])
    ensures Span(s + rest, keep) == |s|
    ensures (s + rest)[..|s|] == s && (s + rest)[|s|..] == rest
  {
    if s == "" {
      assert s + rest == rest;
    } else {
      assert (s + rest)[1..] == s[1..] + rest;
      SpanPrefix(s[1..], rest, keep);
    }
  }
}
