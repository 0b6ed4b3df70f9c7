/** The few C library routines the interpreter relies on: the C-locale
    character classes of <ctype.h> (section 7.4.1 of ISO/IEC 9899:2011),
    atoi, and the decimal rendering of printf's %d. */
module LibC {

  predicate IsSpace(c: char)
  {
    // tab, newline, vertical tab, form feed and carriage return are 9 to 13
    c == ' ' || ('\t' <= c <= '\r')
  }

  predicate IsDigit(c: char)
  {
    '0' <= c <= '9'
  }

  predicate IsAlpha(c: char)
  {
    ('a' <= c <= 'z') || ('A' <= c <= 'Z')
  }

  predicate IsAlnum(c: char)
  {
    IsAlpha(c) || IsDigit(c)
  }

  function DigitChar(d: nat): (c: char)
    requires d < 10
    ensures IsDigit(c)
  {
    ('0' as int + d) as char
  }

  function DigitValue(c: char): (d: nat)
    requires IsDigit(c)
    ensures d < 10 && DigitChar(d) == c
  {
    c as int - '0' as int
  }

  /** The value of a run of decimal digits, most significant first. */
  function DigitsValue(ds: string): nat
    requires forall i :: 0 <= i < |ds| ==> IsDigit(ds[i])
  {
    if |ds| == 0 then 0 else 10 * DigitsValue(ds[..|ds| - 1]) + DigitValue(ds[|ds| - 1])
  }

  /** The longest prefix of `s` made of digits. */
  function LeadingDigits(s: string): (ds: string)
    ensures |ds| <= |s| && ds == s[..|ds|]
    ensures forall i :: 0 <= i < |ds| ==> IsDigit(ds[i])
    ensures |ds| < |s| ==> !IsDigit(s[|ds|])
  {
    if |s| == 0 || !IsDigit(s[0]) then [] else [s[0]] + LeadingDigits(s[1..])
  }

  /** atoi: skip leading white space, read an optional sign, then the
      longest run of digits. Results outside the range of int are
      undefined in C; here the mathematical value is kept. */
  function Atoi(s: string): int
  {
    if |s| > 0 && IsSpace(s[0]) then Atoi(s[1..])
    else if |s| > 0 && s[0] == '-' then -(DigitsValue(LeadingDigits(s[1..])) as int)
    else if |s| > 0 && s[0] == '+' then DigitsValue(LeadingDigits(s[1..]))
    else DigitsValue(LeadingDigits(s))
  }

  /** printf("%d") of a non-negative number. */
  function NatText(n: nat): (s: string)
    ensures |s| > 0
    ensures forall i :: 0 <= i < |s| ==> IsDigit(s[i])
  {
    if n < 10 then [DigitChar(n)] else NatText(n / 10) + [DigitChar(n % 10)]
  }

  /** printf("%d"): a minus sign for negative numbers, then the digits. */
  function IntText(n: int): string
  {
    if n < 0 then "-" + NatText(-n) else NatText(n)
  }

  lemma {:induction false} DigitsValueOfNatText(n: nat)
    ensures DigitsValue(NatText(n)) == n
  {
    var s := NatText(n);
    if n >= 10 {
      assert s[..|s| - 1] == NatText(n / 10);
      DigitsValueOfNatText(n / 10);
    }
  }

  lemma {:induction false} LeadingDigitsOfDigits(s: string, rest: string)
    requires forall i :: 0 <= i < |s| ==> IsDigit(s[i])
    requires |rest| > 0 ==> !IsDigit(rest[0])
    ensures LeadingDigits(s + rest) == s
  {
    if |s| > 0 {
      assert (s + rest)[1..] == s[1..] + rest;
      LeadingDigitsOfDigits(s[1..], rest);
    }
  }

  /** Reading back what %d printed gives the number again: the integer
      literals the printer writes are the ones the parser reads. */
  lemma AtoiInvertsIntText(n: int)
    ensures Atoi(IntText(n)) == n
  {
    var digits := if n < 0 then NatText(-n) else NatText(n);
    LeadingDigitsOfDigits(digits, []);
    assert digits + [] == digits;
    DigitsValueOfNatText(if n < 0 then -n else n);
    if n < 0 {
      assert IntText(n)[1..] == digits;
    }
  }
}
