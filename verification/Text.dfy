/** Go strings are byte strings: every `string` of this project holds one byte per `char`. */
module Text {

  predicate IsBytes(s: string) {
    forall i :: 0 <= i < |s| ==> s[i] as int < 0x100
  }

  predicate Between(c: char, lo: int, hi: int) {
    lo <= c as int <= hi
  }

  predicate Continuation(c: char) {
    Between(c, 0x80, 0xBF)
  }

  /** The number of bytes the first character of `s` occupies.  A byte that starts no well-formed sequence is a
      character of its own. */
  function RuneWidth(s: string): (n: nat)
    requires s != ""
    ensures 1 <= n <= 4 && n <= |s|
  {
    var c := s[0];
    if 2 <= |s| && Between(c, 0xC2, 0xDF) && Continuation(s[1]) then
      2
    else if 3 <= |s| && Between(c, 0xE0, 0xEF) && Continuation(s[1]) && Continuation(s[2])
            && (c as int == 0xE0 ==> 0xA0 <= s[1] as int) && (c as int == 0xED ==> s[1] as int <= 0x9F) then
      3
    else if 4 <= |s| && Between(c, 0xF0, 0xF4) && Continuation(s[1]) && Continuation(s[2]) && Continuation(s[3])
            && (c as int == 0xF0 ==> 0x90 <= s[1] as int) && (c as int == 0xF4 ==> s[1] as int <= 0x8F) then
      4
    else
      1
  }

  /** The number of characters of a byte string, counting every stray byte as one. */
  function RuneCount(s: string): (n: nat)
    ensures n <= |s| <= 4 * n
  {
    if s == "" then 0 else 1 + RuneCount(s[RuneWidth(s)..])
  }

  // ----- what counts as a character -----

  predicate Scalar(c: int) {
    0 <= c < 0xD800 || 0xE000 <= c < 0x11_0000
  }

  function Byte(n: int): char
    requires 0 <= n < 0x100
  {
    n as char
  }

  /** The UTF-8 encoding of a character. */
  function Utf8(c: int): (s: string)
    requires Scalar(c)
    ensures 1 <= |s| <= 4 && IsBytes(s)
  {
    if c < 0x80 then [Byte(c)]
    else if c < 0x800 then [Byte(0xC0 + c / 0x40), Byte(0x80 + c % 0x40)]
    else if c < 0x1_0000 then
      [Byte(0xE0 + c / 0x40 / 0x40), Byte(0x80 + c / 0x40 % 0x40), Byte(0x80 + c % 0x40)]
    else
      [Byte(0xF0 + c / 0x40 / 0x40 / 0x40), Byte(0x80 + c / 0x40 / 0x40 % 0x40), Byte(0x80 + c / 0x40 % 0x40),
       Byte(0x80 + c % 0x40)]
  }

  function Encoded(cs: seq<int>): string
    requires forall i :: 0 <= i < |cs| ==> Scalar(cs[i])
  {
    if cs == [] then "" else Utf8(cs[0]) + Encoded(cs[1..])
  }

  lemma FirstRune(c: int, rest: string)
    requires Scalar(c)
    ensures RuneWidth(Utf8(c) + rest) == |Utf8(c)|
  {
  }

  /** A text counts as many characters as it was encoded from. */
  lemma {:induction false} RuneCountOfText(cs: seq<int>)
    requires forall i :: 0 <= i < |cs| ==> Scalar(cs[i])
    ensures RuneCount(Encoded(cs)) == |cs|
  {
    if cs != [] {
      var s := Encoded(cs);
      FirstRune(cs[0], Encoded(cs[1..]));
      assert s[|Utf8(cs[0])|..] == Encoded(cs[1..]);
      RuneCountOfText(cs[1..]);
    }
  }

  ghost predicate IsRune(s: string) {
    exists c :: Scalar(c) && s == Utf8(c)
  }

  /** Bits `b` of a continuation byte below those of the earlier bytes. */
  lemma Sextet(x: nat, b: nat)
    requires b < 0x40
    ensures (x * 0x40 + b) / 0x40 == x && (x * 0x40 + b) % 0x40 == b
  {
  }

  lemma TwoBytes(s: string)
    requires s != "" && RuneWidth(s) == 2
    ensures IsRune(s[..2])
  {
    var x, b := s[0] as int - 0xC0, s[1] as int - 0x80;
    Sextet(x, b);
    assert s[..2] == Utf8(x * 0x40 + b);
  }

  lemma ThreeBytes(s: string)
    requires s != "" && RuneWidth(s) == 3
    ensures IsRune(s[..3])
  {
    var x, b1, b2 := s[0] as int - 0xE0, s[1] as int - 0x80, s[2] as int - 0x80;
    Sextet(x, b1);
    Sextet(x * 0x40 + b1, b2);
    assert s[..3] == Utf8((x * 0x40 + b1) * 0x40 + b2);
  }

  lemma FourBytes(s: string)
    requires s != "" && RuneWidth(s) == 4
    ensures IsRune(s[..4])
  {
    var x, b1, b2, b3 := s[0] as int - 0xF0, s[1] as int - 0x80, s[2] as int - 0x80, s[3] as int - 0x80;
    Sextet(x, b1);
    Sextet(x * 0x40 + b1, b2);
    Sextet((x * 0x40 + b1) * 0x40 + b2, b3);
    assert s[..4] == Utf8(((x * 0x40 + b1) * 0x40 + b2) * 0x40 + b3);
  }

  /** Nothing but the encoding of a character is wider than one byte: every other byte counts by itself. */
  lemma WideRuneIsEncoded(s: string)
    requires s != "" && RuneWidth(s) > 1
    ensures IsRune(s[..RuneWidth(s)])
  {
    if RuneWidth(s) == 2 {
      TwoBytes(s);
    } else if RuneWidth(s) == 3 {
      ThreeBytes(s);
    } else {
      FourBytes(s);
    }
  }

  // ----- decimals -----

  function DigitChar(d: int): char
    requires 0 <= d < 16
  {
    "0123456789ABCDEF"[d]
  }

  function DigitValue(c: char): int {
    if '0' <= c <= '9' then c as int - '0' as int
    else if 'A' <= c <= 'F' then c as int - 'A' as int + 10
    else 0
  }

  function Digits(n: nat): (s: string)
    ensures s != "" && forall c :: c in s ==> '0' <= c <= '9'
  {
    if n < 10 then [DigitChar(n)] else Digits(n / 10) + [DigitChar(n % 10)]
  }

  function DigitsValue(s: string): int {
    if s == "" then 0 else 10 * DigitsValue(s[..|s| - 1]) + DigitValue(s[|s| - 1])
  }

  function Decimal(n: int): string {
    if n < 0 then "-" + Digits(-n) else Digits(n)
  }

  function DecimalValue(s: string): int {
    if s != "" && s[0] == '-' then -DigitsValue(s[1..]) else DigitsValue(s)
  }

  lemma {:induction false} DigitsRoundTrip(n: nat)
    ensures DigitsValue(Digits(n)) == n
  {
    if n >= 10 {
      DigitsRoundTrip(n / 10);
      var s := Digits(n);
      assert s[..|s| - 1] == Digits(n / 10) && s[|s| - 1] == DigitChar(n % 10);
    } else {
      assert Digits(n)[..0] == "";
    }
  }

  lemma DecimalRoundTrip(n: int)
    ensures DecimalValue(Decimal(n)) == n && ':' !in Decimal(n)
  {
    DigitsRoundTrip(if n < 0 then -n else n);
    if n < 0 {
      assert Decimal(n)[1..] == Digits(-n);
    } else {
      assert Digits(n)[0] in Digits(n);
    }
  }
}
