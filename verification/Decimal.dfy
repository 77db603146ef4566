/** Decimal numbers as Rust's formatting and `parse` write and read them. */
module Decimal {
  import opened Options

  const U32_LIMIT := 0x1_0000_0000
  const I64_LIMIT := 0x8000_0000_0000_0000
  const U64_LIMIT := 0x1_0000_0000_0000_0000

  predicate IsDigit(c: char) {
    '0' <= c <= '9'
  }

  function DigitValue(c: char): (d: nat)
    requires IsDigit(c)
    ensures d < 10
  {
    c as int - '0' as int
  }

  function DigitChar(d: nat): (c: char)
    requires d < 10
    ensures IsDigit(c) && DigitValue(c) == d
  {
    ('0' as int + d) as char
  }

  function PrintNat(n: nat): (s: string)
    ensures s != [] && forall i :: 0 <= i < |s| ==> IsDigit(s[i])
  {
    if n < 10 then [DigitChar(n)] else PrintNat(n / 10) + [DigitChar(n % 10)]
  }

  function PrintInt(n: int): string {
    if n < 0 then "-" + PrintNat(-n) else PrintNat(n)
  }

  /** At least `width` digits, zero-padded on the left. */
  function Padded(n: nat, width: nat): string {
    var s := PrintNat(n);
    if |s| >= width then s else seq(width - |s|, _ => '0') + s
  }

  /** The value of a text of digits. */
  function ParseNat(s: string): Option<nat> {
    if s == [] then None
    else if !IsDigit(s[|s| - 1]) then None
    else if |s| == 1 then Some(DigitValue(s[0]))
    else
      var front := ParseNat(s[..|s| - 1]);
      if front.None? then None else Some(10 * front.value + DigitValue(s[|s| - 1]))
  }

  function Below(n: Option<nat>, limit: nat): Option<nat> {
    if n.Some? && n.value < limit then n else None
  }

  /** An optional plus sign and digits, below the limit of the type. */
  function ParseUnsigned(s: string, limit: nat): Option<nat> {
    if s != [] && s[0] == '+' then Below(ParseNat(s[1..]), limit) else Below(ParseNat(s), limit)
  }

  function Signed(sign: int, magnitude: Option<nat>): Option<int> {
    if magnitude.Some? then Some(sign * magnitude.value) else None
  }

  function ParseI64(s: string): Option<int> {
    if s != [] && s[0] == '-' then Signed(-1, Below(ParseNat(s[1..]), I64_LIMIT + 1))
    else Signed(1, ParseUnsigned(s, I64_LIMIT))
  }

  lemma {:induction false} ParsePrinted(n: nat)
    ensures ParseNat(PrintNat(n)) == Some(n)
  {
    if n >= 10 {
      ParsePrinted(n / 10);
      var front := PrintNat(n / 10);
      assert PrintNat(n)[..|front|] == front;
    }
  }

  lemma {:induction false} ParseZeros(zeros: nat, s: string)
    requires s != [] && ParseNat(s).Some?
    ensures ParseNat(seq(zeros, _ => '0') + s) == ParseNat(s)
    decreases |s|
  {
    var padding := seq(zeros, _ => '0');
    var padded := padding + s;
    var front := s[..|s| - 1];
    if zeros == 0 {
      assert padded == s;
    } else if front == [] {
      ZerosAreZero(zeros);
      assert padded[..|padded| - 1] == padding;
    } else {
      ParseZeros(zeros, front);
      assert padded[..|padded| - 1] == padding + front;
    }
  }

  lemma {:induction false} ZerosAreZero(zeros: nat)
    requires zeros > 0
    ensures ParseNat(seq(zeros, _ => '0')) == Some(0)
  {
    var padding := seq(zeros, _ => '0');
    if zeros > 1 {
      ZerosAreZero(zeros - 1);
      assert padding[..zeros - 1] == seq(zeros - 1, _ => '0');
    }
  }

  /** Zero padding does not change the number. */
  lemma ParsePadded(n: nat, width: nat)
    ensures ParseNat(Padded(n, width)) == Some(n)
    ensures Padded(n, width) != [] && forall i :: 0 <= i < |Padded(n, width)| ==> IsDigit(Padded(n, width)[i])
  {
    ParsePrinted(n);
    if |PrintNat(n)| < width {
      ParseZeros(width - |PrintNat(n)|, PrintNat(n));
    }
  }

  lemma UnsignedRoundTrip(n: nat, limit: nat)
    requires n < limit
    ensures ParseUnsigned(PrintNat(n), limit) == Some(n)
  {
    ParsePrinted(n);
  }

  lemma SignedRoundTrip(n: int)
    requires -I64_LIMIT <= n < I64_LIMIT
    ensures ParseI64(PrintInt(n)) == Some(n)
  {
    if n < 0 {
      ParsePrinted(-n);
      assert PrintInt(n)[1..] == PrintNat(-n);
    } else {
      ParsePrinted(n);
    }
  }
}
