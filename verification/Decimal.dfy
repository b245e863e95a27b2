/** Whole numbers and their decimal text, as String(n) writes them and Number(text) reads them back. */
module Decimal {
  import opened Text

  predicate IsDigit(c: char) { '0' <= c <= '9' }

  predicate AllDigits(s: string) {
    forall i :: 0 <= i < |s| ==> IsDigit(s[i])
  }

  function DigitChar(d: nat): (c: char)
    requires d < 10
    ensures IsDigit(c) && c as int - '0' as int == d
  {
    ('0' as int + d) as char
  }

  function Digits(n: nat): (s: string)
    ensures s != "" && AllDigits(s)
  {
    if n < 10 then [DigitChar(n)] else Digits(n / 10) + [DigitChar(n % 10)]
  }

  function Value(s: string): nat
    requires AllDigits(s)
  {
    if s == "" then 0 else 10 * Value(s[..|s| - 1]) + (s[|s| - 1] as int - '0' as int)
  }

  lemma {:induction false} ValueOfDigits(n: nat)
    ensures Value(Digits(n)) == n
  {
    var s := Digits(n);
    if n < 10 {
      assert s[..0] == "";
    } else {
      ValueOfDigits(n / 10);
      assert s[..|s| - 1] == Digits(n / 10);
    }
  }

  /** String(n) for an integer. */
  function IntText(n: int): (s: string)
    ensures s != "" && Trimmed(s)
  {
    var s := Digits(if n < 0 then -n else n);
    if n < 0 then "-" + s else s
  }

  /** Number(text) on whole numbers: optional sign, digits only, surrounding white space ignored and a blank
      text read as zero. None stands for every other text (NaN, fractions, exponents, other radixes). */
  function ReadInt(text: string): Option<int> {
    var s := Trim(text);
    if s == "" then Some(0)
    else
      var negative := s[0] == '-';
      var digits := if s[0] == '-' || s[0] == '+' then s[1..] else s;
      if digits == "" || !AllDigits(digits) then None
      else
        var magnitude: int := Value(digits);
        Some(if negative then -magnitude else magnitude)
  }

  lemma ReadIntText(n: int)
    ensures ReadInt(IntText(n)) == Some(n)
  {
    var s := IntText(n);
    TrimKeepsTrimmed(s);
    var magnitude := if n < 0 then -n else n;
    ValueOfDigits(magnitude);
    if n < 0 { assert s[1..] == Digits(magnitude); }
  }

  /** However a whole number is written, with white space around it, either sign or none and any leading zeros, it
      reads as the number its digits make; blank text reads as zero. */
  lemma ReadIntReads(before: string, sign: string, digits: string, after: string)
    requires Blank(before) && Blank(after) && digits != "" && AllDigits(digits)
    requires sign == "" || sign == "+" || sign == "-"
    ensures ReadInt(before + ((sign + digits) + after))
         == Some(if sign == "-" then -(Value(digits) as int) else Value(digits))
    ensures ReadInt(before) == Some(0)
  {
    hide Trim, IsSpace;
    NoDigitIsSpace();
    var s := sign + digits;
    TrimPadded(before, s, after);
    TrimEmptyIffBlank(before);
    assert IsDigit(digits[0]);
    if sign == "" {
      assert s == digits && s[0] == digits[0];
    } else {
      assert s[0] == sign[0] && s[1..] == digits;
    }
  }

  ghost predicate WrittenInt(text: string, before: string, sign: string, digits: string, after: string) {
    && text == before + ((sign + digits) + after) && Blank(before) && Blank(after)
    && (sign == "" || sign == "+" || sign == "-") && digits != "" && AllDigits(digits)
  }

  /** And nothing else reads as a whole number. */
  lemma ReadIntIff(text: string)
    ensures ReadInt(text).Some? <==>
      Blank(text) || exists before, sign, digits, after :: WrittenInt(text, before, sign, digits, after)
  {
    hide Trim, IsSpace, AllDigits, ReadInt, WrittenInt;
    if Blank(text) { BlankIsZero(text); }
    if ReadInt(text).Some? && !Blank(text) {
      var before, sign, digits, after := IntSplits(text);
    }
    forall before, sign, digits, after | WrittenInt(text, before, sign, digits, after) ensures ReadInt(text).Some? {
      IntIsRead(text, before, sign, digits, after);
    }
  }

  lemma BlankIsZero(text: string)
    requires Blank(text)
    ensures ReadInt(text) == Some(0)
  {
    hide Trim, IsSpace;
    TrimEmptyIffBlank(text);
  }

  lemma IntIsRead(text: string, before: string, sign: string, digits: string, after: string)
    requires WrittenInt(text, before, sign, digits, after)
    ensures ReadInt(text).Some?
  {
    hide ReadInt, Blank;
    ReadIntReads(before, sign, digits, after);
  }

  lemma IntSplits(text: string) returns (before: string, sign: string, digits: string, after: string)
    requires ReadInt(text).Some? && !Blank(text)
    ensures WrittenInt(text, before, sign, digits, after)
  {
    hide Trim, IsSpace, AllDigits;
    TrimEmptyIffBlank(text);
    before, after := TrimMeaning(text);
    var s := Trim(text);
    sign := if s[0] == '-' || s[0] == '+' then [s[0]] else "";
    digits := s[|sign|..];
    assert s == sign + digits;
    Assoc(before, s, after);
  }

  lemma NoDigitIsSpace()
    ensures !IsSpace('+') && !IsSpace('-') && forall c :: IsDigit(c) ==> !IsSpace(c)
  {}

  /** What the digits make: each is worth ten times the next. */
  lemma {:induction false} ValueOfSum(a: string, b: string)
    requires AllDigits(a) && AllDigits(b)
    ensures AllDigits(a + b) && Value(a + b) == Value(a) * Power(|b|) + Value(b)
    decreases |b|
  {
    if b == "" {
      assert a + b == a;
    } else {
      var front := b[..|b| - 1];
      ValueOfSum(a, front);
      assert (a + b)[..|a + b| - 1] == a + front;
      hide Value, Power;
      ValueOfLast(a + b);
      ValueOfLast(b);
      TenTimes(Value(a), |front|);
    }
  }

  lemma ValueOfLast(s: string)
    requires AllDigits(s) && s != ""
    ensures Value(s) == 10 * Value(s[..|s| - 1]) + (s[|s| - 1] as int - '0' as int)
  {}

  lemma TenTimes(v: nat, n: nat)
    ensures v * Power(n + 1) == 10 * (v * Power(n))
  {}

  /** Ten to the n. */
  function Power(n: nat): nat { if n == 0 then 1 else 10 * Power(n - 1) }
}
