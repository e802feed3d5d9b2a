/**
 * Decimal text of natural numbers, and JavaScript's `parseInt(text)` with
 * no radix argument: leading white space skipped, an optional sign, a `0x`
 * or `0X` prefix switching to base 16, then the longest run of digits;
 * no digits at all is NaN, here `None`.
 */
module Numbers {
  import opened Wrappers
  import opened Text

  function DigitChar(d: nat): char
    requires d < 10
  {
    ('0' as int + d) as char
  }

  predicate IsDecimalDigit(c: char) {
    '0' <= c <= '9'
  }

  /** The decimal text of `n`, without leading zeros. */
  function NatToString(n: nat): (s: string)
    ensures |s| >= 1
    ensures forall i :: 0 <= i < |s| ==> IsDecimalDigit(s[i])
    decreases n
  {
    if n < 10 then [DigitChar(n)] else NatToString(n / 10) + [DigitChar(n % 10)]
  }

  /** Only zero is written with a leading `0`. */
  lemma {:induction false} NatToStringLeading(n: nat)
    ensures NatToString(n)[0] == '0' <==> n == 0
    decreases n
  {
    if n >= 10 {
      NatToStringLeading(n / 10);
    }
  }

  /** The value of `c` as a digit in base 10 or base 16 (either letter case). */
  function DigitValue(c: char, radix: nat): Option<nat> {
    if '0' <= c <= '9' then Some(c as int - '0' as int)
    else if radix == 16 && 'a' <= c <= 'f' then Some(c as int - 'a' as int + 10)
    else if radix == 16 && 'A' <= c <= 'F' then Some(c as int - 'A' as int + 10)
    else None
  }

  /** A digit written by `DigitChar` reads back as itself. */
  lemma DigitValueOfChar(d: nat)
    requires d < 10
    ensures DigitValue(DigitChar(d), 10) == Some(d)
  {
  }

  /** The length of the run of digits `s` starts with. */
  function DigitRun(s: string, radix: nat): (n: nat)
    ensures n <= |s|
    ensures forall i :: 0 <= i < n ==> DigitValue(s[i], radix).Some?
    ensures n < |s| ==> DigitValue(s[n], radix).None?
    decreases |s|
  {
    if |s| == 0 || DigitValue(s[0], radix).None? then 0 else 1 + DigitRun(s[1..], radix)
  }

  /** The number a run of digits denotes. */
  function DigitsValue(d: string, radix: nat): nat
    requires forall i :: 0 <= i < |d| ==> DigitValue(d[i], radix).Some?
    decreases |d|
  {
    if |d| == 0 then 0
    else DigitsValue(d[..|d| - 1], radix) * radix + DigitValue(d[|d| - 1], radix).value
  }

  /** The digits that start `s`. */
  function LeadingDigits(s: string, radix: nat): (d: string)
    ensures d == s[..DigitRun(s, radix)]
    ensures forall i :: 0 <= i < |d| ==> DigitValue(d[i], radix).Some?
  {
    s[..DigitRun(s, radix)]
  }

  /** What `parseInt` has read before the digits: the sign, the base, and the text left. */
  datatype Numeral = Numeral(negative: bool, radix: nat, rest: string)

  /** White space, then an optional sign, then an optional `0x`/`0X` prefix. */
  function ReadPrefix(text: string): Numeral {
    var t := TrimStart(text);
    var negative := |t| > 0 && t[0] == '-';
    var u := if |t| > 0 && (t[0] == '-' || t[0] == '+') then t[1..] else t;
    if |u| >= 2 && u[0] == '0' && (u[1] == 'x' || u[1] == 'X') then Numeral(negative, 16, u[2..])
    else Numeral(negative, 10, u)
  }

  /** `s` holds no decimal digit. */
  predicate NoDigits(s: string) {
    forall i :: 0 <= i < |s| ==> !IsDecimalDigit(s[i])
  }

  /** Leading white space removed from digit-free text leaves digit-free text. */
  lemma {:induction false} TrimStartNoDigits(s: string)
    requires NoDigits(s)
    ensures NoDigits(TrimStart(s))
    decreases |s|
  {
    if |s| > 0 && IsSpace(s[0]) {
      TrimStartNoDigits(s[1..]);
    }
  }

  /** Text without a single decimal digit leaves no digits after the sign. */
  lemma NoDigitsNoRun(text: string)
    ensures NoDigits(text) ==> LeadingDigits(ReadPrefix(text).rest, ReadPrefix(text).radix) == []
  {
    if NoDigits(text) {
      TrimStartNoDigits(text);
      var t := TrimStart(text);
      var u := if |t| > 0 && (t[0] == '-' || t[0] == '+') then t[1..] else t;
      assert NoDigits(u);
      assert ReadPrefix(text) == Numeral(|t| > 0 && t[0] == '-', 10, u);
    }
  }

  /**
   * `parseInt(text)`; `None` is NaN. Text without a decimal digit is NaN, and
   * a negative result needs a minus sign after the leading white space.
   */
  function ParseInt(text: string): (r: Option<int>)
    ensures NoDigits(text) ==> r.None?
    ensures r.Some? && r.value < 0 ==> |TrimStart(text)| > 0 && TrimStart(text)[0] == '-'
  {
    NoDigitsNoRun(text);
    var n := ReadPrefix(text);
    var d := LeadingDigits(n.rest, n.radix);
    if d == [] then None
    else
      var magnitude: int := DigitsValue(d, n.radix);
      var value: int := if n.negative then -magnitude else magnitude;
      Some(value)
  }

  /** The decimal text of a number reads back as that number. */
  lemma {:induction false} DigitsValueOfNatToString(n: nat)
    ensures DigitsValue(NatToString(n), 10) == n
    decreases n
  {
    var s := NatToString(n);
    if n >= 10 {
      DigitsValueOfNatToString(n / 10);
      assert s[..|s| - 1] == NatToString(n / 10);
    }
  }

  /** Every character of a digit string belongs to the run of digits. */
  lemma {:induction false} DigitRunAll(s: string, radix: nat)
    requires forall i :: 0 <= i < |s| ==> DigitValue(s[i], radix).Some?
    ensures DigitRun(s, radix) == |s|
    decreases |s|
  {
    if |s| > 0 {
      DigitRunAll(s[1..], radix);
    }
  }

  /** A run of digits followed by a non-digit ends where the digits end. */
  lemma {:induction false} DigitRunThen(d: string, rest: string, radix: nat)
    requires forall i :: 0 <= i < |d| ==> DigitValue(d[i], radix).Some?
    requires |rest| > 0 ==> DigitValue(rest[0], radix).None?
    ensures DigitRun(d + rest, radix) == |d|
    decreases |d|
  {
    if |d| > 0 {
      assert (d + rest)[1..] == d[1..] + rest;
      DigitRunThen(d[1..], rest, radix);
    } else {
      assert d + rest == rest;
    }
  }

  /**
   * `parseInt` stops at the end of the digits: the decimal text of `n`
   * followed by a character that is neither a digit nor the `x` of a hex
   * prefix reads as `n`.
   */
  lemma ParseIntNatToStringThen(n: nat, rest: string)
    requires |rest| > 0 ==> !IsDecimalDigit(rest[0]) && rest[0] != 'x' && rest[0] != 'X'
    ensures ParseInt(NatToString(n) + rest) == Some(n)
  {
    var s := NatToString(n);
    var t := s + rest;
    assert ReadPrefix(t) == Numeral(false, 10, t) by {
      if |t| >= 2 {
        if |s| >= 2 { assert t[1] == s[1]; } else { assert t[1] == rest[0]; }
      }
      ReadPrefixOfDigit(t);
    }
    assert LeadingDigits(t, 10) == s by {
      DigitRunThen(s, rest, 10);
    }
    assert DigitsValue(s, 10) == n by {
      DigitsValueOfNatToString(n);
    }
  }

  /** Text that starts with a decimal digit, not followed by `x`, is read in base 10 from its start. */
  lemma ReadPrefixOfDigit(t: string)
    requires |t| > 0 && IsDecimalDigit(t[0])
    requires |t| >= 2 ==> t[1] != 'x' && t[1] != 'X'
    ensures ReadPrefix(t) == Numeral(false, 10, t)
  {
    assert !IsSpace(t[0]);
    assert TrimStart(t) == t;
  }

  /** Round trip: `parseInt` of the decimal text of `n` is `n`. */
  lemma ParseIntNatToString(n: nat)
    ensures ParseInt(NatToString(n)) == Some(n)
  {
    ParseIntNatToStringThen(n, "");
    assert NatToString(n) + "" == NatToString(n);
  }
}
