/**
 * Decimal text: Python's `float(s)` on plain decimal notation, `str(n)`
 * for naturals, and the `f"{x:.2f}"` / `f"{x:,.2f}"` renderings of an
 * amount held as a whole number of cents.
 */
module Decimal {
  import opened Common
  import opened Text

  predicate IsDigit(c: char) {
    '0' <= c <= '9'
  }

  predicate AllDigits(s: string) {
    forall c :: c in s ==> IsDigit(c)
  }

  function DigitValue(c: char): nat
    requires IsDigit(c)
  {
    c as int - '0' as int
  }

  function DigitChar(d: nat): (c: char)
    requires d < 10
    ensures IsDigit(c) && DigitValue(c) == d
  {
    ('0' as int + d) as char
  }

  function Pow10(n: nat): (p: nat)
    ensures p >= 1
  {
    if n == 0 then 1 else 10 * Pow10(n - 1)
  }

  /** The number a string of decimal digits denotes (leading zeros allowed). */
  function DigitsValue(s: string): nat
    requires AllDigits(s)
  {
    if |s| == 0 then 0 else DigitsValue(s[..|s| - 1]) * 10 + DigitValue(s[|s| - 1])
  }

  /** Python's `str(n)` for a natural number: its shortest decimal digit string. */
  function NatToString(n: nat): (s: string)
    ensures |s| >= 1 && AllDigits(s)
    ensures DigitsValue(s) == n
    ensures |s| > 1 ==> s[0] != '0'
  {
    if n < 10 then [DigitChar(n)]
    else
      var prefix := NatToString(n / 10);
      var s := prefix + [DigitChar(n % 10)];
      assert s[..|s| - 1] == prefix;
      s
  }

  /** Exactly `width` digits, zero-padded on the left (`f"{n:0{width}d}"`). */
  function PadDigits(n: nat, width: nat): (s: string)
    requires n < Pow10(width)
    ensures |s| == width && AllDigits(s) && DigitsValue(s) == n
  {
    if width == 0 then ""
    else
      var prefix := PadDigits(n / 10, width - 1);
      var s := prefix + [DigitChar(n % 10)];
      assert s[..|s| - 1] == prefix;
      s
  }

  lemma {:induction false} NoCommaInDigits(s: string)
    requires AllDigits(s)
    ensures ',' !in s
  {
  }

  lemma {:induction false} NoDotInDigits(s: string)
    requires AllDigits(s)
    ensures '.' !in s
  {
  }

  /**
   * Thousands grouping of a digit string, as `f"{n:,}"` renders it: a
   * comma before every third digit counted from the right.
   */
  function GroupDigits(s: string): (g: string)
    ensures |g| >= |s|
    decreases |s|
  {
    if |s| <= 3 then s else GroupDigits(s[..|s| - 3]) + ([','] + s[|s| - 3..])
  }

  /** Python's `f"{n:,}"`. */
  function Group(n: nat): string {
    GroupDigits(NatToString(n))
  }

  /** Grouping only inserts commas: removing them gives back the digits. */
  lemma {:induction false} UngroupDigits(s: string)
    requires AllDigits(s)
    ensures RemoveChar(GroupDigits(s), ',') == s
    decreases |s|
  {
    if |s| > 3 {
      var head, tail := s[..|s| - 3], s[|s| - 3..];
      assert RemoveChar(GroupDigits(head), ',') == head by {
        UngroupDigits(head);
      }
      assert RemoveChar([','] + tail, ',') == tail by {
        NoCommaInDigits(tail);
        RemoveCharAbsent(tail, ',');
        RemoveCharAppend([','], tail, ',');
      }
      RemoveCharAppend(GroupDigits(head), [','] + tail, ',');
      assert head + tail == s;
    } else {
      NoCommaInDigits(s);
      RemoveCharAbsent(s, ',');
    }
  }

  /** `"-"` for a negative amount, nothing otherwise. */
  function SignText(c: int): string {
    if c < 0 then "-" else ""
  }

  function Magnitude(c: int): nat {
    if c < 0 then -c else c
  }

  /** Sign, integer part, a dot and two decimals for an amount of `c` cents. */
  function CentsText(c: int, grouped: bool): string {
    var a := Magnitude(c);
    var ip := if grouped then Group(a / 100) else NatToString(a / 100);
    SignText(c) + (ip + ("." + PadDigits(a % 100, 2)))
  }

  /** Python's `f"{x:.2f}"`: the amount rounded half-to-even to cents. */
  function Fixed2(x: real): string {
    CentsText(RoundHalfEven(x * 100.0), false)
  }

  /** Python's `f"{x:,.2f}"` for an amount already held as `c` cents. */
  function GroupedCents(c: int): string {
    CentsText(c, true)
  }

  /** The value of the digits after a decimal point: `FractionValue("25") == 0.25`. */
  function FractionValue(s: string): (v: real)
    requires AllDigits(s)
    ensures 0.0 <= v <= 1.0
  {
    if |s| == 0 then 0.0 else (DigitValue(s[0]) as real + FractionValue(s[1..])) / 10.0
  }

  lemma {:induction false} FractionOfTwoDigits(s: string)
    requires AllDigits(s) && |s| == 2
    ensures FractionValue(s) == DigitsValue(s) as real / 100.0
  {
    var d0 := DigitValue(s[0]);
    var d1 := DigitValue(s[1]);
    assert s[1..][1..] == [] && s[1..][0] == s[1];
    assert FractionValue(s[1..]) == d1 as real / 10.0;
    assert s[..1][..0] == [] && s[..1][0] == s[0];
    assert DigitsValue(s[..1]) == d0;
    assert DigitsValue(s) == d0 * 10 + d1;
  }

  /** Digits before and after the dot, at least one digit overall. */
  function ParseParts(ip: string, fp: string): (r: Option<real>)
    ensures r.Some? <==> AllDigits(ip) && AllDigits(fp) && |ip| + |fp| >= 1
    ensures r.Some? ==> r.value >= 0.0
  {
    if AllDigits(ip) && AllDigits(fp) && |ip| + |fp| >= 1 then
      Some(DigitsValue(ip) as real + FractionValue(fp))
    else None
  }

  /**
   * The unsigned part of `float(s)`: digits with at most one dot, at least
   * one digit. Text after the first dot must be all digits, so a second
   * dot is rejected.
   */
  function ParseUnsigned(body: string): (r: Option<real>)
    ensures r.Some? ==> |body| >= 1 && r.value >= 0.0
  {
    var parts := Split(body, '.');
    if |parts| > 2 then None
    else if |parts| == 2 then ParseParts(parts[0], parts[1])
    else ParseParts(parts[0], "")
  }

  /**
   * Python's `float(s)` on plain decimal notation: an optional sign, then
   * digits with at most one dot and at least one digit overall ("1.",
   * ".5" and "12" are accepted; "", ".", "-" and "0.85." are not).
   */
  function ParseFloat(s: string): (r: Option<real>)
    ensures r.Some? ==> |s| >= 1
    ensures r.Some? && (|s| == 0 || s[0] != '-') ==> r.value >= 0.0
  {
    var signed := |s| > 0 && (s[0] == '-' || s[0] == '+');
    var u := ParseUnsigned(if signed then s[1..] else s);
    if u.None? then None
    else if |s| > 0 && s[0] == '-' then Some(-u.value)
    else u
  }

  /** One dot splits the text into integer and fraction digits. */
  lemma {:induction false} ParseUnsignedAtDot(ip: string, fp: string)
    requires '.' !in ip && '.' !in fp
    ensures ParseUnsigned(ip + ['.'] + fp) == ParseParts(ip, fp)
  {
    SplitAt(ip, fp, '.');
  }

  /** Digits, one dot, digits. */
  lemma {:induction false} ParseUnsignedDot(ip: string, fp: string)
    requires AllDigits(ip) && AllDigits(fp) && |ip| >= 1
    ensures ParseUnsigned(ip + "." + fp) == Some(DigitsValue(ip) as real + FractionValue(fp))
  {
    NoDotInDigits(ip);
    NoDotInDigits(fp);
    ParseUnsignedAtDot(ip, fp);
    assert ip + "." + fp == ip + ['.'] + fp;
  }

  /** Digits alone. */
  lemma {:induction false} ParseUnsignedDigits(ip: string)
    requires AllDigits(ip) && |ip| >= 1
    ensures ParseUnsigned(ip) == Some(DigitsValue(ip) as real)
  {
    NoDotInDigits(ip);
    var e: string := "";
    assert AllDigits(e) && FractionValue(e) == 0.0;
  }

  /** `float(str(n)) == n`. */
  lemma {:induction false} ParseNatToString(n: nat)
    ensures ParseFloat(NatToString(n)) == Some(n as real)
  {
    var s := NatToString(n);
    ParseUnsignedDigits(s);
    ParseFloatUnsigned(s);
  }

  /** Digits, a dot and exactly two digits. */
  lemma {:induction false} ParseTwoDecimals(ip: string, fp: string)
    requires AllDigits(ip) && AllDigits(fp) && |ip| >= 1 && |fp| == 2
    ensures ParseUnsigned(ip + ("." + fp)) == Some(DigitsValue(ip) as real + DigitsValue(fp) as real / 100.0)
  {
    assert ip + ("." + fp) == ip + "." + fp;
    ParseUnsignedDot(ip, fp);
    FractionOfTwoDigits(fp);
  }

  /** Parsing `digits "." two-digits` recovers a non-negative amount in cents. */
  lemma {:induction false} ParseUnsignedCents(a: nat, ip: string, fp: string)
    requires AllDigits(ip) && |ip| >= 1 && DigitsValue(ip) == a / 100
    requires AllDigits(fp) && |fp| == 2 && DigitsValue(fp) == a % 100
    ensures ParseUnsigned(ip + ("." + fp)) == Some(a as real / 100.0)
    ensures IsDigit((ip + ("." + fp))[0])
  {
    assert (ip + ("." + fp))[0] == ip[0];
    ParseTwoDecimals(ip, fp);
    var q := a / 100;
    var r := a % 100;
    assert q * 100 + r == a;
    assert q as real + r as real / 100.0 == a as real / 100.0;
  }

  /** A minus sign negates what the unsigned parse of the rest gives. */
  lemma {:induction false} ParseFloatMinus(body: string)
    requires ParseUnsigned(body).Some?
    ensures ParseFloat("-" + body) == Some(-ParseUnsigned(body).value)
  {
    var s := "-" + body;
    assert s[0] == '-' && s[1..] == body;
  }

  /** Without a sign character, `float` is the unsigned parse. */
  lemma {:induction false} ParseFloatUnsigned(body: string)
    requires |body| >= 1 && IsDigit(body[0])
    ensures ParseFloat(body) == ParseUnsigned(body)
  {
  }

  /** A sign prefix in front of a digit-led unsigned number. */
  lemma {:induction false} ParseSigned(c: int, body: string)
    requires |body| >= 1 && IsDigit(body[0])
    requires ParseUnsigned(body) == Some(Magnitude(c) as real / 100.0)
    ensures ParseFloat(SignText(c) + body) == Some(c as real / 100.0)
  {
    if c < 0 {
      ParseFloatMinus(body);
    } else {
      assert SignText(c) + body == body;
      ParseFloatUnsigned(body);
    }
  }

  /** Parsing `[sign] digits "." two-digits` recovers the amount in cents. */
  lemma {:induction false} ParseCentsText(c: int, ip: string, fp: string)
    requires AllDigits(ip) && |ip| >= 1 && DigitsValue(ip) == Magnitude(c) / 100
    requires AllDigits(fp) && |fp| == 2 && DigitsValue(fp) == Magnitude(c) % 100
    ensures ParseFloat(SignText(c) + (ip + ("." + fp))) == Some(c as real / 100.0)
  {
    ParseUnsignedCents(Magnitude(c), ip, fp);
    ParseSigned(c, ip + ("." + fp));
  }

  /** `float(f"{x:.2f}")` is `x` rounded to cents. */
  lemma {:induction false} ParseFixed2(x: real)
    ensures ParseFloat(Fixed2(x)) == Some(RoundHalfEven(x * 100.0) as real / 100.0)
  {
    var c := RoundHalfEven(x * 100.0);
    var a := Magnitude(c);
    ParseCentsText(c, NatToString(a / 100), PadDigits(a % 100, 2));
  }

  /**
   * Round trip of the thousands-grouped amount: removing the commas from
   * `f"{x:,.2f}"` and parsing gives back exactly the amount in cents.
   */
  lemma {:induction false} ParseGroupedCents(c: int)
    ensures ParseFloat(RemoveChar(GroupedCents(c), ',')) == Some(c as real / 100.0)
  {
    var a := Magnitude(c);
    var sign := SignText(c);
    var ip := NatToString(a / 100);
    var g := GroupDigits(ip);
    var fp := PadDigits(a % 100, 2);
    var tail := "." + fp;
    assert GroupedCents(c) == sign + (g + tail);
    assert RemoveChar(sign, ',') == sign by {
      RemoveCharAbsent(sign, ',');
    }
    assert RemoveChar(tail, ',') == tail by {
      NoCommaInDigits(fp);
      assert tail == ['.'] + fp;
      RemoveCharAbsent(tail, ',');
    }
    RemoveCharAppend(g, tail, ',');
    RemoveCharAppend(sign, g + tail, ',');
    UngroupDigits(ip);
    assert RemoveChar(GroupedCents(c), ',') == sign + (ip + tail);
    ParseCentsText(c, ip, fp);
  }
  /** A character `f"{x:,.2f}"` can produce: a digit, a comma, the dot or a minus sign. */
  predicate AmountChar(c: char) {
    IsDigit(c) || c == ',' || c == '.' || c == '-'
  }

  lemma {:induction false} GroupDigitsChars(s: string)
    requires AllDigits(s)
    ensures forall c :: c in GroupDigits(s) ==> AmountChar(c)
    decreases |s|
  {
    if |s| > 3 {
      GroupDigitsChars(s[..|s| - 3]);
      assert AllDigits(s[|s| - 3..]);
    }
  }

  /** The formatted amount holds no other characters, in particular no space and no dollar sign. */
  lemma {:induction false} GroupedCentsChars(c: int)
    ensures forall ch :: ch in GroupedCents(c) ==> AmountChar(ch)
  {
    var a := Magnitude(c);
    GroupDigitsChars(NatToString(a / 100));
    assert AllDigits(PadDigits(a % 100, 2));
  }
}
