/** JavaScript numbers as the bot produces them, and `parseFloat`. Finite numbers are
    exact reals: the IEEE-754 rounding of the runtime is not modelled. */
module JsNumber {
  import opened JsText

  /** A JavaScript number: NaN, a finite value, or an infinity with its sign. */
  datatype Number = NaN | Finite(value: real) | Infinity(negative: bool)

  /** `x * k` for a positive constant `k`. */
  function Times(x: Number, k: real): Number
    requires k > 0.0
  {
    match x
    case Finite(v) => Finite(v * k)
    case _ => x
  }

  function Pow10(n: nat): (p: nat)
    ensures p >= 1
  {
    if n == 0 then 1 else 10 * Pow10(n - 1)
  }

  /** 10 raised to an integer power. */
  function Pow10Real(e: int): real {
    if e >= 0 then Pow10(e) as real else 1.0 / (Pow10(-e) as real)
  }

  predicate IsDigits(s: string) {
    forall i :: 0 <= i < |s| ==> IsDigit(s[i])
  }

  predicate IsDigitOrPoint(c: char) {
    IsDigit(c) || c == '.'
  }

  predicate IsDigitsAndPoints(s: string) {
    forall i :: 0 <= i < |s| ==> IsDigitOrPoint(s[i])
  }

  /** The value of a string of decimal digits; it has as many digits as the string. */
  function NatValue(digits: string): (n: nat)
    requires IsDigits(digits)
    ensures n < Pow10(|digits|)
  {
    if digits == [] then 0
    else 10 * NatValue(digits[..|digits| - 1]) + (digits[|digits| - 1] as int - '0' as int)
  }

  /** The value of `whole.frac`; `whole` is its integer part. */
  function DecimalValue(whole: string, frac: string): (r: real)
    requires IsDigits(whole) && IsDigits(frac)
    ensures NatValue(whole) as real <= r < NatValue(whole) as real + 1.0
  {
    var p := Pow10(|frac|) as real;
    FractionBelowOne(NatValue(frac) as real, p);
    NatValue(whole) as real + NatValue(frac) as real / p
  }

  /** Without a fraction the value is the whole part. */
  lemma DecimalValueWhole(whole: string)
    requires IsDigits(whole)
    ensures DecimalValue(whole, []) == NatValue(whole) as real
  {
    assert NatValue([]) == 0 && Pow10(0) == 1;
  }

  lemma FractionBelowOne(a: real, p: real)
    requires 0.0 <= a < p
    ensures 0.0 <= a / p < 1.0
  {
  }

  /** `parseFloat(s)`: leading white space is skipped, then the longest prefix that
      is a decimal literal is read (an optional sign, then `Infinity` or digits with
      an optional fraction and an optional exponent); NaN when there is none. */
  function ParseFloat(s: string): Number {
    var t := TrimStart(s);
    var signed := |t| > 0 && (t[0] == '+' || t[0] == '-');
    SignedPrefix(signed && t[0] == '-', if signed then t[1..] else t)
  }

  function SignedPrefix(negative: bool, u: string): Number {
    if |u| >= 8 && u[..8] == "Infinity" then Infinity(negative)
    else match DecimalPrefix(u)
      case None => NaN
      case Some(v) => Finite(if negative then -v else v)
  }

  /** The unsigned decimal literal at the start of `u`: digits, then optionally a point
      and digits (at least one digit in all), then optionally an exponent. */
  function DecimalPrefix(u: string): Option<real> {
    var i := PrefixRun(u, IsDigit);
    var hasPoint := i < |u| && u[i] == '.';
    var f := if hasPoint then PrefixRun(u[i + 1..], IsDigit) else 0;
    var frac := if hasPoint then u[i + 1..][..f] else [];
    var end := if hasPoint then i + 1 + f else i;
    var e := ExponentAt(u, end);
    if i + f == 0 then None
    else if e == 0 then Some(DecimalValue(u[..i], frac))
    else Some(DecimalValue(u[..i], frac) * Pow10Real(e))
  }

  /** The exponent part `e[+-]digits` starting at `end`, or 0 when there is none. */
  function ExponentAt(u: string, end: nat): int
    requires end <= |u|
  {
    if end < |u| && (u[end] == 'e' || u[end] == 'E') then
      var v := u[end + 1..];
      var negative := |v| > 0 && v[0] == '-';
      var w := if |v| > 0 && (v[0] == '+' || v[0] == '-') then v[1..] else v;
      var d := PrefixRun(w, IsDigit);
      if d == 0 then 0 else if negative then -(NatValue(w[..d]) as int) else NatValue(w[..d])
    else 0
  }

  /** Reference reading of a string made only of digits and points: the digits before
      the first point are the whole part, those between the first and the second point
      the fraction, and the rest is ignored; NaN when both parts are empty. */
  function PointDecimal(c: string): (n: Number)
    requires IsDigitsAndPoints(c)
    ensures n.NaN? || (n.Finite? && n.value >= 0.0)
    ensures (forall i :: 0 <= i < |c| ==> !IsDigit(c[i])) ==> n.NaN?
  {
    var parts := Split(c, '.');
    PartsAreDigits(c, parts);
    var whole := parts[0];
    var frac := if |parts| > 1 then parts[1] else [];
    if whole == [] && frac == [] then NaN else Finite(DecimalValue(whole, frac))
  }

  lemma PartsAreDigits(c: string, parts: seq<string>)
    requires IsDigitsAndPoints(c) && parts == Split(c, '.')
    ensures forall k :: 0 <= k < |parts| ==> IsDigits(parts[k])
    ensures (forall i :: 0 <= i < |c| ==> !IsDigit(c[i])) ==> forall k :: 0 <= k < |parts| ==> parts[k] == []
  {
    forall k, j | 0 <= k < |parts| && 0 <= j < |parts[k]| ensures IsDigit(parts[k][j]) && parts[k][j] in c {
      PartChar(c, k, j);
    }
    forall k | 0 <= k < |parts| && (forall i :: 0 <= i < |c| ==> !IsDigit(c[i])) ensures parts[k] == [] {
      if parts[k] != [] {
        PartChar(c, k, 0);
        assert false;
      }
    }
  }

  /** A character of a part of `c.split('.')` is a character of `c` other than the
      point, so a digit. */
  lemma PartChar(c: string, k: int, j: int)
    requires IsDigitsAndPoints(c)
    requires 0 <= k < |Split(c, '.')| && 0 <= j < |Split(c, '.')[k]|
    ensures Split(c, '.')[k][j] in c && IsDigit(Split(c, '.')[k][j])
  {
    SplitFrom(c, '.');
    var x := Split(c, '.')[k][j];
    assert x in c;
    var i :| 0 <= i < |c| && c[i] == x;
    assert x != '.';
  }

  /** A character that cannot continue or start a decimal literal for `parseFloat`. */
  predicate StopsNumber(ch: char) {
    !IsWhitespace(ch) && !IsDigit(ch) && ch != '.' && ch != '+' && ch != '-'
    && ch != 'e' && ch != 'E' && ch != 'I'
  }

  /** `DecimalPrefix` reads exactly the digits `whole` when what follows them cannot
      continue the literal. */
  lemma DecimalPrefixWhole(u: string, whole: string, tail: string)
    requires IsDigits(whole) && u == whole + tail
    requires tail == [] || (!IsDigit(tail[0]) && tail[0] != 'e' && tail[0] != 'E' && tail[0] != '.')
    ensures DecimalPrefix(u) == if whole == [] then None else Some(DecimalValue(whole, []))
  {
    var i := |whole|;
    PrefixRunIs(u, IsDigit, i);
    assert u[..i] == whole;
    assert i < |u| ==> u[i] == tail[0];
    ExponentAbsent(u, i);
  }

  /** `DecimalPrefix` reads exactly `whole`, the point and `frac` when what follows
      them cannot continue the literal. */
  lemma DecimalPrefixPoint(u: string, whole: string, frac: string, tail: string)
    requires IsDigits(whole) && IsDigits(frac)
    requires u == whole + "." + frac + tail
    requires tail == [] || (!IsDigit(tail[0]) && tail[0] != 'e' && tail[0] != 'E')
    ensures DecimalPrefix(u) == if whole == [] && frac == [] then None else Some(DecimalValue(whole, frac))
  {
    var i := |whole|;
    PrefixRunIs(u, IsDigit, i);
    assert u[..i] == whole && u[i] == '.';
    assert u[i + 1..] == frac + tail;
    PrefixRunIs(frac + tail, IsDigit, |frac|);
    assert (frac + tail)[..|frac|] == frac;
    var end := i + 1 + |frac|;
    assert u[end..] == tail;
    ExponentAbsent(u, end);
  }

  lemma ExponentAbsent(u: string, end: nat)
    requires end <= |u|
    requires end == |u| || (u[end] != 'e' && u[end] != 'E')
    ensures ExponentAt(u, end) == 0
  {
  }

  /** Without leading white space, sign or `Infinity`, `parseFloat` is the unsigned
      decimal prefix. */
  lemma ParseFloatUnsigned(s: string)
    requires s == [] || (!IsWhitespace(s[0]) && s[0] != '+' && s[0] != '-' && s[0] != 'I')
    ensures ParseFloat(s) == match DecimalPrefix(s) case None => NaN case Some(v) => Finite(v)
  {
    PrefixRunIs(s, IsWhitespace, 0);
    assert TrimStart(s) == s;
    assert |s| >= 8 ==> s[..8][0] == s[0];
  }

  /** On a string of digits and points, followed by nothing or by a character that
      stops a literal, `parseFloat` agrees with the reference reading. */
  lemma ParseFloatOfPointDecimal(c: string, rest: string)
    requires IsDigitsAndPoints(c)
    requires rest == [] || StopsNumber(rest[0])
    ensures ParseFloat(c + rest) == PointDecimal(c)
  {
    if '.' in c {
      var k := FirstIndex(c, '.');
      var whole, c2 := c[..k], c[k + 1..];
      assert IsDigits(whole) by {
        forall j | 0 <= j < k ensures IsDigit(whole[j]) {
          assert whole[j] in c[..k];
        }
      }
      assert c == whole + "." + c2;
      WithPoint(whole, c2, rest);
    } else {
      WithoutPoint(c, rest);
    }
  }

  lemma WithoutPoint(c: string, rest: string)
    requires IsDigitsAndPoints(c) && '.' !in c
    requires rest == [] || StopsNumber(rest[0])
    ensures ParseFloat(c + rest) == PointDecimal(c)
  {
    var s := c + rest;
    assert |s| > 0 ==> s[0] == if c != [] then c[0] else rest[0];
    ParseFloatUnsigned(s);
    PointDecimalWithoutPoint(c);
    DecimalPrefixWhole(s, c, rest);
  }

  lemma WithPoint(whole: string, c2: string, rest: string)
    requires IsDigits(whole) && IsDigitsAndPoints(c2)
    requires rest == [] || StopsNumber(rest[0])
    ensures IsDigitsAndPoints(whole + "." + c2)
    ensures ParseFloat(whole + "." + c2 + rest) == PointDecimal(whole + "." + c2)
  {
    var s := whole + "." + c2 + rest;
    assert s[0] == if whole != [] then whole[0] else '.';
    ParseFloatUnsigned(s);
    PointDecimalOf(whole, c2);
    PrefixOfPoint(whole, c2, rest);
  }

  /** The first point of `whole.c2` is the one after `whole`. */
  lemma PointAfterWhole(whole: string, c2: string)
    requires IsDigits(whole) && IsDigitsAndPoints(c2)
    ensures var c := whole + "." + c2;
            IsDigitsAndPoints(c) && '.' in c && FirstIndex(c, '.') == |whole|
            && c[..|whole|] == whole && c[|whole| + 1..] == c2
  {
    var c := whole + "." + c2;
    assert c[..|whole|] == whole && c[|whole| + 1..] == c2;
    assert '.' !in whole;
    assert c[|whole|] == '.';
  }

  /** The reference reading of `whole.c2`: the whole part, and the digits of `c2`
      up to its own first point. */
  lemma PointDecimalOf(whole: string, c2: string)
    requires IsDigits(whole) && IsDigitsAndPoints(c2)
    ensures IsDigitsAndPoints(whole + "." + c2) && IsDigits(Split(c2, '.')[0])
    ensures PointDecimal(whole + "." + c2)
         == var frac := Split(c2, '.')[0];
            if whole == [] && frac == [] then NaN else Finite(DecimalValue(whole, frac))
  {
    PointAfterWhole(whole, c2);
    PointDecimalWithPoint(whole + "." + c2, |whole|);
  }

  /** `DecimalPrefix` of `whole.c2` and what follows reads the same two parts. */
  lemma PrefixOfPoint(whole: string, c2: string, rest: string)
    requires IsDigits(whole) && IsDigitsAndPoints(c2)
    requires rest == [] || StopsNumber(rest[0])
    ensures IsDigits(Split(c2, '.')[0])
    ensures DecimalPrefix(whole + "." + c2 + rest)
         == var frac := Split(c2, '.')[0];
            if whole == [] && frac == [] then None else Some(DecimalValue(whole, frac))
  {
    PartsAreDigits(c2, Split(c2, '.'));
    if '.' in c2 {
      TwoPoints(whole, c2, rest);
      SplitAtFirst(c2, '.', FirstIndex(c2, '.'));
    } else {
      OnePoint(whole, c2, rest);
      SplitWithoutSeparator(c2, '.');
    }
  }

  lemma PointDecimalWithoutPoint(c: string)
    requires IsDigitsAndPoints(c) && '.' !in c
    ensures IsDigits(c)
    ensures PointDecimal(c) == if c == [] then NaN else Finite(DecimalValue(c, []))
  {
    SplitWithoutSeparator(c, '.');
    PartsAreDigits(c, Split(c, '.'));
  }

  lemma PointDecimalWithPoint(c: string, k: nat)
    requires IsDigitsAndPoints(c) && '.' in c && k == FirstIndex(c, '.')
    ensures IsDigits(c[..k]) && IsDigitsAndPoints(c[k + 1..])
    ensures IsDigits(Split(c[k + 1..], '.')[0])
    ensures PointDecimal(c)
         == var frac := Split(c[k + 1..], '.')[0];
            if c[..k] == [] && frac == [] then NaN else Finite(DecimalValue(c[..k], frac))
  {
    var parts := Split(c, '.');
    SplitAtFirst(c, '.', k);
    PartsAreDigits(c, parts);
    assert parts[1] == Split(c[k + 1..], '.')[0];
  }

  lemma OnePoint(whole: string, c2: string, rest: string)
    requires IsDigits(whole) && IsDigits(c2)
    requires rest == [] || StopsNumber(rest[0])
    ensures DecimalPrefix(whole + "." + c2 + rest) == if whole == [] && c2 == [] then None else Some(DecimalValue(whole, c2))
  {
    DecimalPrefixPoint(whole + "." + c2 + rest, whole, c2, rest);
  }

  lemma TwoPoints(whole: string, c2: string, rest: string)
    requires IsDigits(whole) && IsDigitsAndPoints(c2) && '.' in c2
    requires rest == [] || StopsNumber(rest[0])
    ensures IsDigits(c2[..FirstIndex(c2, '.')])
    ensures DecimalPrefix(whole + "." + c2 + rest)
         == if whole == [] && c2[..FirstIndex(c2, '.')] == [] then None else Some(DecimalValue(whole, c2[..FirstIndex(c2, '.')]))
  {
    var k2 := FirstIndex(c2, '.');
    var frac := c2[..k2];
    assert IsDigits(frac) by {
      forall j | 0 <= j < |frac| ensures IsDigit(frac[j]) {
        assert frac[j] == c2[j] && IsDigitOrPoint(c2[j]);
        assert frac[j] in c2[..k2];
      }
    }
    assert whole + "." + c2 + rest == whole + "." + frac + (c2[k2..] + rest);
    DecimalPrefixPoint(whole + "." + c2 + rest, whole, frac, c2[k2..] + rest);
  }
}
