/** `parseAmount`: the amount token of a transaction message (`15k`, `1,500k`,
    `7triệu`, `200`) to a number. */
module Amount {
  import opened JsText
  import opened JsNumber

  predicate IsNotComma(c: char) {
    c != ','
  }

  /** The characters `[\d,.]` an amount token is made of. */
  predicate IsAmountChar(c: char) {
    IsDigit(c) || c == ',' || c == '.'
  }

  predicate IsAmountChars(s: string) {
    forall i :: 0 <= i < |s| ==> IsAmountChar(s[i])
  }

  /** The magnitude suffixes the message pattern accepts after the digits. */
  const Suffixes: seq<string> := ["k", "K", "triệu", "TRIỆU"]

  /** One of those suffixes, or none, spelled out case by case: the list serves the
      pattern, which picks a suffix by its position in it, and this form serves the
      lemmas, which split on the suffix. `SuffixListed` shows the two agree. */
  predicate IsSuffixOrNone(suffix: string) {
    suffix == "" || suffix == "k" || suffix == "K" || suffix == "triệu" || suffix == "TRIỆU"
  }

  lemma SuffixListed(suffix: string)
    ensures IsSuffixOrNone(suffix) <==> suffix == "" || exists k :: 0 <= k < |Suffixes| && Suffixes[k] == suffix
  {
    if IsSuffixOrNone(suffix) && suffix != "" {
      var k := if suffix == "k" then 0 else if suffix == "K" then 1 else if suffix == "triệu" then 2 else 3;
      assert Suffixes[k] == suffix;
    }
  }

  /** The factor a suffix stands for: a thousand for `k`, a million for `triệu`. */
  function Multiplier(suffix: string): (m: real)
    ensures m > 0.0
  {
    if suffix == "k" || suffix == "K" then 1000.0
    else if suffix == "triệu" || suffix == "TRIỆU" then 1000000.0
    else 1.0
  }

  /** Which of its three paths `parseAmount` takes: the lower-case token ends in
      `k`; otherwise it contains `triệu`; otherwise neither. */
  datatype Branch = Thousands | Millions | Plain

  function BranchOf(amount: string): Branch {
    var lower := ToLower(amount);
    if EndsWith(lower, 'k') then Thousands
    else if Contains(lower, "triệu") then Millions
    else Plain
  }

  /** The string `parseAmount` hands to `parseFloat`: on the `k` path the token
      loses its first lower-case `k` and its commas; on the `triệu` path it loses
      the first `triệu` and its commas and is trimmed; otherwise only its digits
      and points are kept. */
  function Cleaned(amount: string): string {
    match BranchOf(amount)
    case Thousands => Filter(ReplaceFirst(amount, "k"), IsNotComma)
    case Millions => Trim(Filter(ReplaceFirst(amount, "triệu"), IsNotComma))
    case Plain => Filter(amount, IsDigitOrPoint)
  }

  /** The factor the parsed number is multiplied by on each path; the plain path
      returns the parsed number as it is. */
  function Scale(amount: string): (k: real)
    ensures k > 0.0
  {
    match BranchOf(amount)
    case Thousands => 1000.0
    case Millions => 1000000.0
    case Plain => 1.0
  }

  /** `parseAmount(amount)`: the cleaned token read by `parseFloat`, times a thousand
      on the `k` path and a million on the `triệu` path. On the plain path the
      result is never negative or infinite. */
  function ParseAmount(amount: string): (n: Number)
    ensures BranchOf(amount) == Plain ==> n.NaN? || (n.Finite? && n.value >= 0.0)
  {
    var x := ParseFloat(Cleaned(amount));
    var k := Scale(amount);
    PlainPath(amount);
    assert BranchOf(amount) == Plain ==> k == 1.0 && (x.NaN? || (x.Finite? && x.value >= 0.0));
    Times(x, k)
  }

  /** On the plain path the cleaned token is made of digits and points only, which
      `parseFloat` reads as the reference reading does. */
  lemma PlainPath(amount: string)
    ensures BranchOf(amount) == Plain
            ==> Scale(amount) == 1.0 && ParseFloat(Cleaned(amount)) == PointDecimal(Filter(amount, IsDigitOrPoint))
  {
    var kept := Filter(amount, IsDigitOrPoint);
    ParseFloatOfPointDecimal(kept, []);
    assert kept + [] == kept;
  }

  /** What `Cleaned` hands on, path by path. */
  lemma CleanedOn(amount: string)
    ensures BranchOf(amount) == Thousands ==> Cleaned(amount) == Filter(ReplaceFirst(amount, "k"), IsNotComma)
    ensures BranchOf(amount) == Millions ==> Cleaned(amount) == Trim(Filter(ReplaceFirst(amount, "triệu"), IsNotComma))
    ensures BranchOf(amount) == Plain ==> Cleaned(amount) == Filter(amount, IsDigitOrPoint)
  {
  }

  /** `d.replace(/,/g, '')` on an amount token: what is left are digits and points,
      the same characters the plain path keeps. */
  function WithoutCommas(d: string): (c: string)
    requires IsAmountChars(d)
    ensures IsDigitsAndPoints(c) && NoWhitespace(c)
    ensures c == Filter(d, IsDigitOrPoint)
    ensures (forall i :: 0 <= i < |d| ==> !IsDigit(d[i])) ==> forall i :: 0 <= i < |c| ==> !IsDigit(c[i])
  {
    FilterAgree(d, IsNotComma, IsDigitOrPoint);
    FilterFrom(d, IsNotComma);
    Filter(d, IsNotComma)
  }

  /** No lower-case `k` and no `t` occur in an amount token. */
  lemma NoLetters(d: string, pat: string)
    requires IsAmountChars(d)
    requires pat == "k" || pat == "triệu"
    ensures forall j :: 0 <= j ==> !OccursAt(d, pat, j)
  {
    forall j | 0 <= j ensures !OccursAt(d, pat, j) {
      if j + |pat| <= |d| {
        assert d[j..j + |pat|][0] == d[j] != pat[0];
      }
    }
  }

  /** None of the other suffixes holds the first letter of `k` or of `triệu`. */
  lemma SuffixLacks(suffix: string, pat: string)
    requires IsSuffixOrNone(suffix) && (pat == "k" || pat == "triệu") && suffix != pat
    ensures forall i :: 0 <= i < |suffix| ==> suffix[i] != pat[0]
  {
  }

  /** `pat` does not start inside the amount token. */
  lemma NoMatchBefore(d: string, rest: string, pat: string)
    requires IsAmountChars(d)
    requires pat == "k" || pat == "triệu"
    ensures forall j :: 0 <= j < |d| ==> !OccursAt(d + rest, pat, j)
  {
    var s := d + rest;
    forall j | 0 <= j < |d| ensures !OccursAt(s, pat, j) {
      if j + |pat| <= |s| {
        assert s[j..j + |pat|][0] == s[j] == d[j];
      }
    }
  }

  /** `pat` does not start inside a suffix free of its first letter. */
  lemma NoMatchAfter(d: string, suffix: string, pat: string)
    requires pat != []
    requires forall i :: 0 <= i < |suffix| ==> suffix[i] != pat[0]
    ensures forall j :: |d| <= j ==> !OccursAt(d + suffix, pat, j)
  {
    var s := d + suffix;
    forall j | |d| <= j ensures !OccursAt(s, pat, j) {
      if j + |pat| <= |s| {
        assert s[j..j + |pat|][0] == s[j] == suffix[j - |d|];
      }
    }
  }

  /** In an amount token followed by a suffix, `pat` first occurs where the suffix
      starts when the suffix is `pat`, and nowhere otherwise. */
  lemma IndexInToken(d: string, suffix: string, pat: string)
    requires IsAmountChars(d) && IsSuffixOrNone(suffix)
    requires pat == "k" || pat == "triệu"
    ensures IndexOf(d + suffix, pat) == if suffix == pat then Some(|d|) else None
  {
    NoMatchBefore(d, suffix, pat);
    if suffix == pat {
      assert OccursAt(d + suffix, pat, |d|);
    } else {
      SuffixLacks(suffix, pat);
      NoMatchAfter(d, suffix, pat);
    }
  }

  /** Removing the first `pat` from an amount token and a suffix removes the suffix
      when it is `pat`, and nothing otherwise. */
  lemma ReplaceInToken(d: string, suffix: string, pat: string)
    requires IsAmountChars(d) && IsSuffixOrNone(suffix)
    requires pat == "k" || pat == "triệu"
    ensures ReplaceFirst(d + suffix, pat) == if suffix == pat then d else d + suffix
  {
    var s := d + suffix;
    IndexInToken(d, suffix, pat);
    if suffix == pat {
      assert s[..|d|] == d && s[|d| + |pat|..] == [];
    }
  }

  /** Lower-casing leaves an amount token and a lower-case suffix as they are, and
      maps `K` to `k` and `TRIỆU` to `triệu`. */
  lemma LowerToken(d: string, suffix: string)
    requires IsAmountChars(d)
    requires IsSuffixOrNone(suffix)
    ensures ToLower(d + suffix) == d + (if suffix == "K" then "k" else if suffix == "TRIỆU" then "triệu" else suffix)
  {
    var lowered := if suffix == "K" then "k" else if suffix == "TRIỆU" then "triệu" else suffix;
    assert ToLower(suffix) == lowered;
    assert ToLower(d) == d;
    ToLowerAppend(d, suffix);
  }

  /** An amount token alone takes the plain path. */
  lemma PlainBranch(d: string)
    requires IsAmountChars(d)
    ensures BranchOf(d) == Plain
  {
    assert ToLower(d) == d;
    NoLetters(d, "triệu");
  }

  /** An amount token with a `k` or `K` suffix takes the `k` path. */
  lemma ThousandsBranch(d: string, suffix: string)
    requires IsAmountChars(d) && (suffix == "k" || suffix == "K")
    ensures BranchOf(d + suffix) == Thousands
  {
    LowerToken(d, suffix);
  }

  /** An amount token with a `triệu` or `TRIỆU` suffix takes the `triệu` path: its
      lower-case form ends in `u`, not `k`. */
  lemma MillionsBranch(d: string, suffix: string)
    requires IsAmountChars(d) && (suffix == "triệu" || suffix == "TRIỆU")
    ensures BranchOf(d + suffix) == Millions
  {
    LowerToken(d, suffix);
    var lower := d + "triệu";
    assert lower[|d|..] == "triệu";
    assert OccursAt(lower, "triệu", |d|);
    assert !EndsWith(lower, 'k');
  }

  /** An amount token takes the path its suffix names. */
  lemma TokenBranch(d: string, suffix: string)
    requires IsAmountChars(d)
    requires IsSuffixOrNone(suffix)
    ensures BranchOf(d + suffix)
         == if suffix == "" then Plain else if suffix == "k" || suffix == "K" then Thousands else Millions
  {
    if suffix == "" {
      assert d + suffix == d;
      PlainBranch(d);
    } else if suffix == "k" || suffix == "K" {
      ThousandsBranch(d, suffix);
    } else {
      MillionsBranch(d, suffix);
    }
  }

  /** What the `k` path hands to `parseFloat` for an amount token with a `k` or `K`
      suffix: the token, commas removed, with a `K` left in place. */
  lemma KPath(d: string, suffix: string)
    requires IsAmountChars(d) && (suffix == "k" || suffix == "K")
    ensures Cleaned(d + suffix) == Filter(d + (if suffix == "K" then suffix else ""), IsNotComma)
  {
    KReplaced(d, suffix);
    ThousandsBranch(d, suffix);
    CleanedOn(d + suffix);
  }

  lemma KReplaced(d: string, suffix: string)
    requires IsAmountChars(d) && (suffix == "k" || suffix == "K")
    ensures ReplaceFirst(d + suffix, "k") == d + (if suffix == "K" then suffix else "")
  {
    ReplaceInToken(d, suffix, "k");
    assert d + "" == d;
  }

  /** What the `triệu` path hands to `parseFloat` for an amount token with a
      `triệu` or `TRIỆU` suffix: the token, commas removed, with a `TRIỆU` left in
      place; there is nothing for `trim` to remove. */
  lemma TrieuPath(d: string, suffix: string)
    requires IsAmountChars(d) && (suffix == "triệu" || suffix == "TRIỆU")
    ensures Cleaned(d + suffix) == Filter(d + (if suffix == "TRIỆU" then suffix else ""), IsNotComma)
  {
    var upper := if suffix == "TRIỆU" then suffix else "";
    TrieuReplaced(d, suffix);
    MillionsBranch(d, suffix);
    KeptTrimmed(d, upper);
    CleanedOn(d + suffix);
  }

  lemma TrieuReplaced(d: string, suffix: string)
    requires IsAmountChars(d) && (suffix == "triệu" || suffix == "TRIỆU")
    ensures ReplaceFirst(d + suffix, "triệu") == d + (if suffix == "TRIỆU" then suffix else "")
  {
    ReplaceInToken(d, suffix, "triệu");
    assert d + "" == d;
  }

  /** `trim` leaves what is left of an amount token and an upper-case suffix after
      the commas go as it is. */
  lemma KeptTrimmed(d: string, suffix: string)
    requires IsAmountChars(d) && (suffix == "" || suffix == "TRIỆU")
    ensures Trim(Filter(d + suffix, IsNotComma)) == Filter(d + suffix, IsNotComma)
  {
    KeptHasNoWhitespace(d, suffix);
    TrimUnchanged(Filter(d + suffix, IsNotComma));
  }

  /** What is left of an amount token and an upper-case suffix after the commas go
      has no whitespace at either end. */
  lemma KeptHasNoWhitespace(d: string, suffix: string)
    requires IsAmountChars(d) && (suffix == "" || suffix == "TRIỆU")
    ensures Unpadded(Filter(d + suffix, IsNotComma))
  {
    FilterAppend(d, suffix, IsNotComma);
    var c := WithoutCommas(d);
    if suffix != "" {
      UpperSuffix(suffix);
    }
    assert Filter(suffix, IsNotComma) == suffix;
    var kept := c + suffix;
    if kept != [] {
      assert kept[0] == if c == [] then suffix[0] else c[0];
      assert kept[|kept| - 1] == if suffix == [] then c[|c| - 1] else suffix[|suffix| - 1];
    }
  }

  /** An upper-case suffix has no comma to lose, and its first character ends a
      number for `parseFloat`; neither end is white space. */
  lemma UpperSuffix(suffix: string)
    requires suffix == "K" || suffix == "TRIỆU"
    ensures Filter(suffix, IsNotComma) == suffix
    ensures StopsNumber(suffix[0]) && !IsWhitespace(suffix[|suffix| - 1])
  {
    SuffixKept(suffix);
    SuffixEnds(suffix);
  }

  lemma SuffixKept(suffix: string)
    requires suffix == "K" || suffix == "TRIỆU"
    ensures Filter(suffix, IsNotComma) == suffix
  {
    assert forall i :: 0 <= i < |suffix| ==> IsNotComma(suffix[i]);
  }

  lemma SuffixEnds(suffix: string)
    requires suffix == "K" || suffix == "TRIỆU"
    ensures StopsNumber(suffix[0]) && !IsWhitespace(suffix[|suffix| - 1])
  {
  }

  /** `parseFloat` reads the digits of an amount token, commas removed, and stops at
      an upper-case suffix. */
  lemma ReadBeforeSuffix(d: string, suffix: string)
    requires IsAmountChars(d) && (suffix == "" || suffix == "K" || suffix == "TRIỆU")
    ensures ParseFloat(Filter(d + suffix, IsNotComma)) == PointDecimal(WithoutCommas(d))
  {
    var c := WithoutCommas(d);
    FilterAppend(d, suffix, IsNotComma);
    if suffix == "" {
      assert c + [] == c;
      ParseFloatOfPointDecimal(c, []);
    } else {
      UpperSuffix(suffix);
      ParseFloatOfPointDecimal(c, suffix);
    }
  }

  /** An amount token `[\d,.]*` followed by one of the suffixes the message pattern
      allows (or none) is read, commas removed, as its digits before the first point
      plus the fraction up to the next point, times the suffix's factor; the `k` check
      comes first, a trailing `K` is skipped by `parseFloat`, and so is `TRIỆU`. */
  lemma {:induction false} ParseAmountOfToken(d: string, suffix: string)
    requires IsAmountChars(d)
    requires IsSuffixOrNone(suffix)
    ensures ParseAmount(d + suffix) == Times(PointDecimal(WithoutCommas(d)), Multiplier(suffix))
  {
    TokenBranch(d, suffix);
    var s := d + suffix;
    if suffix == "" {
      assert s == d;
      PlainPath(s);
    } else {
      var upper := if suffix == "K" || suffix == "TRIỆU" then suffix else "";
      if suffix == "k" || suffix == "K" {
        KPath(d, suffix);
      } else {
        TrieuPath(d, suffix);
      }
      ReadBeforeSuffix(d, upper);
    }
  }

  /** An amount token without a suffix is read as its digits and points. */
  lemma PlainToken(d: string)
    requires IsAmountChars(d)
    ensures ParseAmount(d) == PointDecimal(WithoutCommas(d))
  {
    assert d + "" == d;
    TokenBranch(d, "");
    PlainPath(d);
    var p := PointDecimal(WithoutCommas(d));
    assert Times(p, 1.0) == p;
  }

  /** The value of an amount token is never negative or infinite, and it is NaN when
      the token has no digit (`,`, `.`, `.k`), whatever its suffix. */
  lemma TokenRange(d: string, suffix: string)
    requires IsAmountChars(d)
    requires IsSuffixOrNone(suffix)
    ensures var n := ParseAmount(d + suffix); n.NaN? || (n.Finite? && n.value >= 0.0)
    ensures (forall i :: 0 <= i < |d| ==> !IsDigit(d[i])) ==> ParseAmount(d + suffix).NaN?
  {
    ParseAmountOfToken(d, suffix);
    var p := PointDecimal(WithoutCommas(d));
    var m := Multiplier(suffix);
    assert m > 0.0;
    assert ParseAmount(d + suffix) == Times(p, m);
    assert p.NaN? || (p.Finite? && p.value >= 0.0);
  }

  /** A token of digits alone has no comma to lose and is read as its value. */
  lemma DigitsValue(d: string)
    requires IsDigits(d) && d != []
    ensures IsAmountChars(d)
    ensures PointDecimal(WithoutCommas(d)) == Finite(NatValue(d) as real)
  {
    assert IsAmountChars(d);
    assert WithoutCommas(d) == d;
    PointDecimalWithoutPoint(d);
    DecimalValueWhole(d);
  }

  lemma Scaled(x: Number, v: real, k: real)
    requires x == Finite(v) && k > 0.0
    ensures Times(x, k) == Finite(v * k)
  {
  }

  lemma FifteenValue(d: string)
    requires d == "15"
    ensures IsAmountChars(d) && PointDecimal(WithoutCommas(d)) == Finite(15.0)
  {
    assert d[..1] == "1";
    assert NatValue(d) == 15;
    DigitsValue(d);
  }

  /** `15k` is fifteen thousand. */
  lemma ExampleThousands(s: string)
    requires s == "15k"
    ensures ParseAmount(s) == Finite(15000.0)
  {
    var d := "15";
    assert s == d + "k";
    FifteenValue(d);
    Scaled(PointDecimal(WithoutCommas(d)), 15.0, 1000.0);
    ParseAmountOfToken(d, "k");
  }

  lemma SevenValue(d: string)
    requires d == "7"
    ensures IsAmountChars(d) && PointDecimal(WithoutCommas(d)) == Finite(7.0)
  {
    assert NatValue(d) == 7;
    DigitsValue(d);
  }

  /** `7triệu` and `7TRIỆU` are seven million. */
  lemma ExampleMillions(s: string)
    requires s == "7triệu" || s == "7TRIỆU"
    ensures ParseAmount(s) == Finite(7000000.0)
  {
    var d := "7";
    var suffix := if s == "7triệu" then "triệu" else "TRIỆU";
    assert s == d + suffix;
    SevenValue(d);
    ParseAmountOfToken(d, suffix);
    assert ParseAmount(s) == Times(Finite(7.0), 1000000.0);
  }

  lemma CommasRemoved(d: string)
    requires d == "1,500"
    ensures IsAmountChars(d) && WithoutCommas(d) == "1500"
  {
    var a, b := "1", "500";
    assert d == a + "," + b;
    CommaDropped(a, b);
    assert a + b == "1500";
  }

  /** A comma between two runs of digits is dropped. */
  lemma CommaDropped(a: string, b: string)
    requires IsDigits(a) && IsDigits(b)
    ensures IsAmountChars(a + "," + b) && WithoutCommas(a + "," + b) == a + b
  {
    CommaJoined(a, b);
    CommaFiltered(a, b);
  }

  lemma CommaJoined(a: string, b: string)
    requires IsDigits(a) && IsDigits(b)
    ensures IsAmountChars(a + "," + b)
  {
    var d := a + "," + b;
    forall i | 0 <= i < |d| ensures IsAmountChar(d[i]) {
      if i > |a| {
        assert d[i] == b[i - |a| - 1];
      }
    }
  }

  lemma CommaFiltered(a: string, b: string)
    requires IsDigits(a) && IsDigits(b)
    ensures Filter(a + "," + b, IsNotComma) == a + b
  {
    DigitsKept(a);
    DigitsKept(b);
    FilterNone(",", IsNotComma);
    FilterAppend(a, ",", IsNotComma);
    assert Filter(a + ",", IsNotComma) == a;
    FilterAppend(a + ",", b, IsNotComma);
  }

  lemma DigitsKept(s: string)
    requires IsDigits(s)
    ensures Filter(s, IsNotComma) == s
  {
    assert forall i :: 0 <= i < |s| ==> IsNotComma(s[i]);
  }

  lemma Value1500()
    ensures IsDigits("1500") && NatValue("1500") == 1500
  {
    var c := "1500";
    assert c[..3] == "150" && c[..3][..2] == "15" && c[..3][..2][..1] == "1";
    assert NatValue("1") == 1 && NatValue("15") == 15 && NatValue("150") == 150;
  }

  lemma CommasValue(d: string)
    requires d == "1,500"
    ensures IsAmountChars(d)
    ensures Times(PointDecimal(WithoutCommas(d)), 1000.0) == Finite(1500000.0)
  {
    CommasRemoved(d);
    Value1500();
    DigitsValue("1500");
    Scaled(PointDecimal("1500"), 1500.0, 1000.0);
  }

  /** Commas are dropped, so `1,500k` is one and a half million. */
  lemma ExampleCommas(s: string)
    requires s == "1,500k"
    ensures ParseAmount(s) == Finite(1500000.0)
  {
    var d := "1,500";
    assert s == d + "k";
    CommasValue(d);
    ParseAmountOfToken(d, "k");
  }

  lemma FirstPointOf200(d: string)
    requires d == "200.000"
    ensures IsAmountChars(d) && WithoutCommas(d) == d
    ensures '.' in d && FirstIndex(d, '.') == 3
  {
    assert IsAmountChars(d);
    assert d[3] == '.';
    var k := FirstIndex(d, '.');
    assert k == 0 || k == 1 || k == 2 || k == 3;
  }

  lemma PointSplit(d: string)
    requires d == "200.000"
    ensures IsAmountChars(d) && IsDigits("200") && IsDigits("000")
    ensures PointDecimal(WithoutCommas(d)) == Finite(DecimalValue("200", "000"))
  {
    FirstPointOf200(d);
    PointDecimalWithPoint(d, 3);
    assert d[..3] == "200" && d[4..] == "000";
    SplitWithoutSeparator("000", '.');
  }

  lemma Value200()
    ensures DecimalValue("200", "000") == 200.0
  {
    var whole, frac := "200", "000";
    assert whole[..2] == "20" && whole[..2][..1] == "2";
    assert NatValue("2") == 2 && NatValue("20") == 20 && NatValue(whole) == 200;
    assert frac[..2] == "00" && frac[..2][..1] == "0";
    assert NatValue("0") == 0 && NatValue("00") == 0 && NatValue(frac) == 0;
  }

  /** A point is a decimal point, never a thousands separator: `200.000` is 200. */
  lemma ExampleThousandsSeparatorPoint(s: string)
    requires s == "200.000"
    ensures ParseAmount(s) == Finite(200.0)
  {
    PointSplit(s);
    Value200();
    PlainToken(s);
  }

  /** A token without digits is not a number. */
  lemma ExampleNoDigits(s: string)
    requires s == "," || s == "." || s == ".k"
    ensures ParseAmount(s).NaN?
  {
    var d := if s == "," then "," else ".";
    var suffix := if s == ".k" then "k" else "";
    assert s == d + suffix;
    assert IsAmountChars(d) && !IsDigit(d[0]);
    TokenRange(d, suffix);
  }

  /** When a tab or a no-break space follows the digits, the token `split(' ')` hands
      over runs on into the next word, and what `parseFloat` then reads need not be a
      plain decimal: `,<tab>-3k` loses its `k` and its comma, `parseFloat` skips the
      tab and reads `-3`, and the amount is minus three thousand. */
  lemma ExampleNegative(s: string)
    requires s == ",\t-3k"
    ensures ParseAmount(s) == Finite(-3000.0)
  {
    var t := "\t-3";
    ThousandsCleaned(s, "," + t);
    LeadingCommaDropped(t);
    SignedThree(t);
  }

  /** `,<tab>Infinityk` is an infinite amount in the same way. */
  lemma ExampleInfinite(s: string)
    requires s == ",\tInfinityk"
    ensures ParseAmount(s) == Infinity(false)
  {
    var t := "\tInfinity";
    InfinityHead(t);
    assert s == "," + t + "k";
    ThousandsCleaned(s, "," + t);
    LeadingCommaDropped(t);
    InfinityRead(t);
  }

  lemma InfinityHead(t: string)
    requires t == "\tInfinity"
    ensures ',' !in t && 'k' !in "," + t && 'K' !in "," + t && '\U{212A}' !in "," + t
  {
    assert forall i :: 0 <= i < |"," + t| ==> ("," + t)[i] in {',', '\t', 'I', 'n', 'f', 'i', 't', 'y'};
  }

  lemma InfinityRead(t: string)
    requires t == "\tInfinity"
    ensures ParseFloat(t) == Infinity(false)
  {
    PrefixRunIs(t, IsWhitespace, 1);
    assert TrimStart(t) == "Infinity";
  }

  lemma LeadingCommaDropped(t: string)
    requires ',' !in t
    ensures Filter("," + t, IsNotComma) == t
  {
    FilterAppend(",", t, IsNotComma);
    assert Filter(",", IsNotComma) == [];
  }

  /** A token `<head>k` whose head has no `k` takes the thousands path, and the
      head without its commas goes to `parseFloat`. */
  lemma ThousandsCleaned(s: string, head: string)
    requires s == head + "k" && 'k' !in head && 'K' !in head && '\U{212A}' !in head
    ensures BranchOf(s) == Thousands && Cleaned(s) == Filter(head, IsNotComma)
  {
    assert ToLower(s)[|s| - 1] == 'k';
    assert OccursAt(s, "k", |head|);
    match IndexOf(s, "k")
    case None =>
    case Some(i) =>
      assert s[i..i + 1] == "k" && s[i] == 'k';
      assert ReplaceFirst(s, "k") == head;
  }

  lemma SignedThree(t: string)
    requires t == "\t-3"
    ensures ParseFloat(t) == Finite(-3.0)
  {
    PrefixRunIs(t, IsWhitespace, 1);
    assert TrimStart(t) == "-3";
    ThreeRead("3");
  }

  lemma ThreeRead(u: string)
    requires u == "3"
    ensures DecimalPrefix(u) == Some(3.0)
  {
    DecimalPrefixWhole(u, u, "");
    DecimalValueWhole(u);
    assert NatValue(u) == 3;
  }

  /** When the amount is not followed by a plain space but by some other white space
      (a tab, a no-break space) and a word, that word stays in the token: a `k` suffix
      then no longer ends it, only the digits and points are kept, and the factor of
      a thousand is lost. */
  lemma LostSuffix(d: string, suffix: string, rest: string)
    requires IsAmountChars(d)
    requires suffix == "" || suffix == "k" || suffix == "K"
    requires rest != [] && ToLowerChar(rest[|rest| - 1]) != 'k'
    requires forall i :: 0 <= i < |rest| ==> rest[i] != 't' && rest[i] != 'T' && !IsDigitOrPoint(rest[i])
    ensures ParseAmount(d + suffix + rest) == PointDecimal(WithoutCommas(d))
  {
    var s := d + suffix + rest;
    var lower := ToLower(s);
    assert lower[|s| - 1] == ToLowerChar(rest[|rest| - 1]);
    assert !EndsWith(lower, 'k');
    forall j | 0 <= j < |s| ensures lower[j] != 't' {
      if j < |d| {
        assert IsAmountChar(s[j]);
      } else if j < |d| + |suffix| {
        assert s[j] == suffix[j - |d|];
      } else {
        assert s[j] == rest[j - |d| - |suffix|];
      }
    }
    forall j | 0 <= j ensures !OccursAt(lower, "triệu", j) {
      if j + 5 <= |lower| {
        assert lower[j..j + 5][0] == lower[j];
      }
    }
    assert !Contains(lower, "triệu");
    KeptDigits(d, suffix, rest);
    ParseFloatOfPointDecimal(WithoutCommas(d), []);
    assert WithoutCommas(d) + [] == WithoutCommas(d);
  }

  lemma KeptDigits(d: string, suffix: string, rest: string)
    requires IsAmountChars(d)
    requires suffix == "" || suffix == "k" || suffix == "K"
    requires forall i :: 0 <= i < |rest| ==> !IsDigitOrPoint(rest[i])
    ensures Filter(d + suffix + rest, IsDigitOrPoint) == WithoutCommas(d)
  {
    FilterAppend(d + suffix, rest, IsDigitOrPoint);
    FilterAppend(d, suffix, IsDigitOrPoint);
    FilterNone(suffix, IsDigitOrPoint);
    FilterNone(rest, IsDigitOrPoint);
  }

  /** The amount of the token `<digits><suffix><sep><word>` is that of the digits. */
  lemma SeparatorAndWord(d: string, suffix: string, sep: char, word: string)
    requires IsAmountChars(d)
    requires suffix == "" || suffix == "k" || suffix == "K"
    requires IsWhitespace(sep)
    requires word != [] && ToLowerChar(word[|word| - 1]) != 'k'
    requires forall i :: 0 <= i < |word| ==> word[i] != 't' && word[i] != 'T' && !IsDigitOrPoint(word[i])
    ensures ParseAmount(d + suffix + [sep] + word) == PointDecimal(WithoutCommas(d))
  {
    var rest := [sep] + word;
    assert d + suffix + [sep] + word == d + suffix + rest;
    forall i | 0 <= i < |rest| ensures rest[i] != 't' && rest[i] != 'T' && !IsDigitOrPoint(rest[i]) {
      if i > 0 {
        assert rest[i] == word[i - 1];
      }
    }
    assert rest[|rest| - 1] == word[|word| - 1];
    LostSuffix(d, suffix, rest);
  }
}
