/** The JavaScript string operations the bot relies on (`toLowerCase`, `endsWith`,
    `includes`, `replace`, `trim`, `split`, `join` and the `\s` / `\d` classes of
    its regular expressions), over strings as sequences of code points. */
module JsText {

  datatype Option<T> = None | Some(value: T)

  /** ECMAScript LineTerminator: the characters `.` in a regular expression does not match. */
  predicate IsLineTerminator(c: char) {
    c == '\n' || c == '\r' || c == '\U{2028}' || c == '\U{2029}'
  }

  predicate IsLineChar(c: char) {
    !IsLineTerminator(c)
  }

  /** ECMAScript WhiteSpace and LineTerminator: the set matched by `\s` and skipped
      by `trim` and `parseFloat`. */
  predicate IsWhitespace(c: char) {
    || IsLineTerminator(c)
    || c == '\t' || c == '\U{000B}' || c == '\U{000C}' || c == ' '
    || c == '\U{00A0}' || c == '\U{1680}' || ('\U{2000}' <= c <= '\U{200A}')
    || c == '\U{202F}' || c == '\U{205F}' || c == '\U{3000}' || c == '\U{FEFF}'
  }

  /** `\d` in a JavaScript regular expression: ASCII digits only. */
  predicate IsDigit(c: char) {
    '0' <= c <= '9'
  }

  predicate NoLineTerminators(s: string) {
    forall i :: 0 <= i < |s| ==> !IsLineTerminator(s[i])
  }

  predicate NoWhitespace(s: string) {
    forall i :: 0 <= i < |s| ==> !IsWhitespace(s[i])
  }

  /** `toLowerCase` of one character, for ASCII, Latin-1, the Vietnamese block
      U+1EA0..U+1EFF and the Kelvin sign; every other character is left as it is. */
  function ToLowerChar(c: char): (r: char)
    ensures r == 'k' <==> (c == 'k' || c == 'K' || c == '\U{212A}')
    ensures r == 't' <==> (c == 't' || c == 'T')
    ensures r == ' ' <==> c == ' '
    ensures IsDigit(c) || c == ',' || c == '.' || c == '+' ==> r == c
  {
    if 'A' <= c <= 'Z' then (c as int + 32) as char
    else if ('\U{00C0}' <= c <= '\U{00DE}') && c != '\U{00D7}' then (c as int + 32) as char
    else if '\U{1EA0}' <= c <= '\U{1EFF}' && (c as int) % 2 == 0 then (c as int + 1) as char
    else if c == '\U{212A}' then 'k'
    else c
  }

  function ToLower(s: string): (r: string)
    ensures |r| == |s|
    ensures forall i :: 0 <= i < |s| ==> r[i] == ToLowerChar(s[i])
  {
    if s == [] then [] else [ToLowerChar(s[0])] + ToLower(s[1..])
  }

  /** Lower-casing works character by character, so it distributes over `+`. */
  lemma ToLowerAppend(a: string, b: string)
    ensures ToLower(a + b) == ToLower(a) + ToLower(b)
  {
    var l, r := ToLower(a + b), ToLower(a) + ToLower(b);
    forall j | 0 <= j < |l| ensures l[j] == r[j] {
      if j < |a| {
        assert (a + b)[j] == a[j];
      } else {
        assert (a + b)[j] == b[j - |a|];
      }
    }
  }

  /** `s.endsWith(c)` for a one-character argument. */
  predicate EndsWith(s: string, c: char) {
    |s| > 0 && s[|s| - 1] == c
  }

  /** Length of the longest prefix of `s` whose characters all satisfy `p`. */
  function PrefixRun(s: string, p: char -> bool): (n: nat)
    ensures n <= |s|
    ensures forall i :: 0 <= i < n ==> p(s[i])
    ensures n < |s| ==> !p(s[n])
  {
    if s == [] || !p(s[0]) then 0 else 1 + PrefixRun(s[1..], p)
  }

  /** The prefix run is determined by the characters up to and including the first
      one that fails `p`. */
  lemma PrefixRunIs(s: string, p: char -> bool, n: nat)
    requires n <= |s|
    requires forall i :: 0 <= i < n ==> p(s[i])
    requires n < |s| ==> !p(s[n])
    ensures PrefixRun(s, p) == n
  {
  }

  /** `pat` occurs in `s` starting at position `j`. */
  predicate OccursAt(s: string, pat: string, j: nat) {
    j + |pat| <= |s| && s[j..j + |pat|] == pat
  }

  lemma OccursAtShift(s: string, pat: string, j: nat)
    requires |s| > 0
    ensures OccursAt(s, pat, j + 1) == OccursAt(s[1..], pat, j)
  {
    if j + 1 + |pat| <= |s| {
      assert s[j + 1..j + 1 + |pat|] == s[1..][j..j + |pat|];
    }
  }

  /** `s.indexOf(pat)`: the first position where `pat` occurs in `s`. */
  function IndexOf(s: string, pat: string): (r: Option<nat>)
    ensures r.Some? ==> OccursAt(s, pat, r.value)
    ensures r.Some? ==> forall j :: 0 <= j < r.value ==> !OccursAt(s, pat, j)
    ensures r.None? ==> forall j :: 0 <= j ==> !OccursAt(s, pat, j)
  {
    if |s| < |pat| then None
    else if s[..|pat|] == pat then Some(0)
    else match IndexOf(s[1..], pat)
      case None =>
        assert forall j: nat :: OccursAt(s, pat, j + 1) == OccursAt(s[1..], pat, j) by {
          forall j: nat ensures OccursAt(s, pat, j + 1) == OccursAt(s[1..], pat, j) {
            OccursAtShift(s, pat, j);
          }
        }
        assert forall j: nat :: 1 <= j ==> !OccursAt(s, pat, j) by {
          forall j: nat | 1 <= j ensures !OccursAt(s, pat, j) {
            assert OccursAt(s, pat, (j - 1) + 1) == OccursAt(s[1..], pat, j - 1);
          }
        }
        None
      case Some(k) =>
        assert forall j: nat :: OccursAt(s, pat, j + 1) == OccursAt(s[1..], pat, j) by {
          forall j: nat ensures OccursAt(s, pat, j + 1) == OccursAt(s[1..], pat, j) {
            OccursAtShift(s, pat, j);
          }
        }
        assert forall j: nat :: 1 <= j < k + 1 ==> !OccursAt(s, pat, j) by {
          forall j: nat | 1 <= j < k + 1 ensures !OccursAt(s, pat, j) {
            assert OccursAt(s, pat, (j - 1) + 1) == OccursAt(s[1..], pat, j - 1);
          }
        }
        Some(k + 1)
  }

  /** `s.includes(pat)`. */
  predicate Contains(s: string, pat: string) {
    IndexOf(s, pat).Some?
  }

  /** `s.replace(pat, '')` with a string pattern: only the first occurrence goes. */
  function ReplaceFirst(s: string, pat: string): (r: string)
    ensures IndexOf(s, pat).None? ==> r == s
    ensures IndexOf(s, pat).Some? ==> |r| == |s| - |pat| && s == r[..IndexOf(s, pat).value] + pat + r[IndexOf(s, pat).value..]
  {
    match IndexOf(s, pat)
    case None => s
    case Some(i) => s[..i] + s[i + |pat|..]
  }

  /** `s.replace(/[^...]/g, '')`: keeps, in order, exactly the characters satisfying `keep`. */
  function Filter(s: string, keep: char -> bool): (r: string)
    ensures |r| <= |s|
    ensures forall i :: 0 <= i < |r| ==> keep(r[i])
    ensures (forall i :: 0 <= i < |s| ==> keep(s[i])) ==> r == s
  {
    if s == [] then []
    else (if keep(s[0]) then [s[0]] else []) + Filter(s[1..], keep)
  }

  lemma {:induction false} FilterAppend(a: string, b: string, keep: char -> bool)
    ensures Filter(a + b, keep) == Filter(a, keep) + Filter(b, keep)
  {
    if a != [] {
      var head: string := if keep(a[0]) then [a[0]] else [];
      assert (a + b)[0] == a[0];
      assert (a + b)[1..] == a[1..] + b;
      FilterAppend(a[1..], b, keep);
      assert Filter(a + b, keep) == head + Filter(a[1..] + b, keep);
      assert Filter(a, keep) == head + Filter(a[1..], keep);
      assert head + (Filter(a[1..], keep) + Filter(b, keep)) == (head + Filter(a[1..], keep)) + Filter(b, keep);
    } else {
      assert a + b == b;
    }
  }

  /** Every character a filter keeps comes from its input. */
  lemma {:induction false} FilterFrom(s: string, keep: char -> bool)
    ensures forall i :: 0 <= i < |Filter(s, keep)| ==> Filter(s, keep)[i] in s
  {
    if s != [] {
      FilterFrom(s[1..], keep);
      var head: string := if keep(s[0]) then [s[0]] else [];
      var r := Filter(s, keep);
      assert r == head + Filter(s[1..], keep);
      forall i | 0 <= i < |r| ensures r[i] in s {
        if i >= |head| {
          assert r[i] == Filter(s[1..], keep)[i - |head|];
          assert r[i] in s[1..];
        }
      }
    }
  }

  /** A filter that keeps no character of `s` gives the empty string. */
  lemma {:induction false} FilterNone(s: string, keep: char -> bool)
    requires forall i :: 0 <= i < |s| ==> !keep(s[i])
    ensures Filter(s, keep) == []
  {
    if s != [] {
      FilterNone(s[1..], keep);
    }
  }

  /** Two filters that agree on every character of `s` give the same result. */
  lemma {:induction false} FilterAgree(s: string, p: char -> bool, q: char -> bool)
    requires forall i :: 0 <= i < |s| ==> p(s[i]) == q(s[i])
    ensures Filter(s, p) == Filter(s, q)
  {
    if s != [] {
      FilterAgree(s[1..], p, q);
    }
  }

  function TrimStart(s: string): (r: string)
    ensures |r| <= |s|
    ensures r == s[|s| - |r|..]
    ensures r == [] || !IsWhitespace(r[0])
    ensures forall i :: 0 <= i < |s| - |r| ==> IsWhitespace(s[i])
  {
    s[PrefixRun(s, IsWhitespace)..]
  }

  function TrimEnd(s: string): (r: string)
    ensures |r| <= |s|
    ensures r == s[..|r|]
    ensures r == [] || !IsWhitespace(r[|r| - 1])
    ensures forall i :: |r| <= i < |s| ==> IsWhitespace(s[i])
  {
    if s != [] && IsWhitespace(s[|s| - 1]) then TrimEnd(s[..|s| - 1]) else s
  }

  /** `s.trim()`. */
  function Trim(s: string): (r: string)
    ensures r == [] || (!IsWhitespace(r[0]) && !IsWhitespace(r[|r| - 1]))
    ensures NoLineTerminators(s) ==> NoLineTerminators(r)
    ensures NoWhitespace(s) ==> r == s
  {
    var t := TrimStart(s);
    var r := TrimEnd(t);
    assert forall i :: 0 <= i < |r| ==> r[i] == s[|s| - |t| + i];
    r
  }

  /** `s` has no white space at either end. */
  predicate Unpadded(s: string) {
    s == [] || (!IsWhitespace(s[0]) && !IsWhitespace(s[|s| - 1]))
  }

  /** A string that neither starts nor ends with white space is its own trim. */
  lemma TrimUnchanged(s: string)
    requires Unpadded(s)
    ensures Trim(s) == s
  {
    PrefixRunIs(s, IsWhitespace, 0);
    assert TrimStart(s) == s;
  }

  /** `s.indexOf(c)` for a character that occurs in `s`: its first position. */
  function FirstIndex(s: string, c: char): (k: nat)
    requires c in s
    ensures k < |s| && s[k] == c && c !in s[..k]
  {
    if s[0] == c then 0
    else
      var k := FirstIndex(s[1..], c);
      assert s[..k + 1] == [s[0]] + s[1..][..k];
      k + 1
  }

  /** `s.split(sep)` for a one-character separator. */
  function Split(s: string, sep: char): (parts: seq<string>)
    ensures |parts| >= 1
    ensures forall i :: 0 <= i < |parts| ==> sep !in parts[i]
  {
    if s == [] then [[]]
    else
      var rest := Split(s[1..], sep);
      if s[0] == sep then [[]] + rest
      else [[s[0]] + rest[0]] + rest[1..]
  }

  /** Every character of every part comes from the string split. */
  lemma {:induction false} SplitFrom(s: string, sep: char)
    ensures forall i, j :: 0 <= i < |Split(s, sep)| && 0 <= j < |Split(s, sep)[i]| ==> Split(s, sep)[i][j] in s
  {
    if s != [] {
      SplitFrom(s[1..], sep);
      var rest := Split(s[1..], sep);
      var parts := Split(s, sep);
      forall i, j | 0 <= i < |parts| && 0 <= j < |parts[i]| ensures parts[i][j] in s {
        if s[0] == sep {
          assert parts[i] == rest[i - 1];
          assert rest[i - 1][j] in s[1..];
        } else if i == 0 {
          if j > 0 {
            assert parts[0][j] == rest[0][j - 1];
            assert rest[0][j - 1] in s[1..];
          }
        } else {
          assert parts[i] == rest[i];
          assert rest[i][j] in s[1..];
        }
      }
    }
  }

  /** `parts.join(sep)`; the join of no parts is the empty string. */
  function Join(parts: seq<string>, sep: char): string {
    if parts == [] then []
    else if |parts| == 1 then parts[0]
    else parts[0] + [sep] + Join(parts[1..], sep)
  }

  /** Joining what `split` produced gives the string back. */
  lemma {:induction false} JoinSplit(s: string, sep: char)
    ensures Join(Split(s, sep), sep) == s
  {
    if s != [] {
      var rest := Split(s[1..], sep);
      JoinSplit(s[1..], sep);
      if s[0] == sep {
        assert Split(s, sep) == [[]] + rest;
        assert ([[]] + rest)[1..] == rest;
      } else {
        var parts := Split(s, sep);
        assert parts == [[s[0]] + rest[0]] + rest[1..];
        if |rest| > 1 {
          assert parts[1..] == rest[1..];
          assert Join(rest, sep) == rest[0] + [sep] + Join(rest[1..], sep);
        }
      }
    }
  }

  /** The first part of a split is everything before the first separator, and the
      remaining parts are the split of everything after it. */
  lemma {:induction false} SplitAtFirst(s: string, sep: char, k: nat)
    requires k < |s| && s[k] == sep && sep !in s[..k]
    ensures Split(s, sep)[0] == s[..k]
    ensures Split(s, sep)[1..] == Split(s[k + 1..], sep)
  {
    if k > 0 {
      assert s[1..][..k - 1] == s[1..k];
      assert s[1..][k - 1..] == s[k..];
      assert s[1..][k..] == s[k + 1..];
      SplitAtFirst(s[1..], sep, k - 1);
      assert s[..k] == [s[0]] + s[1..][..k - 1];
    }
  }

  /** A string without the separator splits into itself alone. */
  lemma {:induction false} SplitWithoutSeparator(s: string, sep: char)
    requires sep !in s
    ensures Split(s, sep) == [s]
  {
    if s != [] {
      assert s[0] != sep;
      SplitWithoutSeparator(s[1..], sep);
      assert [s[0]] + s[1..] == s;
    }
  }
}
