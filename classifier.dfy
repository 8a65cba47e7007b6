/** The classification `bot.onText` applies to one trimmed line of a message: one of
    the three summary phrases, an expense `<amount> <note>`, an income
    `+<amount> <note>`, or something the bot answers with its usage help. */
module Classifier {
  import opened JsText
  import opened Amount

  datatype SummaryKind = TotalExpense | TotalIncome | TotalRemaining

  /** Money going out (an expense) or coming in (an income). */
  datatype Direction = MoneyOut | MoneyIn

  datatype Command =
    | Summary(kind: SummaryKind)
    | Transaction(direction: Direction, amount: string, note: string)
    | Invalid

  /** The phrase, in lower case, that asks for a summary; it is matched ignoring case. */
  function Phrase(kind: SummaryKind): string {
    match kind
    case TotalExpense => "tổng chi"
    case TotalIncome => "tổng thu"
    case TotalRemaining => "tổng còn lại"
  }

  /** The transaction type recorded by the server. */
  function Label(direction: Direction): string {
    match direction
    case MoneyOut => "Tiền ra"
    case MoneyIn => "Tiền vào"
  }

  /** `/^<phrase>$/i`: the line is the phrase, letter case aside. */
  predicate MatchesPhrase(text: string, kind: SummaryKind) {
    ToLower(text) == Phrase(kind)
  }

  /** Length of the leading run of `[\d,.]`. */
  function AmountRun(t: string): (n: nat)
    ensures n <= |t| && IsAmountChars(t[..n])
    ensures n < |t| ==> !IsAmountChar(t[n])
  {
    PrefixRun(t, IsAmountChar)
  }

  /** A white-space character at `j` with at least one character after it: what
      `\s+.+$` needs to match from `j` on a single line. */
  predicate SeparatedAt(t: string, j: nat) {
    j + 1 < |t| && IsWhitespace(t[j])
  }

  /** `^[\d,.]+(?:k|K|triệu|TRIỆU)?\s+.+$` decided directly: the amount run is not
      empty and is followed, with or without one suffix, by white space and more text. */
  predicate MatchesDetails(t: string) {
    var i := AmountRun(t);
    i > 0
    && (SeparatedAt(t, i)
        || exists k :: 0 <= k < |Suffixes| && OccursAt(t, Suffixes[k], i) && SeparatedAt(t, i + |Suffixes[k]|))
  }

  /** The same pattern read as a regular expression: some split of the line into a
      non-empty run of `[\d,.]`, an optional suffix, a white-space character and at
      least one further character. */
  ghost predicate TransactionShape(t: string) {
    exists a, b :: 0 < a <= b && b + 1 < |t| && IsAmountChars(t[..a])
                   && (a == b || t[a..b] in Suffixes) && IsWhitespace(t[b])
  }

  /** `details.split(' ')`: the amount is the first part, the note the other parts
      joined back with single spaces. */
  function AmountOf(details: string): string {
    Split(details, ' ')[0]
  }

  function NoteOf(details: string): string {
    Join(Split(details, ' ')[1..], ' ')
  }

  /** What the line asks for. The summary phrases are tried first, then the expense
      pattern, then the income pattern. */
  function Classify(text: string): (c: Command)
    requires NoLineTerminators(text)
    ensures c.Transaction? ==> ' ' !in c.amount
  {
    if MatchesPhrase(text, TotalExpense) then Summary(TotalExpense)
    else if MatchesPhrase(text, TotalIncome) then Summary(TotalIncome)
    else if MatchesPhrase(text, TotalRemaining) then Summary(TotalRemaining)
    else if MatchesDetails(text) then Transaction(MoneyOut, AmountOf(text), NoteOf(text))
    else if |text| > 0 && text[0] == '+' && MatchesDetails(text[1..]) then
      Transaction(MoneyIn, AmountOf(text[1..]), NoteOf(text[1..]))
    else Invalid
  }

  /** The direct check and the regular-expression reading agree on every line. */
  lemma MatchesDetailsIffShape(t: string)
    ensures MatchesDetails(t) <==> TransactionShape(t)
  {
    if MatchesDetails(t) {
      DetailsHaveShape(t);
    }
    if TransactionShape(t) {
      var a, b :| 0 < a <= b && b + 1 < |t| && IsAmountChars(t[..a])
                  && (a == b || t[a..b] in Suffixes) && IsWhitespace(t[b]);
      ShapeHasDetails(t, a, b);
    }
  }

  lemma DetailsHaveShape(t: string)
    requires MatchesDetails(t)
    ensures TransactionShape(t)
  {
    var i := AmountRun(t);
    if SeparatedAt(t, i) {
      assert t[i..i] == [];
    } else {
      var k :| 0 <= k < |Suffixes| && OccursAt(t, Suffixes[k], i) && SeparatedAt(t, i + |Suffixes[k]|);
      assert t[i..i + |Suffixes[k]|] in Suffixes;
    }
  }

  lemma ShapeHasDetails(t: string, a: nat, b: nat)
    requires 0 < a <= b && b + 1 < |t| && IsAmountChars(t[..a])
    requires a == b || t[a..b] in Suffixes
    requires IsWhitespace(t[b])
    ensures MatchesDetails(t)
  {
    ShapeStartsWithRun(t, a, b);
    if a != b {
      var k :| 0 <= k < |Suffixes| && Suffixes[k] == t[a..b];
      assert OccursAt(t, Suffixes[k], a);
    }
  }

  /** In a match, the amount part is exactly the maximal run of `[\d,.]`. */
  lemma ShapeStartsWithRun(t: string, a: nat, b: nat)
    requires 0 < a <= b < |t| && IsAmountChars(t[..a])
    requires a == b || t[a..b] in Suffixes
    requires IsWhitespace(t[b])
    ensures AmountRun(t) == a
  {
    forall i | 0 <= i < a ensures IsAmountChar(t[i]) {
      assert t[..a][i] == t[i];
    }
    if a < b {
      assert t[a] == t[a..b][0];
    }
    PrefixRunIs(t, IsAmountChar, a);
  }

  /** A line that starts with a character other than `t` or `T` matches no summary
      phrase. */
  lemma NoPhrase(text: string)
    requires |text| > 0 && text[0] != 't' && text[0] != 'T'
    ensures forall kind :: !MatchesPhrase(text, kind)
  {
    forall kind ensures !MatchesPhrase(text, kind) {
      assert Phrase(kind)[0] == 't';
      assert ToLower(text)[0] != 't';
    }
  }

  /** The three patterns exclude each other: a line with the expense shape starts
      with a digit, comma or point, so it neither starts with `+` nor spells a
      phrase, and a line spelling a phrase starts with `t` or `T`. */
  lemma PatternsDisjoint(text: string)
    ensures TransactionShape(text) ==> text[0] != '+' && forall kind :: !MatchesPhrase(text, kind)
    ensures (exists kind :: MatchesPhrase(text, kind)) ==> !TransactionShape(text) && !(|text| > 0 && text[0] == '+')
  {
    if TransactionShape(text) {
      var a, b :| 0 < a <= b && b + 1 < |text| && IsAmountChars(text[..a])
                  && (a == b || text[a..b] in Suffixes) && IsWhitespace(text[b]);
      assert IsAmountChar(text[..a][0]);
      NoPhrase(text);
    }
    if exists kind :: MatchesPhrase(text, kind) {
      var kind :| MatchesPhrase(text, kind);
      assert ToLower(text)[0] == Phrase(kind)[0] == 't';
    }
  }

  /** A summary is asked for exactly when the line is its phrase, letter case aside. */
  lemma ClassifySummary(text: string, kind: SummaryKind)
    requires NoLineTerminators(text)
    ensures Classify(text) == Summary(kind) <==> MatchesPhrase(text, kind)
  {
    assert Phrase(TotalExpense)[5] != Phrase(TotalIncome)[5];
    assert |Phrase(TotalRemaining)| != |Phrase(TotalExpense)|;
  }

  /** An expense is recorded exactly when the whole line has the expense shape. */
  lemma ClassifyExpense(text: string)
    requires NoLineTerminators(text)
    ensures (Classify(text).Transaction? && Classify(text).direction == MoneyOut) <==> TransactionShape(text)
  {
    MatchesDetailsIffShape(text);
    if MatchesDetails(text) {
      assert IsAmountChar(text[..AmountRun(text)][0]);
      NoPhrase(text);
    }
  }

  /** An income is recorded exactly when the line is `+` followed by the expense shape. */
  lemma ClassifyIncome(text: string)
    requires NoLineTerminators(text)
    ensures (Classify(text).Transaction? && Classify(text).direction == MoneyIn)
        <==> |text| > 0 && text[0] == '+' && TransactionShape(text[1..])
  {
    if |text| > 0 && text[0] == '+' {
      MatchesDetailsIffShape(text[1..]);
      NoPhrase(text);
      assert AmountRun(text) == 0;
    }
  }

  /** The usage help is the answer exactly when the line is none of the above. */
  lemma ClassifyInvalid(text: string)
    requires NoLineTerminators(text)
    ensures Classify(text) == Invalid
        <==> (forall kind :: !MatchesPhrase(text, kind))
             && !TransactionShape(text)
             && !(|text| > 0 && text[0] == '+' && TransactionShape(text[1..]))
  {
    ClassifyExpense(text);
    ClassifyIncome(text);
    if !(forall kind :: !MatchesPhrase(text, kind)) {
      var kind :| MatchesPhrase(text, kind);
      ClassifySummary(text, kind);
    }
  }

  /** A line without white space, such as a bare `15k`, is never a command. */
  lemma UnbrokenLineIsInvalid(text: string)
    requires NoLineTerminators(text) && NoWhitespace(text)
    ensures Classify(text) == Invalid
  {
    forall kind ensures !MatchesPhrase(text, kind) {
      assert Phrase(kind)[4] == ' ';
      if |text| == |Phrase(kind)| {
        assert ToLowerChar(text[4]) == ToLower(text)[4];
      }
    }
    if |text| > 0 {
      assert !SeparatedAt(text[1..], AmountRun(text[1..]));
    }
  }

  /** The amount is everything before the first space and the note everything after
      it; with no space the amount is the whole and the note is empty. */
  lemma SplitOnFirstSpace(details: string)
    ensures ' ' in details ==> details == AmountOf(details) + " " + NoteOf(details)
    ensures ' ' !in details ==> AmountOf(details) == details && NoteOf(details) == ""
    ensures forall n :: 0 <= n <= |details| && ' ' !in details[..n] ==> details[..n] <= AmountOf(details)
  {
    if ' ' in details {
      var k := FirstIndex(details, ' ');
      SplitAtFirst(details, ' ', k);
      JoinSplit(details[k + 1..], ' ');
      assert details == details[..k] + " " + details[k + 1..];
      assert forall n :: k < n <= |details| ==> details[..n][k] == ' ';
    } else {
      SplitWithoutSeparator(details, ' ');
    }
  }

  /** What a transaction carries: the amount has no space and starts with the whole
      run of `[\d,.]`, and amount, one space and note give back the text after the
      optional `+` when it has a space. */
  lemma TransactionParts(text: string)
    requires NoLineTerminators(text) && Classify(text).Transaction?
    ensures var c := Classify(text);
            var details := if c.direction == MoneyOut then text else text[1..];
            && ' ' !in c.amount
            && 0 < AmountRun(details)
            && details[..AmountRun(details)] <= c.amount
            && (' ' in details ==> details == c.amount + " " + c.note)
            && (' ' !in details ==> c.amount == details && c.note == "")
  {
    var c := Classify(text);
    var details := if c.direction == MoneyOut then text else text[1..];
    TransactionDetails(text);
    SplitOnFirstSpace(details);
    RunHasNoSpace(details);
  }

  /** The text after the optional `+` of a transaction has the expense shape, and
      the amount and the note are read from it. */
  lemma TransactionDetails(text: string)
    requires NoLineTerminators(text) && Classify(text).Transaction?
    ensures var c := Classify(text);
            var details := if c.direction == MoneyOut then text else text[1..];
            MatchesDetails(details) && c.amount == AmountOf(details) && c.note == NoteOf(details)
  {
  }

  lemma RunHasNoSpace(details: string)
    ensures ' ' !in details[..AmountRun(details)]
  {
    var n := AmountRun(details);
    forall j | 0 <= j < n ensures details[..n][j] != ' ' {
      assert IsAmountChar(details[..n][j]);
    }
  }

  /** Concatenation keeps a string on one line. */
  lemma OneLine(a: string, b: string)
    requires NoLineTerminators(a) && NoLineTerminators(b)
    ensures NoLineTerminators(a + b)
  {
    forall i | 0 <= i < |a + b| ensures !IsLineTerminator((a + b)[i]) {
      if i >= |a| {
        assert (a + b)[i] == b[i - |a|];
      }
    }
  }

  lemma TokenOnOneLine(d: string, suffix: string)
    requires IsAmountChars(d) && IsSuffixOrNone(suffix)
    ensures NoLineTerminators(d + suffix) && ' ' !in d + suffix
  {
    assert NoLineTerminators(d) && ' ' !in d by {
      forall i | 0 <= i < |d| ensures !IsLineTerminator(d[i]) && d[i] != ' ' {
        assert IsAmountChar(d[i]);
      }
    }
    assert NoLineTerminators(suffix);
    OneLine(d, suffix);
  }

  /** A line with the expense shape that starts with the amount is an expense. */
  lemma ExpenseLine(t: string)
    requires NoLineTerminators(t) && MatchesDetails(t)
    ensures Classify(t) == Transaction(MoneyOut, AmountOf(t), NoteOf(t))
  {
    assert IsAmountChar(t[..AmountRun(t)][0]);
    NoPhrase(t);
  }

  /** A line of `+` and the expense shape is an income. */
  lemma IncomeLine(t: string)
    requires NoLineTerminators(t) && |t| > 0 && t[0] == '+' && MatchesDetails(t[1..])
    ensures Classify(t) == Transaction(MoneyIn, AmountOf(t[1..]), NoteOf(t[1..]))
  {
    NoPhrase(t);
    assert AmountRun(t) == 0;
  }

  /** An amount token, a space and a note: a single line with the expense shape,
      split into the token and the note. */
  lemma TokenDetails(d: string, suffix: string, note: string)
    requires IsAmountChars(d) && d != []
    requires IsSuffixOrNone(suffix)
    requires note != [] && NoLineTerminators(note)
    ensures var t := d + suffix + " " + note;
            NoLineTerminators(t) && MatchesDetails(t) && AmountOf(t) == d + suffix && NoteOf(t) == note
  {
    var token := d + suffix;
    var t := token + " " + note;
    TokenOnOneLine(d, suffix);
    OneLine(token, " ");
    OneLine(token + " ", note);
    TokenShape(d, suffix, ' ', note);
    MatchesDetailsIffShape(t);
    TokenSplit(token, note);
  }

  /** An amount token, a space and a note form an expense whose amount is the token
      and whose note is the rest as written. */
  lemma ClassifyToken(d: string, suffix: string, note: string)
    requires IsAmountChars(d) && d != []
    requires IsSuffixOrNone(suffix)
    requires note != [] && NoLineTerminators(note)
    ensures NoLineTerminators(d + suffix + " " + note)
    ensures Classify(d + suffix + " " + note) == Transaction(MoneyOut, d + suffix, note)
  {
    TokenDetails(d, suffix, note);
    ExpenseLine(d + suffix + " " + note);
  }

  /** The same with a leading `+` is an income. */
  lemma ClassifyIncomeToken(d: string, suffix: string, note: string)
    requires IsAmountChars(d) && d != []
    requires IsSuffixOrNone(suffix)
    requires note != [] && NoLineTerminators(note)
    ensures NoLineTerminators("+" + d + suffix + " " + note)
    ensures Classify("+" + d + suffix + " " + note) == Transaction(MoneyIn, d + suffix, note)
  {
    var t := d + suffix + " " + note;
    TokenDetails(d, suffix, note);
    var plus := "+" + t;
    assert plus[1..] == t;
    assert "+" + d + suffix + " " + note == plus;
    OneLine("+", t);
    IncomeLine(plus);
  }

  lemma TokenShape(d: string, suffix: string, sep: char, rest: string)
    requires IsAmountChars(d) && d != []
    requires IsSuffixOrNone(suffix)
    requires IsWhitespace(sep) && rest != []
    ensures TransactionShape(d + suffix + [sep] + rest)
  {
    var t := d + suffix + [sep] + rest;
    var a, b := |d|, |d| + |suffix|;
    assert t[..a] == d;
    assert t[a..b] == suffix;
    assert t[b] == sep;
  }

  /** A token without spaces, a space and a note split into the token and the note. */
  lemma TokenSplit(token: string, note: string)
    requires ' ' !in token
    ensures AmountOf(token + " " + note) == token
    ensures NoteOf(token + " " + note) == note
  {
    var t := token + " " + note;
    assert t[..|token|] == token;
    SplitAtFirst(t, ' ', |token|);
    assert t[|token| + 1..] == note;
    JoinSplit(note, ' ');
  }

  /** When other white space than a plain space (a tab, a no-break space) follows
      the amount, the line still has the expense shape, but the amount is cut at
      the next plain space: the word after that white space becomes part of it. */
  lemma ClassifyOtherSeparator(d: string, suffix: string, sep: char, word: string, note: string)
    requires IsAmountChars(d) && d != []
    requires IsSuffixOrNone(suffix)
    requires IsWhitespace(sep) && !IsLineTerminator(sep) && sep != ' '
    requires word != [] && ' ' !in word && NoLineTerminators(word)
    requires note != [] && NoLineTerminators(note)
    ensures NoLineTerminators(d + suffix + [sep] + word + " " + note)
    ensures Classify(d + suffix + [sep] + word + " " + note) == Transaction(MoneyOut, d + suffix + [sep] + word, note)
  {
    var token := d + suffix + [sep] + word;
    var t := token + " " + note;
    TokenOnOneLine(d, suffix);
    OneLine(d + suffix, [sep]);
    OneLine(d + suffix + [sep], word);
    OneLine(token, " ");
    OneLine(token + " ", note);
    assert t == d + suffix + [sep] + (word + " " + note);
    TokenShape(d, suffix, sep, word + " " + note);
    MatchesDetailsIffShape(t);
    assert t[0] == d[0] && IsAmountChar(d[0]);
    NoPhrase(t);
    assert ' ' !in token by {
      assert ' ' !in d + suffix;
      forall i | 0 <= i < |token| ensures token[i] != ' ' {
        if i > |d + suffix| {
          assert token[i] == word[i - |d + suffix| - 1];
        }
      }
    }
    TokenSplit(token, note);
  }
}
