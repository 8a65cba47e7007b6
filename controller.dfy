/** The bot's handlers: a text message, a press on one of the menu's buttons, and the
    requests each sends to the web hook and the replies it sends back to
    the chat. The server is a parameter: what `fetch` gives for each request. */
module Controller {
  import opened JsText
  import opened JsNumber
  import opened Amount
  import opened Classifier
  import opened Gateway

  /** A call to the web hook: recording a transaction (`amount`, `type`, `note` and
      `timestamp` in the query string), or one of the `action`s of the second URL. */
  datatype Request =
    | RecordTransaction(amount: Number, kind: string, note: string, timestamp: string)
    | GetMonthlyTotal
    | GetMonthlyIncome
    | DeleteAllData

  /** An inline keyboard button: its label and the data its press sends back. */
  datatype Button = Button(text: string, callbackData: string)

  /** The menu shown after a transaction is recorded. */
  const Keyboard: seq<seq<Button>> := [
    [Button("\U{1F4C9} Tổng chi", "totalExpense"), Button("\U{1F4C8} Tổng thu", "totalIncome")],
    [Button("\U{1F4B0} Tổng còn lại", "totalRemaining")],
    [Button("\U{1F5D1}\U{FE0F} Xóa dữ liệu", "deleteAllData")]
  ]

  /** A message sent to the chat, by what it says. */
  datatype Reply =
    | Recorded(amount: Number, kind: string, note: string, timestamp: string)
    | ActionMenu(keyboard: seq<seq<Button>>)
    | RecordFailed(message: Json)
    | MonthlyExpense(total: real)
    | MonthlyExpenseFailed(message: Json)
    | MonthlyIncome(total: real)
    | MonthlyIncomeFailed(message: Json)
    | Remaining(income: real, expense: real, remaining: real)
    | RemainingFailed
    | DataDeleted
    | DeleteFailed(message: Json)
    | GenericError
    | UsageHelp

  /** What handling one update does: the requests sent, then the replies, in order. */
  datatype Effects = Effects(requests: seq<Request>, replies: seq<Reply>)

  /** What `fetch` gives for each request. */
  type Server = Request -> Fetched

  /** The answer cannot be looked into: `callApi` threw, or the body is `null` and
      reading its `status` throws. Both end in the generic error message. */
  predicate Unreadable(f: Fetched) {
    CallApi(f).ApiFailed? || CallApi(f).json == JNull
  }

  /** The server answered `status: "success"`. */
  predicate Accepted(f: Fetched) {
    !Unreadable(f) && IsSuccess(CallApi(f).json)
  }

  /** The `total` of an accepted answer, when it is a number. */
  function AcceptedTotal(f: Fetched): Option<real> {
    if Accepted(f) then Total(CallApi(f).json) else None
  }

  /** The server's message for an answer that is readable but not a success. */
  function Rejection(f: Fetched): Json
    requires !Unreadable(f)
  {
    MessageOrUnknown(CallApi(f).json)
  }

  /** `handleTransaction`: one request records the transaction; on success the bot
      confirms it and shows the menu, otherwise it sends one message and no menu. */
  function HandleTransaction(kind: string, amount: Number, note: string, timestamp: string, server: Server): (e: Effects)
    ensures e.requests == [RecordTransaction(amount, kind, note, timestamp)]
    ensures var f := server(e.requests[0]);
            && (Accepted(f) <==> e.replies == [Recorded(amount, kind, note, timestamp), ActionMenu(Keyboard)])
            && (Unreadable(f) <==> e.replies == [GenericError])
            && (!Accepted(f) && !Unreadable(f) ==> e.replies == [RecordFailed(Rejection(f))])
  {
    var request := RecordTransaction(amount, kind, note, timestamp);
    var f := server(request);
    var replies :=
      match CallApi(f)
      case ApiFailed => [GenericError]
      case Data(data) =>
        if data == JNull then [GenericError]
        else if IsSuccess(data) then [Recorded(amount, kind, note, timestamp), ActionMenu(Keyboard)]
        else [RecordFailed(MessageOrUnknown(data))];
    Effects([request], replies)
  }

  /** The reply to `getMonthlyTotal` (an expense summary) or `getMonthlyIncome`: the
      total when the server accepted and sent a number, its message when it did not,
      and the generic error when the answer could not be read. */
  function MonthlyReply(f: Fetched, income: bool): (r: Reply)
    ensures r == GenericError <==> Unreadable(f)
    ensures AcceptedTotal(f).Some? ==> r == (if income then MonthlyIncome(AcceptedTotal(f).value) else MonthlyExpense(AcceptedTotal(f).value))
    ensures !Unreadable(f) && AcceptedTotal(f).None? ==> r == (if income then MonthlyIncomeFailed(Rejection(f)) else MonthlyExpenseFailed(Rejection(f)))
  {
    match CallApi(f)
    case ApiFailed => GenericError
    case Data(data) =>
      if data == JNull then GenericError
      else if IsSuccess(data) && Total(data).Some? then
        (if income then MonthlyIncome(Total(data).value) else MonthlyExpense(Total(data).value))
      else if income then MonthlyIncomeFailed(MessageOrUnknown(data))
      else MonthlyExpenseFailed(MessageOrUnknown(data))
  }

  /** The reply to `totalRemaining`, from the answers to both queries. Both must be
      accepted with number totals for the balance to be shown, and then it is income
      minus expense. `Promise.all` fails if either call failed; the checks then read
      the expense answer first and look at the income answer only if the expense
      answer is a success, so a `null` income body goes unnoticed when the expense
      answer already failed. */
  function RemainingReply(expense: Fetched, income: Fetched): (r: Reply)
    ensures r.Remaining? <==> AcceptedTotal(expense).Some? && AcceptedTotal(income).Some?
    ensures r.Remaining? ==> r.income == AcceptedTotal(income).value
                             && r.expense == AcceptedTotal(expense).value
                             && r.remaining == r.income - r.expense
    ensures r == GenericError <==> CallApi(expense).ApiFailed? || CallApi(income).ApiFailed?
                                   || Unreadable(expense) || (Accepted(expense) && Unreadable(income))
    ensures r.Remaining? || r == RemainingFailed || r == GenericError
  {
    match (CallApi(expense), CallApi(income))
    case (Data(e), Data(i)) =>
      if e == JNull then GenericError
      else if !IsSuccess(e) then RemainingFailed
      else if i == JNull then GenericError
      else if IsSuccess(i) && Total(e).Some? && Total(i).Some? then
        Remaining(Total(i).value, Total(e).value, Total(i).value - Total(e).value)
      else RemainingFailed
    case _ => GenericError
  }

  /** The `action` a summary command or button stands for. */
  function ActionName(kind: SummaryKind): string {
    match kind
    case TotalExpense => "totalExpense"
    case TotalIncome => "totalIncome"
    case TotalRemaining => "totalRemaining"
  }

  /** `handleSummary(action)`: each of the three summaries asks its queries and sends
      one reply; any other action does nothing at all. */
  function HandleSummary(action: string, server: Server): (e: Effects)
    ensures action == "totalExpense" ==> e == Effects([GetMonthlyTotal], [MonthlyReply(server(GetMonthlyTotal), false)])
    ensures action == "totalIncome" ==> e == Effects([GetMonthlyIncome], [MonthlyReply(server(GetMonthlyIncome), true)])
    ensures action == "totalRemaining"
            ==> e == Effects([GetMonthlyTotal, GetMonthlyIncome], [RemainingReply(server(GetMonthlyTotal), server(GetMonthlyIncome))])
    ensures e.requests == [] <==> e == Effects([], [])
    ensures e.requests == [] <==> action != "totalExpense" && action != "totalIncome" && action != "totalRemaining"
  {
    if action == "totalExpense" then
      Effects([GetMonthlyTotal], [MonthlyReply(server(GetMonthlyTotal), false)])
    else if action == "totalIncome" then
      Effects([GetMonthlyIncome], [MonthlyReply(server(GetMonthlyIncome), true)])
    else if action == "totalRemaining" then
      Effects([GetMonthlyTotal, GetMonthlyIncome], [RemainingReply(server(GetMonthlyTotal), server(GetMonthlyIncome))])
    else Effects([], [])
  }

  /** The reply to `deleteAllData`. */
  function DeleteReply(f: Fetched): (r: Reply)
    ensures r == DataDeleted <==> Accepted(f)
    ensures r == GenericError <==> Unreadable(f)
    ensures !Accepted(f) && !Unreadable(f) ==> r == DeleteFailed(Rejection(f))
  {
    match CallApi(f)
    case ApiFailed => GenericError
    case Data(data) =>
      if data == JNull then GenericError
      else if IsSuccess(data) then DataDeleted
      else DeleteFailed(MessageOrUnknown(data))
  }

  /** A press on an inline button: `deleteAllData` deletes everything, any other data
      is handed to `handleSummary`. */
  function OnCallbackQuery(action: string, server: Server): (e: Effects)
    ensures action == "deleteAllData" ==> e == Effects([DeleteAllData], [DeleteReply(server(DeleteAllData))])
    ensures action != "deleteAllData" ==> e == HandleSummary(action, server)
  {
    if action == "deleteAllData" then Effects([DeleteAllData], [DeleteReply(server(DeleteAllData))])
    else HandleSummary(action, server)
  }

  /** What `/(.+)/` captures in a message: the first run of characters that are not
      line terminators, or no match when there is none. The run starts after the
      leading line terminators and stops at the next one or at the end. */
  function FirstLine(message: string): (r: Option<string>)
    ensures r.None? <==> forall i :: 0 <= i < |message| ==> IsLineTerminator(message[i])
    ensures r.Some? ==> r.value != [] && NoLineTerminators(r.value)
    ensures r.Some? ==> var start, end := PrefixRun(message, IsLineTerminator), PrefixRun(message, IsLineTerminator) + |r.value|;
                        && end <= |message| && message[start..end] == r.value
                        && (end == |message| || IsLineTerminator(message[end]))
    ensures message != [] && NoLineTerminators(message) ==> r == Some(message)
  {
    var start := PrefixRun(message, IsLineTerminator);
    if start == |message| then None
    else
      var rest := message[start..];
      var n := PrefixRun(rest, IsLineChar);
      assert forall i :: 0 <= i < n ==> rest[..n][i] == rest[i];
      assert message != [] && NoLineTerminators(message) ==> start == 0 && n == |rest| by {
        if message != [] && NoLineTerminators(message) {
          PrefixRunIs(message, IsLineTerminator, 0);
          assert rest == message;
          PrefixRunIs(rest, IsLineChar, |rest|);
        }
      }
      assert n == |rest| ==> rest[..n] == rest;
      Some(rest[..n])
  }

  /** `bot.onText(/(.+)/, …)`: the first line, trimmed, is classified and handled; a
      message with no line gives nothing, and a line that is no command gives the
      usage help. */
  function OnText(message: string, timestamp: string, server: Server): (e: Effects)
  {
    match FirstLine(message)
    case None => Effects([], [])
    case Some(line) => HandleLine(Trim(line), timestamp, server)
  }

  /** What the handler does with the trimmed line: a summary, a transaction, or the
      usage help, in the order the patterns are tried. */
  function HandleLine(text: string, timestamp: string, server: Server): (e: Effects)
    requires NoLineTerminators(text)
  {
    match Classify(text)
    case Summary(kind) => HandleSummary(ActionName(kind), server)
    case Transaction(direction, amount, note) =>
      HandleTransaction(Label(direction), ParseAmount(amount), note, timestamp, server)
    case Invalid => Effects([], [UsageHelp])
  }

  /** Every button of the menu sends at least one request and gets exactly one
      reply, and none of them shows the menu again. */
  lemma ButtonsAskServer(server: Server)
    ensures forall row, col :: 0 <= row < |Keyboard| && 0 <= col < |Keyboard[row]| ==>
              var e := OnCallbackQuery(Keyboard[row][col].callbackData, server);
              |e.requests| >= 1 && |e.replies| == 1 && e.replies[0] != ActionMenu(Keyboard)
  {
    forall row, col | 0 <= row < |Keyboard| && 0 <= col < |Keyboard[row]|
      ensures var e := OnCallbackQuery(Keyboard[row][col].callbackData, server);
              |e.requests| >= 1 && |e.replies| == 1 && e.replies[0] != ActionMenu(Keyboard)
    {
      var data := Keyboard[row][col].callbackData;
      assert data in {"totalExpense", "totalIncome", "totalRemaining", "deleteAllData"};
    }
  }

  /** Button data the bot does not know is ignored: no request and no reply. */
  lemma UnknownActionSilent(action: string, server: Server)
    requires action !in {"totalExpense", "totalIncome", "totalRemaining", "deleteAllData"}
    ensures OnCallbackQuery(action, server) == Effects([], [])
  {
  }

  /** Handling a text message sends at most two requests and two replies. Two
      replies are always a confirmation followed by the menu, after the one request
      that recorded a transaction was accepted; a message with a line always gets a
      reply, and one without requests gets only the usage help. */
  lemma OnTextShape(message: string, timestamp: string, server: Server)
    ensures var e := OnText(message, timestamp, server);
            && |e.requests| <= 2 && |e.replies| <= 2
            && (e.replies == [] <==> FirstLine(message).None?)
            && (|e.replies| == 2 ==>
                  && e.replies[0].Recorded? && e.replies[1] == ActionMenu(Keyboard)
                  && |e.requests| == 1 && e.requests[0].RecordTransaction?
                  && Accepted(server(e.requests[0])))
            && (ActionMenu(Keyboard) in e.replies ==> |e.replies| == 2)
            && (e.requests == [] && e.replies != [] ==> e.replies == [UsageHelp])
  {
    match FirstLine(message)
    case None =>
    case Some(line) =>
      LineShape(Trim(line), timestamp, server);
  }

  /** The same for one trimmed line, which always gets a reply. */
  lemma LineShape(text: string, timestamp: string, server: Server)
    requires NoLineTerminators(text)
    ensures var e := HandleLine(text, timestamp, server);
            && |e.requests| <= 2 && 1 <= |e.replies| <= 2
            && (|e.replies| == 2 ==>
                  && e.replies[0].Recorded? && e.replies[1] == ActionMenu(Keyboard)
                  && |e.requests| == 1 && e.requests[0].RecordTransaction?
                  && Accepted(server(e.requests[0])))
            && (ActionMenu(Keyboard) in e.replies ==> |e.replies| == 2)
            && (e.requests == [] ==> e.replies == [UsageHelp])
  {
    match Classify(text)
    case Summary(kind) =>
      var action := ActionName(kind);
      assert action in {"totalExpense", "totalIncome", "totalRemaining"};
    case Transaction(direction, amount, note) =>
    case Invalid =>
  }

  /** A line that is no command, and only such a line, is answered with the usage
      help alone, without any request. */
  lemma OnTextUsageHelp(message: string, timestamp: string, server: Server)
    ensures OnText(message, timestamp, server) == Effects([], [UsageHelp])
        <==> FirstLine(message).Some? && Classify(Trim(FirstLine(message).value)) == Invalid
  {
    match FirstLine(message)
    case None =>
    case Some(line) =>
      var text := Trim(line);
      match Classify(text)
      case Summary(kind) =>
        var action := ActionName(kind);
        assert action in {"totalExpense", "totalIncome", "totalRemaining"};
      case Transaction(direction, amount, note) =>
      case Invalid =>
  }

  /** A bare amount such as `15k`, or any one-line message without white space, gets
      only the usage help and no request. */
  lemma BareAmountGetsHelp(message: string, timestamp: string, server: Server)
    requires message != [] && NoLineTerminators(message) && NoWhitespace(message)
    ensures OnText(message, timestamp, server) == Effects([], [UsageHelp])
  {
    UnbrokenLineIsInvalid(message);
  }

  /** With the server unreachable, every request made for a message or a button press
      ends in exactly one reply: the generic error. */
  lemma ServerDown(message: string, action: string, timestamp: string, server: Server)
    requires forall r :: server(r) == NetworkError
    ensures var e := OnText(message, timestamp, server); e.requests != [] ==> e.replies == [GenericError]
    ensures var e := OnCallbackQuery(action, server); e.requests != [] ==> e.replies == [GenericError]
  {
    TextServerDown(message, timestamp, server);
    ButtonServerDown(action, server);
  }

  lemma TextServerDown(message: string, timestamp: string, server: Server)
    requires forall r :: server(r) == NetworkError
    ensures var e := OnText(message, timestamp, server); e.requests != [] ==> e.replies == [GenericError]
  {
    match FirstLine(message)
    case None =>
    case Some(line) =>
      LineServerDown(Trim(line), timestamp, server);
  }

  lemma LineServerDown(text: string, timestamp: string, server: Server)
    requires NoLineTerminators(text)
    requires forall r :: server(r) == NetworkError
    ensures var e := HandleLine(text, timestamp, server); e.requests != [] ==> e.replies == [GenericError]
  {
    match Classify(text)
    case Summary(kind) =>
    case Transaction(direction, amount, note) =>
      var request := RecordTransaction(ParseAmount(amount), Label(direction), note, timestamp);
      assert server(request) == NetworkError;
    case Invalid =>
  }

  lemma ButtonServerDown(action: string, server: Server)
    requires forall r :: server(r) == NetworkError
    ensures var e := OnCallbackQuery(action, server); e.requests != [] ==> e.replies == [GenericError]
  {
  }

  /** A one-line message that is already trimmed and is a summary phrase asks for
      that summary: `tổng chi` the monthly expenses, `tổng thu` the monthly income,
      `tổng còn lại` both, and gets the one reply `handleSummary` gives. */
  lemma SummaryRequest(message: string, timestamp: string, server: Server)
    requires message != [] && NoLineTerminators(message) && Trim(message) == message
    requires Classify(message).Summary?
    ensures Classify(message) == Summary(TotalExpense)
            ==> OnText(message, timestamp, server) == Effects([GetMonthlyTotal], [MonthlyReply(server(GetMonthlyTotal), false)])
    ensures Classify(message) == Summary(TotalIncome)
            ==> OnText(message, timestamp, server) == Effects([GetMonthlyIncome], [MonthlyReply(server(GetMonthlyIncome), true)])
    ensures Classify(message) == Summary(TotalRemaining)
            ==> OnText(message, timestamp, server)
                == Effects([GetMonthlyTotal, GetMonthlyIncome], [RemainingReply(server(GetMonthlyTotal), server(GetMonthlyIncome))])
  {
  }

  /** `Tổng Chi`, in any letter case, asks for the monthly expenses. */
  lemma ExampleTotalExpense(message: string, timestamp: string, server: Server)
    requires message == "Tổng Chi"
    ensures OnText(message, timestamp, server) == Effects([GetMonthlyTotal], [MonthlyReply(server(GetMonthlyTotal), false)])
  {
    TotalExpenseLine(message);
    TrimUnchanged(message);
    ClassifySummary(message, TotalExpense);
    SummaryRequest(message, timestamp, server);
  }

  lemma TotalExpenseLine(message: string)
    requires message == "Tổng Chi"
    ensures message != [] && NoLineTerminators(message) && Unpadded(message)
    ensures MatchesPhrase(message, TotalExpense)
  {
    TotalExpenseLower(message);
  }

  lemma TotalExpenseLower(message: string)
    requires message == "Tổng Chi"
    ensures ToLower(message) == "tổng chi"
  {
    assert ToLowerChar('T') == 't' && ToLowerChar('C') == 'c';
    assert ToLower(message) == "tổng chi";
  }

  /** A one-line message that is already trimmed and classified as a transaction is
      handled by `handleTransaction` with the parsed amount, its type and its note:
      it sends exactly the request recording it and gets that handler's replies. */
  lemma TransactionRequest(message: string, timestamp: string, server: Server)
    requires message != [] && NoLineTerminators(message) && Trim(message) == message
    requires Classify(message).Transaction?
    ensures var c := Classify(message);
            OnText(message, timestamp, server)
            == HandleTransaction(Label(c.direction), ParseAmount(c.amount), c.note, timestamp, server)
    ensures var c := Classify(message);
            OnText(message, timestamp, server).requests
            == [RecordTransaction(ParseAmount(c.amount), Label(c.direction), c.note, timestamp)]
  {
  }

  /** A message `<digits, commas and points><suffix> <note>` records an expense of
      the amount read from the token, with the note as written and the given time. */
  lemma OnTextRecordsExpense(d: string, suffix: string, note: string, timestamp: string, server: Server)
    requires IsAmountChars(d) && d != []
    requires IsSuffixOrNone(suffix)
    requires note != [] && NoLineTerminators(note) && !IsWhitespace(note[|note| - 1])
    ensures OnText(d + suffix + " " + note, timestamp, server)
         == HandleTransaction(Label(MoneyOut), Times(PointDecimal(WithoutCommas(d)), Multiplier(suffix)), note, timestamp, server)
    ensures OnText(d + suffix + " " + note, timestamp, server).requests
         == [RecordTransaction(Times(PointDecimal(WithoutCommas(d)), Multiplier(suffix)), Label(MoneyOut), note, timestamp)]
  {
    var message := d + suffix + " " + note;
    ClassifyToken(d, suffix, note);
    assert message[0] == d[0] && IsAmountChar(d[0]);
    assert message[|message| - 1] == note[|note| - 1];
    TrimUnchanged(message);
    TransactionRequest(message, timestamp, server);
    ParseAmountOfToken(d, suffix);
  }

  /** The same message with a leading `+` records an income. */
  lemma OnTextRecordsIncome(d: string, suffix: string, note: string, timestamp: string, server: Server)
    requires IsAmountChars(d) && d != []
    requires IsSuffixOrNone(suffix)
    requires note != [] && NoLineTerminators(note) && !IsWhitespace(note[|note| - 1])
    ensures OnText("+" + d + suffix + " " + note, timestamp, server)
         == HandleTransaction(Label(MoneyIn), Times(PointDecimal(WithoutCommas(d)), Multiplier(suffix)), note, timestamp, server)
    ensures OnText("+" + d + suffix + " " + note, timestamp, server).requests
         == [RecordTransaction(Times(PointDecimal(WithoutCommas(d)), Multiplier(suffix)), Label(MoneyIn), note, timestamp)]
  {
    var message := "+" + d + suffix + " " + note;
    ClassifyIncomeToken(d, suffix, note);
    assert message[0] == '+' && message[|message| - 1] == note[|note| - 1];
    TrimUnchanged(message);
    TransactionRequest(message, timestamp, server);
    ParseAmountOfToken(d, suffix);
  }

  /** `15k ăn sáng` records an expense of fifteen thousand with the note `ăn sáng`;
      when the server accepts it, the bot confirms and then shows the menu. */
  lemma ExampleBreakfast(message: string, timestamp: string, server: Server)
    requires message == "15k ăn sáng"
    ensures OnText(message, timestamp, server).requests
            == [RecordTransaction(Finite(15000.0), "Tiền ra", "ăn sáng", timestamp)]
    ensures Accepted(server(RecordTransaction(Finite(15000.0), "Tiền ra", "ăn sáng", timestamp)))
            ==> OnText(message, timestamp, server).replies
                == [Recorded(Finite(15000.0), "Tiền ra", "ăn sáng", timestamp), ActionMenu(Keyboard)]
  {
    var d, note := "15", "ăn sáng";
    assert message == d + "k" + " " + note;
    OnTextRecordsExpense(d, "k", note, timestamp, server);
    FifteenValue(d);
    Scaled(PointDecimal(WithoutCommas(d)), 15.0, 1000.0);
  }

  /** The income example of the usage help, `+7 triệu tiền lương`, records an income
      of 7, not of seven million: the space before `triệu` ends the amount token, and
      `triệu` becomes the first word of the note. */
  lemma ExampleSalary(message: string, timestamp: string, server: Server)
    requires message == "+7 triệu tiền lương"
    ensures OnText(message, timestamp, server).requests
            == [RecordTransaction(Finite(7.0), "Tiền vào", "triệu tiền lương", timestamp)]
  {
    var d, note := "7", "triệu tiền lương";
    SalaryParts(message, d, note);
    SevenValue(d);
    assert Times(PointDecimal(WithoutCommas(d)), Multiplier("")) == Finite(7.0);
    OnTextRecordsIncome(d, "", note, timestamp, server);
    assert OnText(message, timestamp, server).requests == [RecordTransaction(Finite(7.0), Label(MoneyIn), note, timestamp)];
  }

  lemma SalaryParts(message: string, d: string, note: string)
    requires message == "+7 triệu tiền lương" && d == "7" && note == "triệu tiền lương"
    ensures IsAmountChars(d) && d != [] && note != [] && NoLineTerminators(note) && !IsWhitespace(note[|note| - 1])
    ensures message == "+" + d + "" + " " + note
  {
    SalaryNote(note);
    assert message == "+" + d + "" + " " + note;
  }

  lemma SalaryNote(note: string)
    requires note == "triệu tiền lương"
    ensures note != [] && NoLineTerminators(note) && !IsWhitespace(note[|note| - 1])
  {
  }


  /** When the amount `<digits><k or nothing>` is followed by white space other than
      a plain space and then a word, the word joins the amount token: the recorded
      amount is the digits alone, without the factor of a thousand, and the note
      starts after the next plain space. */
  lemma OnTextOtherSeparator(d: string, suffix: string, sep: char, word: string, note: string, timestamp: string, server: Server)
    requires IsAmountChars(d) && d != []
    requires suffix == "" || suffix == "k" || suffix == "K"
    requires IsWhitespace(sep) && !IsLineTerminator(sep) && sep != ' '
    requires word != [] && NoLineTerminators(word) && ToLowerChar(word[|word| - 1]) != 'k'
    requires forall i :: 0 <= i < |word| ==> word[i] != ' ' && word[i] != 't' && word[i] != 'T' && !IsDigitOrPoint(word[i])
    requires note != [] && NoLineTerminators(note) && !IsWhitespace(note[|note| - 1])
    ensures OnText(d + suffix + [sep] + word + " " + note, timestamp, server).requests
            == [RecordTransaction(PointDecimal(WithoutCommas(d)), Label(MoneyOut), note, timestamp)]
  {
    var message := d + suffix + [sep] + word + " " + note;
    ClassifyOtherSeparator(d, suffix, sep, word, note);
    assert message[0] == d[0] && IsAmountChar(d[0]);
    assert message[|message| - 1] == note[|note| - 1];
    TrimUnchanged(message);
    TransactionRequest(message, timestamp, server);
    SeparatorAndWord(d, suffix, sep, word);
  }

  /** `15k<no-break space>ăn sáng` records fifteen, with the note `sáng`. */
  lemma ExampleNoBreakSpace(message: string, timestamp: string, server: Server)
    requires message == "15k\U{00A0}ăn sáng"
    ensures OnText(message, timestamp, server).requests
            == [RecordTransaction(Finite(15.0), "Tiền ra", "sáng", timestamp)]
  {
    var d, word, note := "15", "ăn", "sáng";
    assert message == d + "k" + ['\U{00A0}'] + word + " " + note;
    OnTextOtherSeparator(d, "k", '\U{00A0}', word, note, timestamp, server);
    FifteenValue(d);
  }

  /** The amount recorded can be negative: in `,<tab>-3k x` the tab satisfies the
      pattern's white space, `split(' ')` makes `,<tab>-3k` the amount, and
      `parseFloat` reads minus three thousand from it. */
  lemma ExampleNegativeRecorded(message: string, timestamp: string, server: Server)
    requires message == ",\t-3k x"
    ensures OnText(message, timestamp, server).requests
            == [RecordTransaction(Finite(-3000.0), "Tiền ra", "x", timestamp)]
  {
    var d, word, note := ",", "-3k", "x";
    NegativeParts(message, d, word, note);
    ClassifyOtherSeparator(d, "", '\t', word, note);
    TrimUnchanged(message);
    TransactionRequest(message, timestamp, server);
    ExampleNegative(d + "" + ['\t'] + word);
  }

  lemma NegativeParts(message: string, d: string, word: string, note: string)
    requires message == ",\t-3k x" && d == "," && word == "-3k" && note == "x"
    ensures IsAmountChars(d) && d != [] && ' ' !in word && NoLineTerminators(word) && NoLineTerminators(note)
    ensures message == d + "" + ['\t'] + word + " " + note && d + "" + ['\t'] + word == ",\t-3k"
    ensures message != [] && NoLineTerminators(message) && Unpadded(message)
  {
    assert message == d + "" + ['\t'] + word + " " + note;
  }
}
