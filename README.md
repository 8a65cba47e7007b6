# Expense bot: amount parsing, message classification and handler decisions

The bot is a Telegram chat bot that keeps a ledger behind a
web hook. A user writes `15k ăn sáng` to record an expense of fifteen thousand đồng
(note `ăn sáng`), `+7triệu lương` to record an income, or `tổng chi`, `tổng thu` or
`tổng còn lại` to see this month's expenses, income or balance. After a recorded
transaction the bot shows an inline keyboard whose buttons ask for the same three
summaries or delete all data.

This project models the bot's decision logic as pure Dafny functions and proves what
it promises:

- `JsText` models the JavaScript string operations the bot uses. It covers `toLowerCase`
  on the characters involved, `endsWith`, `includes`, `replace` of the first occurrence,
  the global comma removal, `trim`, `split(' ')` and `join(' ')`, and the ECMAScript
  `\s` and line-terminator classes.
- `JsNumber` models numbers as NaN, an exact real or a signed infinity, and `parseFloat`
  as reading the longest decimal-literal prefix. It also gives `PointDecimal`, a
  reference reading of a string of digits and points, and proves `parseFloat` agrees
  with it.
- `Amount` models `parseAmount` with its three paths (`k`, `triệu`, neither). It proves
  that an amount token of the message pattern is read, commas removed, as a decimal
  number (the whole part before the first point, the fraction up to the second) times
  the factor of its suffix. It also proves the documented examples and the quirks.
- `Classifier` models what a line is: the three case-insensitive summary phrases, the
  expense and income patterns decided by explicit character classes, and the amount
  and note split on the first space.
- `Gateway` models `callApi`, which collapses every network or JSON failure into one
  error, and the reading of `status`, `total` and `message` from the answer.
- `Controller` models the handlers. Each returns the requests it sends to the web hook
  and the replies it sends to the chat. What the server answers to each request is a
  parameter.

## Model

| member | source | states |
|---|---|---|
| Amount.ParseAmount | index.js:8-15 | on the path without a suffix the result is NaN or a non-negative finite number |
| Amount.ParseAmountOfToken | index.js:8-15 | an amount token `[\d,.]*` followed by `k`, `K`, `triệu`, `TRIỆU` or nothing is read, commas removed, by the reference decimal reading, times 1000, 1000, 1000000, 1000000 or 1 |
| Amount.PlainToken | index.js:14 | a token without suffix keeps only digits and points and is read by the reference decimal reading |
| Amount.PlainPath | index.js:14 | on the path without a suffix the factor is 1 and `parseFloat` of the kept digits and points equals the reference reading |
| Amount.TokenRange | index.js:8-15 | the value of any amount token is NaN or a non-negative finite number, and NaN when the token has no digit, whatever its suffix |
| Amount.WithoutCommas | index.js:10 | removing commas from a token of `[\d,.]` leaves exactly its digits and points |
| Amount.KPath | index.js:9-10 | a token ending in `k` or `K` goes down the thousands path and `parseFloat` gets the token without its first `k` and without commas, with a trailing `K` kept |
| Amount.TrieuPath | index.js:11-12 | a token ending in `triệu` or `TRIỆU` goes down the millions path and `parseFloat` gets the token without `triệu` and commas, trimmed, with `TRIỆU` kept |
| Amount.TokenBranch | index.js:9-13 | the lower-case `k` test comes first: a token with `k`/`K` is on the thousands path, one with `triệu`/`TRIỆU` on the millions path, one without suffix on the plain path |
| Amount.ExampleThousands | index.js:9-10 | `15k` is 15000 |
| Amount.ExampleCommas | index.js:10 | `1,500k` is 1500000 |
| Amount.ExampleMillions | index.js:11-12 | `7triệu` and `7TRIỆU` are 7000000 |
| Amount.ExampleThousandsSeparatorPoint | index.js:14 | `200.000` is 200: a point is a decimal point |
| Amount.ExampleNoDigits | index.js:10-14 | `,`, `.` and `.k` are NaN, not an exception |
| Amount.LostSuffix | index.js:8-15 | a token in which a `k` suffix is followed by other letters loses the factor of a thousand and is read as its digits and points |
| Amount.ExampleNegative | index.js:9-10 | `,<tab>-3k` is minus three thousand: `parseFloat` skips the tab and reads the sign |
| Amount.ExampleInfinite | index.js:9-10 | `,<tab>Infinityk` is positive infinity |
| Amount.SuffixListed | index.js:165 | a string is one of the pattern's suffixes or empty exactly when it is one of the five cases the lemmas split on |
| Amount.SeparatorAndWord | index.js:8-15 | the token `<digits><k or nothing><white space><word>` is read as the digits alone |
| JsNumber.ParseFloatOfPointDecimal | index.js:10-14 | `parseFloat` of digits and points, followed by nothing or by a character that stops a literal, equals the reference reading (whole part before the first point, fraction up to the second) |
| JsNumber.PointDecimal | index.js:14 | the reference reading is NaN or non-negative, and NaN when there is no digit |
| JsNumber.DecimalValue | index.js:10-14 | the value of `whole.frac` lies between the whole part and the whole part plus one |
| JsText.ToLowerAppend | index.js:9-11 | lower-casing distributes over concatenation |
| JsText.JoinSplit | index.js:180 | joining the parts of `split(sep)` with `sep` gives the string back |
| JsText.SplitAtFirst | index.js:179 | the first part of `split(' ')` is the text before the first space, and the other parts are the split of the rest |
| JsText.FilterAppend | index.js:10-14 | the global character removal distributes over concatenation |
| Classifier.Classify | index.js:165-197 | a transaction's amount never holds a space |
| Classifier.MatchesDetailsIffShape | index.js:165 | the direct check of the amount run, the optional suffix and the white space agrees with the regular expression read as "some split of the line exists" |
| Classifier.ClassifySummary | index.js:167-176 | a summary is chosen exactly when the line is its phrase, letter case aside |
| Classifier.ClassifyExpense | index.js:165-183 | an expense is chosen exactly when the line has the expense shape |
| Classifier.ClassifyIncome | index.js:166-190 | an income is chosen exactly when the line is `+` followed by the expense shape |
| Classifier.ClassifyInvalid | index.js:191-197 | the usage help is chosen exactly when the line matches no phrase and neither transaction shape |
| Classifier.PatternsDisjoint | index.js:165-169 | the expense shape, a leading `+` and the summary phrases exclude each other |
| Classifier.UnbrokenLineIsInvalid | index.js:165-166 | a line without white space, such as a bare `15k`, is no command |
| Classifier.SplitOnFirstSpace | index.js:178-180 | amount, one space and note give back the details when they hold a space; otherwise the amount is everything and the note empty; the amount extends every space-free prefix |
| Classifier.TransactionParts | index.js:177-190 | a transaction's amount starts with the whole `[\d,.]` run and has no space, and amount, space and note rebuild the details |
| Classifier.ClassifyToken | index.js:177-183 | `<amount token> <note>` is an expense of that token with the note as written |
| Classifier.ClassifyIncomeToken | index.js:184-190 | `+<amount token> <note>` is an income of that token with the note as written |
| Classifier.ClassifyOtherSeparator | index.js:165-179 | with a tab or no-break space after the amount, the line is still an expense but the next word joins the amount |
| Gateway.CallApi | index.js:50-57 | the result is the one failure exactly when there was no answer or the body is not JSON, and otherwise the parsed body |
| Gateway.StatusIgnored | index.js:50-57 | answers that differ only in their HTTP status give the same result |
| Gateway.MessageOrUnknown | index.js:77 | the message shown is the server's `message` when it is truthy, and `Unknown error` otherwise |
| Gateway.Total | index.js:91 | a total is read exactly when `total` is a number, and it is that number |
| Controller.HandleTransaction | index.js:60-82 | one request records amount, type, note and time; success gives the confirmation then the menu, an unreadable answer the generic error alone, any other answer the server's message alone |
| Controller.MonthlyReply | index.js:88-105 | the monthly total is shown when the answer is a success with a number total, the server's message when it is readable otherwise, the generic error when it is unreadable |
| Controller.RemainingReply | index.js:106-128 | the balance, income minus expense, is shown exactly when both answers are successes with number totals; otherwise one fixed failure or the generic error, never a partial result |
| Controller.HandleSummary | index.js:85-133 | each summary action sends its queries and one reply; any other action sends nothing |
| Controller.DeleteReply | index.js:145-151 | deletion is confirmed exactly when the server says success; otherwise one failure or the generic error |
| Controller.OnCallbackQuery | index.js:136-158 | `deleteAllData` sends the delete request and one reply; any other data goes to the summary handler |
| Controller.ButtonsAskServer | index.js:24-47 | every button of the menu sends at least one request and gets exactly one reply, never the menu |
| Controller.UnknownActionSilent | index.js:136-158 | unknown button data sends no request and no reply |
| Controller.FirstLine | index.js:161 | `/(.+)/` captures the run that starts after the leading line terminators and stops at the next one or at the end; it is non-empty and holds no terminator; no match when the message is all terminators |
| Controller.OnTextShape | index.js:161-198 | a message gives at most two requests and two replies; two replies are a confirmation then the menu after an accepted record; no line gives nothing; no request means the usage help |
| Controller.LineShape | index.js:171-197 | a trimmed line always gets one or two replies; two are a confirmation then the menu after an accepted record; a line without a request gets the usage help alone |
| Controller.OnTextUsageHelp | index.js:191-197 | a message gets the usage help alone exactly when its trimmed first line is no command |
| Controller.BareAmountGetsHelp | index.js:163-197 | a one-line message without white space gets the usage help and no request |
| Controller.ServerDown | index.js:50-158 | with the server unreachable, every request made for a message or a button press ends in the generic error alone |
| Controller.SummaryRequest | index.js:171-176 | a trimmed line that is a summary phrase is handled exactly as `handleSummary` with its action: `tổng chi` sends the one query for the monthly expenses and replies with that total, `tổng thu` the one query for the monthly income, `tổng còn lại` queries expenses then income and replies with the remainder |
| Controller.ExampleTotalExpense | index.js:167-172 | `Tổng Chi`, matched regardless of letter case, sends the monthly-expense query and replies with its total |
| Controller.TransactionRequest | index.js:177-190 | a trimmed line classified as a transaction is handled exactly as `handleTransaction` with the parsed amount, its type and its note: the one request recording it, and that handler's replies |
| Controller.OnTextRecordsExpense | index.js:177-183 | `<amount token> <note>` is handled as `handleTransaction` of an expense of the token's value with the note as written |
| Controller.OnTextRecordsIncome | index.js:184-190 | `+<amount token> <note>` is handled as `handleTransaction` of an income of the token's value with the note as written |
| Controller.ExampleBreakfast | index.js:177-183 | `15k ăn sáng` records an expense of 15000 with note `ăn sáng`, and when the server accepts it the replies are the confirmation then the menu |
| Controller.ExampleSalary | index.js:184-190 | the help's own example `+7 triệu tiền lương` records an income of 7 with note `triệu tiền lương` |
| Controller.OnTextOtherSeparator | index.js:165-183 | with a tab or no-break space after the amount the factor of a thousand is lost and the note starts after the next space |
| Controller.ExampleNoBreakSpace | index.js:177-183 | `15k`, a no-break space and `ăn sáng` records 15 with note `sáng` |
| Controller.ExampleNegativeRecorded | index.js:165-183 | `,<tab>-3k x` records an expense of minus three thousand with note `x` |

## Left out

- The Telegram client, polling and `bot.sendMessage` are not modelled. The handlers return the replies they send, as tagged values with their payloads and not as the Markdown text with emoji. A failing `sendMessage` is not modelled.
- `fetch` and the web hook are not modelled. What the server answers to each request is a parameter, `Server`.
- `dotenv` and the reading of `WEBHOOK_URL` and `WEBHOOK_URL_V2` from the environment are not modelled. So are the URL objects and their query strings: a request is its action or its four fields. A malformed `WEBHOOK_URL` throwing outside the `try` of `handleTransaction` is not modelled.
- `console.error` and `console.log` are not modelled.
- `toLocaleString('vi-VN')` is not modelled. Replies carry the numbers, not their grouped rendering.
- The clock is not modelled: the timestamp is a parameter, and the month number of the summary replies is left out.
- IEEE-754 rounding is not modelled: finite numbers are exact reals, so `parseFloat` and the products by 1000 and 1000000 are exact. Negative zero is not distinguished.
- Strings are sequences of code points. UTF-16 surrogate pairs are not modelled.
- `toLowerCase` is modelled on ASCII, Latin-1, the block U+1EA0 to U+1EFF and the Kelvin sign. Every other character, including the Vietnamese capitals Đ, Ă, Ơ, Ư, Ĩ and Ũ, is left unchanged. This does not change any test the bot makes: the phrases, `k` and `triệu` contain none of their lower-case forms.
- `Promise.all` is modelled as the two answers being given together, not as concurrency.
- A callback query without data, and the rendering of its `undefined` action, are not modelled. The action is always a string.
- JSON is modelled as parsed values. The serialisation of the query string and of the reply payloads is not modelled.
- The menu message text that accompanies the keyboard is not modelled. The reply carries the keyboard constant.
- `JsNumber.DecimalPrefix` multiplies by a power of ten only when the exponent is not zero. That is the same value, since 10 to the power 0 is 1.
- `Controller.OnText` and `Controller.HandleLine` have no contract of their own. What they do is stated by `OnTextShape`, `OnTextUsageHelp`, `LineShape`, `SummaryRequest`, `TransactionRequest`, `OnTextRecordsExpense`, `OnTextRecordsIncome` and `ServerDown`.
- `Classifier.Classify`'s contract states only that an amount has no space. The lemmas `ClassifySummary`, `ClassifyExpense`, `ClassifyIncome`, `ClassifyInvalid` and `TransactionParts` state the rest.

Behaviours of the code a reader may not expect:

- `callApi` does not look at the HTTP status: a 4xx or 5xx answer with a JSON body is handled like any other.
- There is no text command that deletes data, and there is no `/start` handler. Deletion is only a button.
- The expense pattern is tried before the income pattern. They exclude each other, so the order makes no difference.
- The amount and the note are split on the first plain space, not on the white space that the pattern matched. A tab or no-break space after the amount therefore joins the next word to the amount. This is `ClassifyOtherSeparator` and `ExampleNoBreakSpace`.
- A recorded amount can be negative or infinite. After a tab or no-break space the amount token runs into the next word, and `parseFloat` skips leading white space and reads a sign or `Infinity`: `,<tab>-3k x` records minus three thousand. This is `ExampleNegative`, `ExampleInfinite` and `ExampleNegativeRecorded`.
- The help's income example `+7 triệu tiền lương`, with a space before `triệu`, records 7 and not seven million. This is `ExampleSalary`.
