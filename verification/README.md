# A verified model of a minimal JSON-object validator

The system checks whether a text is a JSON object of a very small grammar: `{}`, `{"k":"v"}`,
`{"k":"v","k2":"v2"}`, and so on. It works in two stages.

- **The tokenizer** (`Tokenizer::get_next` / `get_string`) is a cursor over the input. Each call
  skips whitespace, one character at a time. It then maps `{`, `}`, `:` and `,` to single tokens and
  reads a `"`-delimited string literal with no escape handling. A call yields no token when the input
  is used up, when it meets an unknown character, or when a string never closes.
- **The parser** (`Parser::parse`) is a five-state machine: `Default`, `Object`, `Key`, `Value`,
  `ExpectingKey`.
  - If there is no first token, the input is rejected with `Empty`.
  - Otherwise each token makes one transition, and the first illegal transition ends the run with
    its own error.
  - When the tokens run out, the input is accepted only in state `Default`; any other state gives
    `InvalidObject`.

The Dafny project has five files:

- `wrappers.dfy`: `Option` and `Result`.
- `json_tokenizer.dfy` (module `JsonTokenizer`):
  - `Next`, the pure one-call lexer from (text, cursor) to (token option, new cursor), with
    `ScanString` for the string literal;
  - `Tokens`, the stream of tokens a caller pulls;
  - the methods `GetNext` and `GetString`, which mirror the source loops and are proved equal to
    `Next` and `ScanString`.
- `json_parser.dfy` (module `JsonParser`):
  - the transition function `Step` and the table `Transitions` it is checked against;
  - `Parse`, a recursive loop on `|s| - pos`;
  - `Fold`, the same transitions as a fold over the token list;
  - properties of the verdict;
  - the method `ParseLoop`, which mirrors the source loop.
- `parser_examples.dfy` (module `ParserExamples`): the source's unit tests and the grammar's
  deliberate gaps, as lemmas about concrete inputs.
- `utf8_cursor.dfy` (module `Utf8Cursor`): the cursor as the source writes it. That cursor filters
  characters by their UTF-8 byte offset against a counter that counts characters. See Findings.

Modelling choices:

- The input is a `string` (`seq<char>`). The cursor is a character index.
- A fresh tokenizer starts at position 0, and the parser starts in `Default`. Both constructors are
  folded into `Parse`.
- The success payload is the unit value `()`.
- Termination of the parse loop is proved: each call that yields a token moves the cursor forward,
  and the loop's measure is `|s| - pos`.

The code compares a character counter against byte offsets. `JsonTokenizer` is the code's
behaviour on ASCII input, and `Utf8Cursor` is its behaviour on all input. The unquoted-key example
fails with `InvalidObject`.

## Model

| member | source | states |
|---|---|---|
| JsonTokenizer.IsWhitespace | src/json_tokenizer.rs:33 | Rust's `char::is_whitespace`, the Unicode White_Space set. None of `{`, `}`, `"`, `:`, `,` is whitespace, so skipping never swallows a character the lexer classifies. |
| JsonTokenizer.WhitespaceOfAscii | src/json_tokenizer.rs:33 | Among ASCII characters, exactly space, tab, line feed, vertical tab, form feed and carriage return are skipped. |
| JsonTokenizer.ScanString | src/json_tokenizer.rs:50-77 | The literal ends at the first quote after the cursor. The token is the accumulated text plus exactly the quote-free characters before that quote, and the cursor stops just past it. With no later quote there is no token, the rest of the input is quote-free, and the cursor is at the end. |
| JsonTokenizer.Next | src/json_tokenizer.rs:22-48 | The cursor never moves back and never passes the end of the input. A call that yields a token moves it strictly forward. At or past the end of the input there is no token and the cursor stays where it was. |
| JsonTokenizer.Tokens | src/json_tokenizer.rs:22-48 | The tokens pulled until the first empty call. There are never more of them than characters left. |
| JsonTokenizer.NextSkipsWhitespace | src/json_tokenizer.rs:30-35 | Whitespace in front of the cursor changes neither the token nor the cursor that a call ends with. |
| JsonTokenizer.NextAtEnd | src/json_tokenizer.rs:30-47 | Empty or all-whitespace remaining input yields no token, with the cursor at the end. |
| JsonTokenizer.NextPunctuation | src/json_tokenizer.rs:37-42 | After whitespace, `{`, `}`, `:` and `,` yield OpenObject, CloseObject, KeyValueSeparator and FieldSeparator, with the cursor one past that character. |
| JsonTokenizer.NextUnknown | src/json_tokenizer.rs:43 | After whitespace, any other non-quote character yields no token and is consumed itself. |
| JsonTokenizer.NextString | src/json_tokenizer.rs:37-73 | After whitespace, a quote with a later quote yields exactly the characters between the two, with no escape processing, and the cursor is just past the closing quote. |
| JsonTokenizer.ScanStringToQuote | src/json_tokenizer.rs:61-73 | The string scan stops at the first quote and yields the text before it. |
| JsonTokenizer.NextUnterminated | src/json_tokenizer.rs:61-76 | A quote with no later quote yields no token and moves the cursor to the end of the input. |
| JsonTokenizer.NextShift | src/json_tokenizer.rs:22-48 | A call depends only on the text from the cursor on: any prefix only shifts the resulting cursor. |
| JsonTokenizer.NextIgnoresLeadingWhitespace | src/json_tokenizer.rs:33-35 | On `ws ++ s` the first call yields the same token as on `s`, with the cursor moved by `|ws|`. |
| JsonTokenizer.NextExtend | src/json_tokenizer.rs:22-48 | Once a call yields a token, appending text to the input does not change that call. |
| JsonTokenizer.TokensShift | src/json_tokenizer.rs:22-48 | The token stream from a cursor does not depend on the text before it. |
| JsonTokenizer.TokensExtend | src/json_tokenizer.rs:22-48 | The tokens of a text are a prefix of the tokens of any extension of it. |
| JsonTokenizer.NextOfRender | src/json_tokenizer.rs:37-73 | A token written out (a quote-free literal in quotes, or its punctuation character) is lexed back as itself, whatever follows. |
| JsonTokenizer.TokensOfPad | src/json_tokenizer.rs:33-35 | Whitespace in front of a text does not change its token stream. |
| JsonTokenizer.TokensOfPaddedToken | src/json_tokenizer.rs:22-48 | Whitespace then a written-out token: that token comes first, then the tokens of the rest. |
| JsonTokenizer.TokensOfLayoutThen | src/json_tokenizer.rs:22-77 | Lexing quote-free tokens laid out with any whitespace gives exactly those tokens back, followed by the tokens of whatever text follows. |
| JsonTokenizer.GetNext | src/json_tokenizer.rs:22-48 | The mutable-cursor loop computes the same token and cursor as `Next`. |
| JsonTokenizer.GetString | src/json_tokenizer.rs:50-77 | The accumulating loop with its end-found flag computes the same token and cursor as `ScanString`. |
| JsonParser.Step | src/json_parser.rs:57-77 | A transition never produces `Empty`. It reaches `Default` exactly when `}` arrives in `Object`. |
| JsonParser.StepFollowsTable | src/json_parser.rs:57-77 | Every (state, token) pair listed in the transition table moves to its entry. Every other pair is rejected with its token's error: `}` gives InvalidObject, a string InvalidString, `:` InvalidKeyValueSeparator, `,` InvalidFieldSeparator. OpenObject is legal in every state. |
| JsonParser.Run | src/json_parser.rs:56-86 | The loop from a cursor never reports `Empty`. It terminates on the measure `|s| - pos`. |
| JsonParser.Parse | src/json_parser.rs:48-87 | The verdict is `Empty` exactly when the first call on a fresh cursor yields no token. |
| JsonParser.Fold | src/json_parser.rs:56-80 | Folding the transitions never gives `Empty`. A non-empty stream that folds to `Default` ends with `}`. |
| JsonParser.RunIsFold | src/json_parser.rs:56-86 | The loop from a cursor is the fold of the transitions over the tokens pulled from it, followed by the final-state check. |
| JsonParser.ParseIsFold | src/json_parser.rs:48-87 | Parsing is `Empty` on an empty token stream. Otherwise it is the final-state check applied to the fold over the whole stream from `Default`. |
| JsonParser.ParseVerdict | src/json_parser.rs:82-86 | An input is accepted if and only if it has tokens and they fold legally to `Default`. Legal transitions ending in any other state give InvalidObject. |
| JsonParser.FoldAppend | src/json_parser.rs:56-80 | Folding a concatenation is folding the first part, then the second from where the first ended. An error in the first part is the result, whatever follows. |
| JsonParser.ParseBlank | src/json_parser.rs:50-54 | The empty input and whitespace-only input are rejected with `Empty`. |
| JsonParser.ParseAcceptedShape | src/json_parser.rs:56-86 | An accepted input has a token stream that opens with `{` and closes with `}`. |
| JsonParser.ParseStopsAtFirstError | src/json_parser.rs:56-80 | After the first illegal transition no more tokens are read: the verdict is that transition's error, and appended text cannot change it. |
| JsonParser.OpenObjectResets | src/json_parser.rs:58 | An opening brace moves to `Object` from whatever state the run has reached. Everything before it is forgotten. |
| JsonParser.FoldObjectTokens | src/json_parser.rs:57-77 | The tokens of `{"k1":"v1","k2":"v2",...}` take the machine from `Default` back to `Default`. |
| JsonParser.ParseOfLayout | src/json_parser.rs:48-87 | Quote-free tokens laid out with any whitespace, followed by a tail that yields no token, get the verdict of the fold over exactly those tokens. |
| JsonParser.ParseAcceptsObjects | src/json_parser.rs:48-87 | Every object of the grammar with quote-free keys and values is accepted. This holds with any whitespace between its tokens, and with any tail from which the lexer gets no token. |
| JsonParser.ParseLoop | src/json_parser.rs:48-87 | The loop with mutable state and cursor, including its early returns, computes the verdict `Parse` defines. |
| ParserExamples.TokensBySteps | src/json_tokenizer.rs:22-77 | A text made of whitespace and written-out tokens at the given cuts lexes to those tokens, followed by the tokens of the rest. |
| ParserExamples.EmptyObjectAccepted | src/json_parser.rs:94-105 | `{}` is accepted. |
| ParserExamples.EmptyStringRejected | src/json_parser.rs:107-118 | The empty string is rejected with `Empty`. |
| ParserExamples.TrailingCommaRejected | src/json_parser.rs:120-131 | `{"key": "value",}` is rejected with InvalidObject, because `}` arrives in `ExpectingKey`. |
| ParserExamples.UnquotedKeyRejected | src/json_parser.rs:133-148 | The object with the unquoted key `key2` is rejected with InvalidObject: `k` yields no token while the state is `ExpectingKey`. |
| ParserExamples.KeyValuePairAccepted | src/json_parser.rs:150-161 | `{"key": "value"}` is accepted. |
| ParserExamples.MultiplePairsAccepted | src/json_parser.rs:163-178 | The multi-line object with two pairs, followed by whitespace, is accepted. |
| ParserExamples.UnterminatedStringRejected | src/json_tokenizer.rs:72-76 | `{"key": "value}` is rejected with InvalidObject: the unterminated literal ends the stream in state `Value`. |
| ParserExamples.RepeatedOpenBraceAccepted | src/json_parser.rs:58 | `{{}` is accepted, because an opening brace is legal in every state. |
| ParserExamples.MissingCommaAccepted | src/json_parser.rs:63-66 | `{"a":"b" "c":"d"}` is accepted, because a string in `Object` starts a new key without a comma. |
| ParserExamples.TrailingGarbageAccepted | src/json_parser.rs:82-86 | `{}x` is accepted: the unknown `x` ends the stream in `Default`. |
| ParserExamples.NonAsciiKeyAccepted | src/json_tokenizer.rs:50-77 | `{"é":"a"}` is accepted by the character cursor. |
| Utf8Cursor.Utf8Width | src/json_tokenizer.rs:27 | A character takes one to four bytes in UTF-8, and exactly one when it is below U+0080. |
| Utf8Cursor.OffsetOfAscii | src/json_tokenizer.rs:27 | On ASCII text the byte offset of each character is its index. |
| Utf8Cursor.Resume | src/json_tokenizer.rs:25-28 | The filtered iterator resumes at the first character whose byte offset reaches the counter. Every character before it has a smaller offset. |
| Utf8Cursor.ResumeOfAscii | src/json_tokenizer.rs:25-28 | On ASCII text the iterator resumes at the character whose index is the counter. |
| Utf8Cursor.ScanAsWritten | src/json_tokenizer.rs:61-76 | The string loop as written, over characters from the resume point with the counter bumped once per character. When it yields a token, the counter has moved forward and stays within the byte length of the input. |
| Utf8Cursor.ClassifyAsWritten | src/json_tokenizer.rs:30-47 | The whitespace-skipping and classifying loop as written, with the quote case resuming the string loop by byte offset from the counter. When it yields a token, the counter has moved forward and stays within the byte length of the input. |
| Utf8Cursor.RunAsWritten | src/json_parser.rs:56-86 | The parse loop over the as-written cursor never reports `Empty`. It terminates on the byte length minus the counter. |
| Utf8Cursor.ParseAsWritten | src/json_parser.rs:48-87 | `Parser::parse` over the as-written cursor is `Empty` exactly when the first as-written call yields no token. |
| Utf8Cursor.NextAsWritten | src/json_tokenizer.rs:22-48 | A call of the byte-offset cursor that yields a token moves the counter forward, and the counter stays within the byte length of the input. |
| Utf8Cursor.ParseAsWrittenOfAscii | src/json_tokenizer.rs:22-77 | On ASCII input the validator over the byte-offset cursor gives the same verdict as `JsonParser.Parse`. |
| Utf8Cursor.NonAsciiKeyAsWritten | src/json_tokenizer.rs:22-77 | On `{"é":"a"}` the byte-offset cursor reads the closing quote of the key a second time and rejects the input with InvalidString. |

## Left out

- `src/main.rs`: reading the command line and the file, and printing the verdict. This is I/O around `parse`.
- The `Display` and `Error` impls of `ParserError` (src/json_parser.rs:20-26). They hold a constant message and no logic.
- `JsonObject` from the `json_object` module: that module is not part of this model. The success payload is `()`.
- `Tokenizer::new` and `Parser::new` are not separate members. Their initial values (cursor 0, state `Default`) appear directly in `Parse` and `ParseLoop`.
- JsonTokenizer.IsWhitespace: Rust's `char::is_whitespace` is written out as the fixed list of code points with the Unicode White_Space property. It is not derived from Unicode tables.
- JsonTokenizer.Next: it uses a character index for the cursor. The source compares a character counter with byte offsets, and the two agree only on ASCII input. `Utf8Cursor` models the source as written, and `Utf8Cursor.ParseAsWrittenOfAscii` proves that the two agree on ASCII input.
- Utf8Cursor.ScanAsWritten: like `NextAsWritten`, its contract states only progress and bounds.
- Utf8Cursor.ClassifyAsWritten: like `NextAsWritten`, its contract states only progress and bounds.
- Utf8Cursor.NextAsWritten: its contract states only progress and bounds. Its exact behaviour is tied to the character model through the ASCII lemmas and the one non-ASCII counterexample.
- The `usize` cursor overflowing: the cursor is a `nat`. It never exceeds the input's byte length, which fits in `usize`.

## Findings

| source | as written | input that shows it | evidently intended | confidence | as-written member | corrected member |
|---|---|---|---|---|---|---|
| src/json_tokenizer.rs:25-31,53-62 | The cursor goes up by one per character, but each call resumes at the first character whose UTF-8 byte offset reaches it. After a multi-byte character the resume lands one or more characters too early, so characters are read again. | `{"é":"a"}`: the closing quote of the key is read again as an opening quote, `:"` becomes a second string, and a string in state `Key` gives InvalidString. | The cursor advances over characters, and `{"é":"a"}` is accepted like any other one-pair object. | not executed | Utf8Cursor.NonAsciiKeyAsWritten | ParserExamples.NonAsciiKeyAccepted |
