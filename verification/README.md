# Lexer with bracket grouping — a Dafny model

This project models `to_tokens`, the single-pass lexer of `src/main.rs`, and
the `Stream` cursor it reads from. The lexer turns a character sequence into
a tree of tokens — identifiers, number/string/boolean literals, punctuators,
and `Group` nodes for matched `()`, `[]`, `{}` — using an explicit stack of
open groups whose bottom entry is the sentinel `' '`. It returns the
top-level token list, or fails at the first malformed construct.

Layout:

- `tokens.dfy` (`Tokens`): `TokenTree`, `Lit`, `Bracket`, and `LexError`,
  one variant per `return Err` site of `to_tokens`.
- `chars.dfy` (`CharClass`): the character classes the dispatch uses, the
  opener/closer pairing, and `Span`, the maximal run of one class that every
  sub-scan consumes.
- `cursor.dfy` (`Cursor`): `Stream::new`/`next`/`peek` over an immutable
  cursor value.
- `lexer.dfy` (`Lexer`): the lexer as pure functions over the unread input:
  `Step` is one turn of the outer loop (with the sub-scan it starts), `Run`
  repeats it, `Finish` is the final pop, `Tokenize` is `to_tokens`.
- `properties.dfy` (`LexerProperties`): what each arm does, and the
  end-of-input and whitespace behaviour.
- `to_tokens.dfy` (`StreamLexer`): the loop as the source writes it, with
  `next`/`peek` and inner loops, proved equal to `Tokenize`.
- `printer.dfy` (`Printer`): printing token trees back to text, and the
  round trip `Tokenize(PrintSeq(ts)) == Ok(ts)` for every tree the lexer can
  produce, and the proof that everything the lexer returns is such a tree.
- `scenarios.dfy` (`Scenarios`): short worked inputs.
- `brackets.dfy` (`Brackets`): for whole inputs, the groups of each kind
  in the result against the brackets of that kind outside string literals.
- `worked_examples.dfy` (`WorkedExamples`): the inputs `x = 3.14;` and
  `foo(1, "bar", true)`, lexed in full.

The model follows the code's behaviour, including its quirks:

- An identifier that runs to the end of the input is dropped without an
  error. A number that does so is an error.
- Only `' '` and `'\n'` are skipped. A tab, `'\r'` or any non-ASCII
  character becomes a `Punct`.
- When the input ends with groups still open, the error names the innermost
  opener.
- The number sub-scan's `decimal` flag (src/main.rs:79) starts out `false`
  and is never set, so the error arm at line 84 is dead code: a second `.`
  is consumed like a digit, and the number fails later, at the float parse
  (line 88) or at the end of the input (line 95). `StreamLexer.DigitsAndDots`
  keeps the flag and the arm, and its contract shows the arm is never taken.
  `SecondDot` is kept as an error variant; `Lexer.Step` and `Lexer.Run`
  never report it.
- A closer that does not match reports the closer it found and the opener
  on top of the stack (src/main.rs:138-141), not the closer that would have
  matched that opener.

## Model

| member | source | states |
|---|---|---|
| Cursor.New | src/main.rs:165-170 | a new cursor is valid and has the whole input still unread |
| Cursor.Next | src/main.rs:172-176 | before the end it returns the character at the cursor and advances by exactly one, so the unread input loses exactly that character; at the end it returns nothing and leaves the cursor unchanged |
| Cursor.Peek | src/main.rs:178-180 | returns what `Next` would return, without moving the cursor; it is nothing exactly at the end of the input |
| CharClass.CloserOf | src/main.rs:117-121 | maps each opener to a closer character (`Brackets.SameKind` adds that the closer determines the opener's kind) |
| CharClass.KindOf | src/main.rs:129-134 | maps each opener to the bracket kind whose opener it is, so `KindOf` and `OpenerOf` are inverse |
| Lexer.Initial | src/main.rs:49 | the scan starts from one empty top-level scope, and that stack is well formed |
| Lexer.Extend | src/main.rs:51-56 | pushing tokens appends them, in order, to the innermost scope only; every other scope and the scope's opener stay unchanged, and the stack stays well formed |
| Lexer.Word | src/main.rs:104-108 | an identifier's text becomes `Bool(true)`/`Bool(false)` exactly when it is `true`/`false`, and otherwise an `Ident` carrying that text |
| Lexer.Step | src/main.rs:63-148 | one turn of the scan keeps the group stack well formed (non-empty, sentinel at the bottom, a real opener in every other entry) and consumes a non-empty prefix of the input; when it fails, an unmatched closer is reported against the sentinel, a mismatched closer against the opener it does not close, and never a "second `.`" or unclosed-group error |
| Lexer.Finish | src/main.rs:151-156 | the final pop succeeds exactly when only the top-level scope is left, and then returns its tokens; otherwise it fails naming the innermost open opener |
| Lexer.Run | src/main.rs:63-157 | every error of the whole scan is one a turn reports (as for `Step`) or an unclosed group naming a real opener; in particular the "second `.`" error never occurs |
| Lexer.Tokenize | src/main.rs:45-157 | `to_tokens` itself, from the top-level scope alone: every error it returns has the shape stated for `Run` |
| LexerProperties.StringStep | src/main.rs:65-73 | a string literal holds exactly the characters between its opening `"` and the next `"`, with no escape processing, and the scan resumes right after the closing quote |
| LexerProperties.UnterminatedStringFails | src/main.rs:67-74 | a `"` with no later `"` fails with the unterminated-string error |
| LexerProperties.NumberStep | src/main.rs:76-92 | a number consumes its leading digit and then digits and dots, stops before the first other character, and yields its text as a literal if that text parses as a float, or the parse error otherwise |
| LexerProperties.TrailingNumberFails | src/main.rs:80-95 | a number that runs to the end of the input fails with the end-of-input error |
| LexerProperties.TwoDotsFail | src/main.rs:79-95 | a number whose run of digits and dots holds two dots never yields a token: the scan fails with the parse error or the end-of-input error |
| LexerProperties.WordStep | src/main.rs:97-111 | an identifier starts with a letter or `_`, continues over letters, digits and `_`, stops before the first other character, and becomes `Bool(true)`, `Bool(false)` or `Ident` of its exact text |
| LexerProperties.TrailingWordDropped | src/main.rs:97-113 | an identifier that runs to the end of the input emits nothing and raises no error: the scan ends as if it were absent |
| LexerProperties.OpenerStep | src/main.rs:114 | an opener pushes an empty scope for itself and emits nothing |
| LexerProperties.CloserStep | src/main.rs:115-143 | a closer fails against the top-level sentinel and against a non-matching opener; otherwise it pops the innermost scope, wraps its tokens in order in a group of the opener's kind, appends that group to the enclosing scope, and leaves all other scopes untouched |
| LexerProperties.PunctStep | src/main.rs:145-147 | a character no other arm claims becomes exactly one `Punct` of that character |
| LexerProperties.OnlySkippedCharsVanish | src/main.rs:144-147 | spaces and newlines leave the state unchanged, and every other character other than an identifier start either fails or changes the stack |
| LexerProperties.WhitespaceOnly | src/main.rs:144 | a run of spaces and newlines leaves the scan state as it was, whatever the stack |
| LexerProperties.WhitespaceOnlyIsEmpty | src/main.rs:49-152 | input made only of spaces and newlines lexes to `Ok([])` |
| LexerProperties.LeadingCloserFails | src/main.rs:115-126 | a closer before any opener fails with the unmatched-close error against the sentinel |
| LexerProperties.UnclosedNamesInnermost | src/main.rs:151-153 | when the input runs out with groups open, the error names the innermost opener |
| StreamLexer.ScanString | src/main.rs:65-75 | the string inner loop over `next` returns the same error, or the same rest of the input and stack, as the functional step |
| StreamLexer.TakeWhile | src/main.rs:100-102 | the `peek`/`next` loop consumes exactly the longest prefix of the unread input whose characters satisfy the class, returns it, and leaves the cursor right after it |
| StreamLexer.DigitsAndDots | src/main.rs:78-95 | the number loop over `peek`/`next`, with the `decimal` flag and all three arms, fails with the end-of-input error exactly when digits and dots run to the end, and otherwise stops before the first other character with exactly the text read; it never takes the "second `.`" arm |
| StreamLexer.ScanNumber | src/main.rs:76-96 | the number sub-scan, with its float parse, agrees with the functional step |
| StreamLexer.ScanWord | src/main.rs:97-113 | the identifier inner loop over `peek`/`next` agrees with the functional step, including dropping an identifier at the end of the input |
| StreamLexer.Dispatch | src/main.rs:64-148 | the per-character dispatch agrees with the functional step on every character |
| StreamLexer.ToTokens | src/main.rs:45-157 | the loop-and-stream lexer returns exactly what `Tokenize` returns, on every input |
| Printer.TreeRoundTrip | src/main.rs:63-148 | lexing a printed token tree appends exactly that tree to the innermost scope and resumes with the text after it |
| Printer.SeqRoundTrip | src/main.rs:63-148 | lexing printed token trees appends exactly those trees, in order, to the innermost scope |
| Printer.RoundTrip | src/main.rs:45-157 | lexing the printed text of any trees the lexer can produce gives back exactly those trees |
| Printer.StepKeepsPrintable | src/main.rs:63-148 | every token a turn of the scan gathers is one `PrintTree` can write back: string contents without a quote, digit-led number text with at most one dot, identifier text that is neither `true` nor `false`, a punctuator no other arm claims, groups of such tokens |
| Printer.RunPrintable | src/main.rs:45-157 | every token list the scan returns consists of such tokens |
| Printer.LexedRoundTrips | src/main.rs:45-157 | printing what the lexer returns and lexing that text again gives the same result |
| Scenarios.OpenBrace | src/main.rs:151-153 | `{` alone fails naming the still-open `{` |
| Scenarios.StrayCloser | src/main.rs:115-126 | `)` alone fails against the top-level sentinel |
| Scenarios.OpenString | src/main.rs:65-74 | `"abc` with no closing quote fails as an unterminated string |
| Scenarios.QuotedString | src/main.rs:65-71 | `"a"` lexes to one string literal holding `a` |
| Scenarios.EmptyParens | src/main.rs:114-137 | `()` lexes to one empty `Paren` group |
| Scenarios.BlankInput | src/main.rs:144-156 | a space and a newline lex to no tokens |
| Scenarios.CrossedBrackets | src/main.rs:115-141 | `([)]` fails reporting the closer `)` against the opener `[` |
| Scenarios.TrailingIdentifier | src/main.rs:100-113 | `;b` lexes to just `;` |
| Scenarios.TrailingNumber | src/main.rs:80-95 | `x=12` fails at the end of the input |
| Scenarios.TwoDots | src/main.rs:79-88 | `1.2.;` fails at the float parse of `1.2.` |
| Scenarios.TabIsPunct | src/main.rs:144-147 | a tab lexes to a `Punct` |
| Brackets.SameKind | src/main.rs:117-134 | for an opener, its closer equals the closer of kind `k`, and the opener equals the opener of kind `k`, exactly when its kind is `k` |
| Brackets.StepConsumes | src/main.rs:63-148 | a turn of the scan passes over exactly one bracket outside string literals when the input starts with it, and none otherwise: a string literal hides its brackets, and a number or identifier holds none |
| Brackets.StepBalance | src/main.rs:114-143 | a closer of kind `k` adds exactly one group of kind `k` to the stack; an opener of kind `k` adds one open scope of that kind; every other turn changes neither count |
| Brackets.RunBalance | src/main.rs:63-157 | a successful scan returns the groups already built, plus one per closer of kind `k` left in the input; equally, plus one per open scope of kind `k` and per opener of kind `k` left in the input |
| Brackets.BracketsBecomeGroups | src/main.rs:45-157 | when lexing succeeds, the result holds, for each kind, exactly as many groups (nested ones included) as the input has openers of that kind outside string literals, and as many as it has closers of that kind outside string literals |
| WorkedExamples.Assignment | src/main.rs:45-157 | `x = 3.14;` lexes to `x`, `=`, the number `3.14` and `;` |
| WorkedExamples.Call | src/main.rs:45-157 | `foo(1, "bar", true)` lexes to `foo` followed by one parenthesised group holding `1`, `,`, `"bar"`, `,` and `true` |

## Left out

- `main`, the embedded `test.js` input and the printing of the result
  (src/main.rs:1-5): file embedding and console output. `Tokenize` takes the
  text as a parameter.
- The `f32` value of a number literal (src/main.rs:86-89): floating point.
  A `Num` literal carries its digit/dot text. Whether the parse succeeds is
  modelled as "the text has at most one `.`". That is the float grammar's
  verdict on digit-led digit/dot text with the float parser of current
  Rust toolchains (1.55 and later), where an out-of-range number parses to
  infinity rather than failing. Earlier parsers also refused some very long
  texts; the model does not follow them.
- The exact error-message strings and `Debug` formatting (src/main.rs:74,
  84, 88, 122-125, 138-141, 153): each error is a `LexError` variant that
  carries the characters the message mentions.
- The unused `ParseState` enum (src/main.rs:38-43) and the commented-out
  closure (src/main.rs:58-61).
- The `unreachable!()` arm (src/main.rs:133): the opener is known to be a
  bracket there, so `KindOf` is only defined for brackets.
- `usize` width of the cursor position: positions are unbounded naturals;
  an input long enough to overflow `usize` cannot be held in memory anyway.
- The cursor is an immutable value that `Next` returns advanced, instead of
  a struct mutated through `&mut self`.
- Brackets.BracketsBecomeGroups: counts groups against brackets for each
  kind, but does not tie each group to the positions of its own opener and
  closer. How groups nest is fixed by the per-turn lemmas
  (`LexerProperties.OpenerStep`, `LexerProperties.CloserStep`) and by the
  round trip through `Printer.PrintSeq`.
