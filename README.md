# Lexer of the `calculator` REPL, in Dafny

The calculator reads a line of input and turns it into a stream of tokens:
`EOF`, `NumValue` (an untyped number), `NumTypedValue` (a number with a width
suffix such as `u8`), `Plus`, `Equal` and `Space`. The lexer in
`src/main.rs` has two layers, and the model keeps both.

- **Classification** (`scanner.dfy`, module `Scanner`) is pure. It takes the text
  after the cursor and returns the token that starts there with its length, or
  an error naming the offending character:
  - `FindToken` dispatches on the first character. It takes the hexadecimal
    branch after `0x` when more text follows, and backs off to the lone `0` when
    the hexadecimal scan finds nothing.
  - `DecimalNumber` and `HexNumber` take the maximal run of `[0-9_]` or
    `[0-9a-fA-F_]` with `RunLength`.
  - `NumberMaybeWithSuffix` checks for a width suffix after the run.

  Next to the code there is a declarative account of what a token is:
  - `IsMaximalRun` says what a maximal run is.
  - `IsNumberLiteral` says what a literal is: a run, then either exactly one
    width suffix, or nothing when no suffix follows.
  - `IsLexeme` says, rule by rule, which token starts a text.

  Lemmas prove that the scanners return exactly what these describe, and that
  what they describe is unique.
- **The cursor** (`lexer.dfy`, module `Lexing`) is a class `Lexer` with the
  fields `prevEnd`, `curStart`, `curEnd` and `token`. `Advance` updates them in
  place. `Tokenize` is the caller's loop, which advances until the end of input
  or the first error. It is proved to record exactly `Scan(FindToken, text, 0)`,
  the token stream of the line. Lemmas prove three things about that stream:
  - It tiles the text.
  - It has one `EOF`, at the end, exactly when no error stops it first.
  - The contents of its tokens join up to the text they cover.

`examples.dfy` (module `Examples`) works through concrete lines: typed and
untyped literals, the hexadecimal back-off, the errors, the stream of `1+2`, and
the failed advance on `1#`.

Text is a sequence of characters. Every character a token consumes is ASCII, so
character positions and the byte offsets the source slices with coincide.

Design decisions where the model departs from the letter of the code:
- `Lexer.classify` holds the classifier that `Advance` applies. The constructor
  always sets it to `FindToken`, the function the source calls directly. Keeping
  it as a field lets the proofs about the loop rely on the classifier's progress
  guarantee (`MakesProgress`) instead of unfolding `FindToken`.
- The source tests the suffixes in the order `u8`, then `u64`/`u16`/`u32`, then
  `u128`/`u256`. The model keeps that order. `WidthSuffixUnique` proves that no
  suffix is a prefix of another, so the order cannot change the result.
- When `advance` fails, the code has already moved `prev_end` and `cur_start`
  to the old `cur_end`, and it keeps `cur_end` and `token`. So a failed call
  does not leave every field as it was. The model follows the code.

## Model

| member | source | states |
|---|---|---|
| Scanner.ErrorMessage | src/main.rs:169 | the message is `Invalid character: '`, the character, and a closing quote |
| Scanner.ErrorMessageInjective | src/main.rs:169 | different characters give different messages |
| Scanner.RunLength | src/main.rs:110-124 | the result is the length of the maximal run of the base's characters (`position`/`find` with `unwrap_or(len)`) |
| Scanner.MaximalRunUnique | src/main.rs:110-124 | a text has only one maximal run length |
| Scanner.StartsWithIsPrefix | src/main.rs:130-134 | the character-by-character `starts_with` test is the prefix relation |
| Scanner.WidthSuffixUnique | src/main.rs:128-140 | at most one width suffix starts any text, so the order of the tests does not matter |
| Scanner.WidthSuffixPrefixFree | src/main.rs:128-140 | no width suffix is a proper prefix of another |
| Scanner.NumberMaybeWithSuffix | src/main.rs:128-140 | the length never shrinks below the run nor exceeds the text, and an untyped result is exactly `(NumValue, n)` |
| Scanner.NumberMaybeWithSuffixFindsSuffix | src/main.rs:128-140 | the result is typed iff a width suffix follows the run, and then the characters added are that suffix (`n+2`, `n+3` or `n+4`) |
| Scanner.SuffixOfRun | src/main.rs:128-140 | a suffix counted after the run is one that starts the rest of the text |
| Scanner.NumberLiteralUnique | src/main.rs:110-140 | a text starts with at most one numeric literal of a given base |
| Scanner.DecimalNumber | src/main.rs:110-116 | the decimal literal fits in the text |
| Scanner.HexNumber | src/main.rs:119-124 | the hexadecimal literal fits in the text |
| Scanner.ScanIsLiteral | src/main.rs:110-140 | the maximal run followed by the suffix check is a numeric literal |
| Scanner.DecimalNumberIsLiteral | src/main.rs:110-116 | `get_decimal_number` returns `(tok, len)` iff the text starts with the decimal literal `(tok, len)` |
| Scanner.HexNumberIsLiteral | src/main.rs:119-124 | `get_hex_number` returns `(tok, len)` iff the text starts with the hexadecimal literal `(tok, len)` |
| Scanner.FindToken | src/main.rs:142-171 | `(EOF, 0)` exactly on empty text; any other token spans 1 to `|text|` characters; an error exactly when the first character starts no token, and it names that character |
| Scanner.FindTokenIsLexeme | src/main.rs:142-171 | `find_token` returns `(tok, len)` iff `(tok, len)` is the lexeme the rules describe, including the hexadecimal back-off and the `0x`-too-short case |
| Scanner.HexStartIsPrefix | src/main.rs:151 | the hexadecimal branch is taken iff the text is `0x` followed by at least one more character |
| Scanner.HexLexeme | src/main.rs:151-158 | in the hexadecimal branch, the result is the back-off `(NumValue, 1)` when the hexadecimal literal is empty, and otherwise the prefix plus that literal |
| Scanner.LexemeUnique | src/main.rs:142-171 | no text starts with two different lexemes |
| Lexing.FindTokenMakesProgress | src/main.rs:142-171 | `find_token` reports the end of input on empty text and only there, and every other token consumes at least one character and fits |
| Lexing.Lexer.constructor | src/main.rs:73-81 | the text is stored unchanged, all three positions are 0 and the token is `EOF` |
| Lexing.Lexer.Peek | src/main.rs:83-85 | the current token; when it is `EOF` the current span is empty |
| Lexing.Lexer.Content | src/main.rs:87-89 | the current token's text: of length `cur_end - cur_start`, it extends `text[..cur_start]` to `text[..cur_end]` |
| Lexing.Lexer.StartLoc | src/main.rs:91-93 | the start of the current token, which is where the previous token ended |
| Lexing.Lexer.PreviousEndLoc | src/main.rs:95-97 | the end of the previous token, which is where the current one starts |
| Lexing.Lexer.Advance | src/main.rs:99-107 | moves `prev_end` and `cur_start` to the old `cur_end`; on success the span and token are what the classifier finds there; on failure `cur_end` and `token` keep their old values; after the end of input, advancing again changes nothing |
| Lexing.Scan | src/main.rs:23-29 | the token stream of a line has at most one token per remaining character, plus the `EOF` |
| Lexing.ScanTiles | src/main.rs:23-29 | consecutive tokens of the stream are adjacent, each is what the classifier finds where it starts, and they stay inside the text |
| Lexing.ScanEndsOnce | src/main.rs:23-29 | `EOF` only ends the stream, and the stream ends with it iff no error stops it first |
| Lexing.ScanStopsWhere | src/main.rs:23-29 | a stream that reaches `EOF` covers the whole text; one stopped by an error stops where the classifier reports that error |
| Lexing.ConsumedIsText | src/main.rs:87-89 | the contents of successive tokens join up to exactly the text from the first start to the last end |
| Lexing.AppendAssoc | src/main.rs:24-29 | recording tokens one by one or all at once gives the same stream |
| Lexing.ScanStopsAtError | src/main.rs:24 | a failing `advance` ends the loop with the tokens read so far |
| Lexing.ScanStopsAtEnd | src/main.rs:26-28 | the `EOF` token is recorded and ends the loop |
| Lexing.ScanGoesOn | src/main.rs:24-25 | any other token is recorded and the stream goes on where it ends |
| Lexing.Step | src/main.rs:24-29 | one round of the loop keeps "what was read, then the stream from the cursor" equal to the whole stream, and moves the cursor forward while the loop goes on |
| Lexing.Tokenize | src/main.rs:22-29 | the loop over a fresh lexer records exactly the token stream of the line and stops |
| Examples.TypedDecimalExample | src/main.rs:110-140 | `128u128` is `(NumTypedValue, 7)` |
| Examples.SeparatorExample | src/main.rs:110-116 | `1_000` is `(NumValue, 5)` |
| Examples.NoSuffixExample | src/main.rs:128-140 | `1u1` is `(NumValue, 1)` |
| Examples.HexExample | src/main.rs:151-158 | `0x1A_2b` is `(NumValue, 7)` |
| Examples.HexBackOffExample | src/main.rs:151-155 | `0xg` backs off to `(NumValue, 1)` |
| Examples.HexSuffixOnlyExample | src/main.rs:151-158 | `0xu8` is `(NumTypedValue, 4)`: the suffix counts as the hexadecimal part |
| Examples.ShortHexPrefixExample | src/main.rs:151-160 | `0x` alone takes the decimal path and is `(NumValue, 1)` |
| Examples.SymbolExamples | src/main.rs:162-170 | `+`, `=` and a space are one-character tokens; a tab or `#` is an error naming it |
| Examples.OnePlusTwoTokens | src/main.rs:142-171 | the tokens of `1+2`, one position at a time |
| Examples.StreamOfOnePlusTwo | src/main.rs:23-29 | a classifier that finds a number, a plus, a number and the end of input in `1+2` yields exactly that stream |
| Examples.StreamExample | src/main.rs:23-29 | the stream of `1+2` is a number, a plus, a number and `EOF` |
| Examples.OneHashTokens | src/main.rs:142-171 | `1#` starts with the number `1`, and `#` is an error |
| Examples.FailedAdvanceExample | src/main.rs:99-107 | on `1#` the second `advance` fails with start and previous end at 1, end at 1 and token `NumValue` |

## Left out

- `main`'s reading of standard input, the `bye` check, `trim_end` and the
  printing are I/O. `Tokenize` models only the inner advance loop, and records
  the spans the loop prints.
- `impl fmt::Display for Token` only maps token kinds to display names.
- `is_blank` and `is_number` are never called.
- The `start_offset` parameter of `find_token` is unused, so `FindToken` has no
  such parameter.
- Rust's UTF-8 string slicing and `usize` width are not modelled. Positions are
  unbounded naturals over a character sequence. Every token consumes ASCII
  characters only, so the offsets agree with the source's byte offsets.
- The error is modelled as a value, `InvalidCharacter(c)`. `ErrorMessage` gives
  its text as the source formats it.
