# Monkey lexer, verified model

This project models the lexer of the Monkey language interpreter, in the C# port
(`csharp/lexer/Lexer.cs`). The lexer is a mutable cursor over an immutable input
of characters. Its state is a position, a read position one ahead of it and the
current character, which is the NUL sentinel once the cursor is past the end.
`NextToken` skips whitespace, then reads one token. It tries, in this order:

1. a string literal;
2. an identifier or keyword;
3. an integer;
4. `==` and `!=`;
5. the one-character operators and punctuation;
6. Eof at the sentinel;
7. an `Illegal` token for anything else.

`ParseTokens` calls `NextToken` until it yields Eof.

The project has five modules:

- `tokens.dfy` (module `Tokens`) defines:
  - the token kinds;
  - the two failure kinds: an unterminated string, and an integer literal that overflows `int`;
  - `Result`, the outcome of one call that may throw;
  - `TokenStream`, the outcome of a whole run;
  - the reserved-word table and the one-character table, each with a round-trip lemma.
- `scan.dfy` (module `Scan`) defines:
  - the character classes the scanning loops test;
  - the sentinel read `CharAt`;
  - `ScanEnd`, the position where a `ReadWhile` loop comes to rest;
  - the decimal value of a digit run, with the 32-bit range check of `int.Parse`.
- `spec.dfy` (module `Lexing`) is the reference: pure functions that give the
  token read at a cursor position (`NextTokenAt`) and the whole token stream
  (`TokenizeFrom`, `Tokenize`). It also holds the properties proved about them.
- `lexer.dfy` (module `Monkey`) defines the class `Lexer`:
  - its fields mirror the struct's fields;
  - each method mirrors one method of the struct;
  - every method is proved against the reference, and `ParseTokens` returns exactly `TokenizeFrom(input, position)`.
- `examples.dfy` (module `Examples`) holds concrete inputs with the exact token streams they give.

The C# `Lexer` is a struct. `NextToken` and its helpers update it in place through
`this`, and the Dafny class `Lexer` describes those updates with `modifies this`.

Behaviour of the code that the model keeps as written:

- At the end of input, line 92 still calls `ReadChar`. So each further `NextToken`
  yields Eof again, and the position still grows by one (`Lexing.EofForever`).
- `int.Parse` at line 176 throws for values above 2^31 - 1. The model makes this
  a second failure kind, `IntegerOverflow`.
- A NUL character inside the input reads the same as the sentinel past its end.
  Between tokens it yields Eof through line 88, so the stream ends there
  (`Lexing.NulEndsInput`). Inside a string literal it stops the scan at lines
  148-150, so the literal is unterminated.
- `char.IsWhiteSpace` accepts vertical tab and form feed as well as space, tab,
  newline and carriage return, and so does the model.

## Model

| member | source | states |
|---|---|---|
| Tokens.LookupIdent | csharp/lexer/Lexer.cs:44-55 | a scanned word gives a keyword exactly when it is one of the seven reserved spellings, and that keyword's spelling is the word; any other word gives `Ident` carrying the word unchanged |
| Tokens.KeywordRoundTrip | csharp/lexer/Lexer.cs:44-55 | looking up the spelling of each reserved word gives back that reserved word |
| Tokens.CharToken | csharp/lexer/Lexer.cs:63-90 | NUL gives Eof and only NUL does; each of the fourteen operator and punctuation characters gives the token spelled with it; every other character gives `Illegal` carrying that character |
| Tokens.PunctuationRoundTrip | csharp/lexer/Lexer.cs:76-87 | the one-character table is a bijection: the token of a punctuation token's character is that token |
| Scan.ScanEnd | csharp/lexer/Lexer.cs:162-168 | the scan stops at the end of the maximal run of characters in the class: every character before it matches, and the character (or sentinel) it rests on does not |
| Scan.DecimalRoundTrip | csharp/lexer/Lexer.cs:176 | the decimal value of the decimal spelling of n is n |
| Scan.ParseIntRoundTrip | csharp/lexer/Lexer.cs:176 | parsing the spelling of n gives n when n fits a signed 32-bit integer, and an overflow failure otherwise |
| Scan.ShortLiteralsFit | csharp/lexer/Lexer.cs:176 | a digit run of at most nine digits never overflows and parses to its decimal value |
| Scan.LongLiteralsOverflow | csharp/lexer/Lexer.cs:176 | a digit run of eleven or more digits without a leading zero always overflows |
| Lexing.NextTokenAt | csharp/lexer/Lexer.cs:33-95 | one call either yields Eof, exactly when the character after the whitespace is NUL, leaving the cursor one past it, or yields another token, leaving the cursor strictly further on and within the input |
| Lexing.TokenStart | csharp/lexer/Lexer.cs:125-128 | skipping whitespace passes over whitespace characters only and stops on the first character (or sentinel) that is not whitespace |
| Lexing.TokenAt | csharp/lexer/Lexer.cs:37-92 | the priority dispatch yields Eof exactly at NUL, with the cursor one past it; any other token moves the cursor strictly forward and keeps it within the input |
| Lexing.StringAt | csharp/lexer/Lexer.cs:139-160 | a string literal is a `String` token that consumes at least both quotes, or fails only as an unterminated string |
| Lexing.WordAt | csharp/lexer/Lexer.cs:130-137 | a word at a letter or underscore is an identifier or keyword and consumes at least one character |
| Lexing.NumberAt | csharp/lexer/Lexer.cs:170-177 | a digit run is an `Integer` token that consumes at least one character, or fails only with an overflow |
| Lexing.FailureRest | csharp/lexer/Lexer.cs:148-176 | after a failed call the cursor rests on the NUL that ends an unterminated string, with only non-quote, non-NUL characters after the opening quote, or just past the maximal digit run that overflows |
| Lexing.OperatorAt | csharp/lexer/Lexer.cs:63-92 | the operator branch yields Eof exactly at NUL, with the cursor one past it; any other token consumes one or two characters |
| Lexing.TokenizeFrom | csharp/lexer/Lexer.cs:22-31 | a finished stream ends with Eof, and from a cursor past the end the stream is `[Eof]`; that this Eof is the only one is `Lexing.EofPlacement` |
| Lexing.Tokenize | csharp/lexer/Lexer.cs:12-31 | the stream of a fresh lexer ends with Eof when it finishes, and is `[Eof]` for the empty input |
| Lexing.TokenizeCons | csharp/lexer/Lexer.cs:25-27 | a step that yields a token other than Eof puts that token in front of the stream that follows it |
| Lexing.EofPlacement | csharp/lexer/Lexer.cs:22-31 | every finished stream ends with Eof, and that Eof is the only one in it; a stream cut short by a failure contains no Eof |
| Lexing.EofForever | csharp/lexer/Lexer.cs:88-92 | once the cursor is past the end, each call yields Eof and the position still moves on by one; the stream from there is `[Eof]` |
| Lexing.EmptyInput | csharp/lexer/Lexer.cs:12-31 | the empty input gives `[Eof]` |
| Lexing.WhitespaceIgnored | csharp/lexer/Lexer.cs:125-128 | starting at a whitespace character gives the same token and the same stream as starting one character later |
| Lexing.IdentifierToken | csharp/lexer/Lexer.cs:42-56 | a token that starts with a letter or underscore spans the maximal run of letters and underscores; it is a keyword exactly when the run spells a reserved word, and otherwise an `Ident` carrying the run |
| Lexing.IdentifierStart | csharp/lexer/Lexer.cs:42-56 | identifiers and keywords come only from a letter or underscore |
| Lexing.IntegerToken | csharp/lexer/Lexer.cs:58-61 | a token that starts with a digit spans the maximal digit run; it is `Integer` of the run's decimal value when that fits 32 bits, and an overflow failure otherwise |
| Lexing.StringToken | csharp/lexer/Lexer.cs:139-160 | a string token carries exactly the characters between its quotes, none of which is a quote or NUL, and the closing quote is consumed; the only failure is an unterminated string |
| Lexing.UnterminatedStringLiteral | csharp/lexer/Lexer.cs:148-153 | a string literal fails exactly when no closing quote follows the opening one before the first NUL or the end of the input |
| Lexing.OperatorToken | csharp/lexer/Lexer.cs:63-92 | `==` and `!=` consume two characters; a lone `=` or `!` and every other table character consume one and give their table token; any other character gives `Illegal` carrying it, consumes one and is not a failure |
| Lexing.NulEndsInput | csharp/lexer/Lexer.cs:88 | a NUL inside the input ends tokenization as the end of the input does: the stream equals that of the input cut at the NUL |
| Monkey.Lexer.constructor | csharp/lexer/Lexer.cs:12-20 | the new lexer satisfies the cursor invariant at position 0 with read position 1, and its current character is the first input character, or NUL for the empty input |
| Monkey.Lexer.ReadChar | csharp/lexer/Lexer.cs:98-111 | the position moves to the old read position and the read position moves one further; the current character is the input character there, or NUL past the end |
| Monkey.Lexer.Peek | csharp/lexer/Lexer.cs:113-123 | returns the character after the current one, or NUL past the end, and changes nothing |
| Monkey.Lexer.SkipWhitespace | csharp/lexer/Lexer.cs:125-128 | the cursor rests on the first character after the whitespace run |
| Monkey.Lexer.ReadWhile | csharp/lexer/Lexer.cs:162-168 | the loop keeps the cursor invariant and stops exactly at the end of the maximal matching run |
| Monkey.Lexer.ReadIdent | csharp/lexer/Lexer.cs:130-137 | the cursor moves past the maximal run of letters and underscores, and the result is the input slice of that run |
| Monkey.Lexer.ReadString | csharp/lexer/Lexer.cs:139-160 | after the opening quote, either the sentinel is reached and the call fails as unterminated, or the result is the slice up to the closing quote and the cursor rests past that quote |
| Monkey.Lexer.ReadInt | csharp/lexer/Lexer.cs:170-177 | the cursor moves past the maximal digit run, and the result is that run's parse: its value, or an overflow failure |
| Monkey.Lexer.SkipAndReturn | csharp/lexer/Lexer.cs:179-183 | advances the cursor by one and returns the given token |
| Monkey.Lexer.NextToken | csharp/lexer/Lexer.cs:33-95 | yields exactly the reference's token and resting position; on a failure, the reference's failure with the cursor left at `FailureRest`; every token other than Eof strictly advances the cursor |
| Monkey.Lexer.ParseTokens | csharp/lexer/Lexer.cs:22-31 | the loop terminates and returns exactly the reference stream from the current position: all tokens up to and including Eof, or the tokens before the failure and the failure |
| Monkey.Lex | csharp/lexer/Lexer.cs:12-31 | a fresh lexer driven to the end yields `Tokenize` of its input |
| Examples.LetStatement | csharp/lexer/Lexer.cs:33-95 | `let five = 5;` gives `[Let, Ident("five"), Assign, Integer(5), Semicolon, Eof]` |
| Examples.AssignAndEquality | csharp/lexer/Lexer.cs:63-75 | `=`, `==`, `!` and `!=` give `Assign`, `EQ`, `Bang` and `NOT_EQ`, each followed by Eof |
| Examples.StringLiteral | csharp/lexer/Lexer.cs:139-160 | `"hello world"` gives one `String("hello world")` and Eof |
| Examples.UnterminatedStringFails | csharp/lexer/Lexer.cs:150-153 | `"abc` fails as unterminated before yielding any token |
| Examples.IllegalCharacterContinues | csharp/lexer/Lexer.cs:89 | `@` gives `Illegal('@')` and then Eof |
| Examples.KeywordNeedsExactMatch | csharp/lexer/Lexer.cs:44-55 | `iffy` gives `Ident("iffy")`, not the keyword `if` |
| Examples.IdentifierStopsAtDigit | csharp/lexer/Lexer.cs:130-137 | `x1` gives `Ident("x")` and then `Integer(1)` |
| Examples.WhitespaceBetweenTokens | csharp/lexer/Lexer.cs:125-128 | `let  \n x` gives `[Let, Ident("x"), Eof]` |
| Examples.NulInsideInput | csharp/lexer/Lexer.cs:88 | `a`, NUL, `b` gives `[Ident("a"), Eof]`: the stream ends at the NUL, and no token is read from the `b` |
| Examples.LiteralOverflow | csharp/lexer/Lexer.cs:176 | `12345678901` aborts with an overflow before yielding any token |

## Left out

- Unicode character classes: `char.IsLetter`, `char.IsDigit` and `char.IsWhiteSpace` are modelled on ASCII only. Letters are `a`-`z` and `A`-`Z`, digits are `0`-`9`, and whitespace is space and tab through carriage return. Non-ASCII letters, digits and spaces, and the non-ASCII digits that `int.Parse` rejects, are not modelled.
- `int.Parse` culture settings and its `FormatException`: the model parses only maximal ASCII digit runs, so only the overflow case can occur.
- The width of `_position` and `_read_position`: they are unbounded naturals, so the C# `int` overflow after about 2^31 calls past the end is not modelled.
- Monkey.Lexer.ParseTokens: iterator laziness is not modelled. The method is a loop that returns the whole stream at once, and an exception in the middle becomes `Aborted` with the tokens yielded before it. The iterator's copy of the struct is not modelled either, so this method updates the lexer it runs on, which the C# iterator does not.
- Exception types and messages: the unterminated string and the overflow are failure values of `Result`, not .NET exceptions.
- UTF-16 code units: a C# `string` is a sequence of UTF-16 code units, and `_input.Length` and `_inputSpan[i]` (lines 100-106) count and read code units. A Dafny `char` is a Unicode scalar value and cannot hold a lone surrogate. So for input outside the Basic Multilingual Plane the model's positions count scalar values, not code units, and the model yields different tokens. For example, U+1F600 gives `[Illegal(U+1F600), Eof]` in the model. The code gives `[Illegal(U+D83D), Illegal(U+DE00), Eof]`, one token per surrogate half. An `Illegal` token carrying a lone surrogate cannot be expressed in the model.
- `ReadOnlyMemory`/`ReadOnlySpan` and `ToString`: the input is a `seq<char>`, and slices are subsequences.
- `ReadWhile`'s delegate parameter becomes `CharClass`, a choice among the four predicates the lexer passes to it.
- `TokenInfo` and the `Token` enum are not part of this model. The `Token` datatype is rebuilt from their uses in `NextToken`, with each payload inside its kind.
