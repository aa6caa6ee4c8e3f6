# Tokenizer model

A Dafny model of the single-character arithmetic tokenizer in `src/tokenizer.py`.
The `Tokenizer` class holds the input text `code` and a cursor `ptr`. Each call
of `next_token` skips spaces and then does one of two things. At the end of the
text it returns an `EOF` token. Otherwise it consumes exactly one character:
`+` gives `PLUS`, `-` gives `MINUS`, a digit gives an `INT` carrying that
digit's value, and anything else raises an error. Iterating the tokenizer
yields every token up to and including the first `EOF`.

The model is functional. The mutable cursor becomes an immutable
`Tokenizer.State(code, ptr)`. `Tokenizer.NextToken` returns the token or error
together with the state left behind. `Tokenizer.Tokenize` is the iteration
collected into a list, or the error of the first failing call. It terminates on
`|code| - ptr`.

Modules:

- `Wrappers`: `Option` and `Result`.
- `Tokens`: the token vocabulary and the classification of one character.
- `Tokenizer`: the state, `SkipSpaces`, `NextToken`, `Tokenize` and the
  cursor and end-of-input lemmas.
- `ScannerLoops`: the source's two `while` loops as methods, each proved equal
  to the functional model.
- `Reference`: a cursor-free reference lexer `Lex` that reads one character at
  a time. It proves that iteration from any cursor agrees with `Lex`. It also
  gives the closed form of the result and shows that spaces are transparent.
- `Examples`: the scenarios of `tests/test_tokenizer.py`, plus `"42"` and the
  empty text. The three accepted test texts and `"42"` are traced through `Lex`
  one character at a time; `"$"` and the empty text follow directly from
  `NextToken` and `Tokenize`.

The source raises a plain `RuntimeError` for a bad character. The model calls
this error `LexError(ch)` and keeps only the offending character.

## Model

| member | source | states |
|---|---|---|
| `Tokens.Classify` | src/tokenizer.py:36-43 | A consumed character gives a token exactly when it is `+`, `-` or a digit. `+` gives `PLUS`, `-` gives `MINUS`, and a digit gives `INT` whose value spells back that digit. A token never has type `EOF` and is well formed: it has a value exactly when it is `INT`, and that value is 0..9. Any other character gives an error naming it. |
| `Tokens.ClassifyDigit` | src/tokenizer.py:40-41 | Each number 0..9 is read as `INT` with exactly that value from its own digit character. |
| `Tokens.DigitValue` | src/tokenizer.py:40-41 | The value of a digit character lies in 0..9, and spelling that value as a digit gives back the same character. |
| `Tokens.DigitRoundTrip` | src/tokenizer.py:41 | Spelling a number 0..9 as a digit character and reading its value back gives the same number. |
| `Tokens.ClassifyInjective` | src/tokenizer.py:36-43 | In the ASCII-digit model, two characters that produce the same token, or the same error, are the same character. |
| `Tokenizer.Start` | src/tokenizer.py:18-20 | A new tokenizer holds exactly the given text, its cursor starts at 0, and that cursor is within the text. |
| `Tokenizer.SkipSpaces` | src/tokenizer.py:28-29 | The position after skipping lies in the text at or after the cursor. Every character skipped is a space. The position is either the end of the text or a non-space character, so only spaces are skipped and all of them are. |
| `Tokenizer.NextToken` | src/tokenizer.py:27-43 | The text never changes. The cursor stays within the text and never moves back. The result is `EOF` (no value) exactly when only spaces remain, and then the cursor sits at the end. Otherwise, whether a token is returned or an error raised, the cursor has moved one past the first non-space character, and the result is that character's classification. Returned tokens are well formed. |
| `Tokenizer.NextTokenReadsFirstNonSpace` | src/tokenizer.py:28-43 | Conversely, the first non-space character at or after the cursor decides the step. That character is consumed and classified, and the cursor moves just past it. |
| `Tokenizer.Tokenize` | src/tokenizer.py:22-25 | A successful iteration yields a non-empty list ending in `EOF`, with no earlier `EOF`. Every token is well formed, and there are at most as many tokens as remaining characters plus one. |
| `Tokenizer.CursorMonotone` | src/tokenizer.py:27-35 | Over any number of successive calls, the cursor never decreases and never passes the end of the text. This holds whether a call returns or raises. |
| `Tokenizer.EofIsSticky` | src/tokenizer.py:28-32 | Once a call has returned `EOF`, every later call returns `EOF` again and leaves the state unchanged. |
| `ScannerLoops.ScanNextToken` | src/tokenizer.py:27-43 | The space-skipping loop followed by the classification gives exactly `NextToken`'s token or error, and the same cursor. |
| `ScannerLoops.CollectTokens` | src/tokenizer.py:22-25 | Pulling tokens until the first `EOF` and keeping it gives exactly `Tokenize`'s result. An error from any pull aborts the whole iteration. |
| `Reference.TokenizeMatchesLex` | src/tokenizer.py:22-43 | From any cursor, iteration agrees with the cursor-free lexer on the rest of the text. Under `Lex`, spaces contribute nothing and every other character contributes its classification. |
| `Reference.TokenizeFromStart` | src/tokenizer.py:17-43 | A fresh tokenizer's iteration equals the cursor-free lexer's result on the whole text. |
| `Reference.LexAccepted` | src/tokenizer.py:28-41 | A text of spaces, `+`, `-` and digits lexes to one token per non-space character, in order, then `EOF`. |
| `Reference.LexRejected` | src/tokenizer.py:42-43 | A text lexes to the error naming its first rejected character. |
| `Reference.FirstBadExists` | src/tokenizer.py:42-43 | A text with some rejected character has a first one. |
| `Reference.LexIgnoresSpaces` | src/tokenizer.py:28-29 | Removing all spaces from a text does not change what the reference lexer returns. |
| `Reference.TokenizeResult` | src/tokenizer.py:17-43 | A fresh tokenizer's iteration succeeds exactly when the text is made of spaces, `+`, `-` and digits. It then yields one token per non-space character, in order, then `EOF`. Otherwise it fails naming the first rejected character. |
| `Reference.SpacesAreTransparent` | tests/test_tokenizer.py:23-34 | Tokenizing a text and tokenizing it with every space removed give the same tokens, or the same error. |
| `Examples.Addition` | tests/test_tokenizer.py:5-12 | `"3 + 5"` gives `INT 3, PLUS, INT 5, EOF`. |
| `Examples.Subtraction` | tests/test_tokenizer.py:14-21 | `"3 - 6"` gives `INT 3, MINUS, INT 6, EOF`. |
| `Examples.Whitespace` | tests/test_tokenizer.py:23-34 | `"  1  + 2-3   +4"` gives `INT 1, PLUS, INT 2, MINUS, INT 3, PLUS, INT 4, EOF`. |
| `Examples.GarbageRaises` | tests/test_tokenizer.py:36-38 | `"$"` raises an error naming `$` with the cursor already past it, and iteration fails. |
| `Examples.DigitsAreNotMerged` | src/tokenizer.py:40-41 | `"42"` gives `INT 4, INT 2, EOF`, not `INT 42`. |
| `Examples.EmptyInput` | src/tokenizer.py:31-32 | The empty text gives just `EOF`. |

## Left out

- The `__main__` demonstration (src/tokenizer.py:45-50) is left out. It only prints tokens to standard output.
- Digits are ASCII `'0'..'9'` only. Python's `str.isdigit` also accepts other Unicode digits, such as `'٣'`. For some of those, such as `'²'`, `int(char)` would raise `ValueError` instead of returning a token. The model treats every non-ASCII character as rejected.
- Tokens.ClassifyInjective: holds only for the ASCII-digit model. In the source, `'3'`, `'٣'` and `'３'` all pass `isdigit()`, and `int(char)` gives 3 for each, so all three produce `Token(INT, 3)`.
- The text of the error message and the string values of the `StrEnum` token types are left out. Neither affects behaviour.
- The iteration is modelled as a finite list or an error, not as a lazy generator. The tokens a generator yields before the failing call are not modelled. Collecting into a list, as the tests do, discards them anyway.
- `Token.value` is typed `Any` in the source. The model uses `Option<int>`, since only `None` and `int(char)` are ever stored.
