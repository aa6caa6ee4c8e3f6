/** The token vocabulary of the tokenizer (src/tokenizer.py lines 6-15) and the
    classification of one non-space character into a token (lines 36-43). */
module Tokens {
  import opened Wrappers

  /** The four kinds of token; the enumeration is closed. */
  datatype TokenType = INT | PLUS | MINUS | EOF

  /** A token is its type plus an optional payload, which only `INT` carries. */
  datatype Token = Token(tokenType: TokenType, value: Option<int>) {

    /** The payload is present exactly for `INT`, and is then one decimal digit. */
    predicate WellFormed() {
      && (value.Some? <==> tokenType == INT)
      && (value.Some? ==> 0 <= value.value <= 9)
    }
  }

  /** The error raised for a character that is neither a space, an operator nor
      a digit; it names the offending character. */
  datatype LexError = LexError(ch: char)

  const EofToken: Token := Token(EOF, None)

  /** An ASCII decimal digit. */
  predicate IsDigit(c: char) {
    '0' <= c <= '9'
  }

  /** The characters that make a token on their own. */
  predicate IsTokenChar(c: char) {
    c == '+' || c == '-' || IsDigit(c)
  }

  /** The characters the tokenizer accepts anywhere in its input. */
  predicate Lexable(c: char) {
    c == ' ' || IsTokenChar(c)
  }

  /** The numeric value of a decimal digit character. */
  function DigitValue(c: char): (d: int)
    requires IsDigit(c)
    ensures 0 <= d <= 9
    ensures DigitChar(d) == c
  {
    c as int - '0' as int
  }

  /** The character that spells a one-digit number. */
  function DigitChar(d: int): (c: char)
    requires 0 <= d <= 9
    ensures IsDigit(c)
  {
    ('0' as int + d) as char
  }

  /** Spelling a one-digit number and reading it back gives the same number;
      together with `DigitValue`'s contract, the two are inverse bijections
      between '0'..'9' and 0..9. */
  lemma DigitRoundTrip(d: int)
    requires 0 <= d <= 9
    ensures DigitValue(DigitChar(d)) == d
  {
  }

  /** Classifies the one character the tokenizer has just consumed. */
  function Classify(c: char): (r: Result<Token, LexError>)
    ensures r.Ok? <==> IsTokenChar(c)
    ensures r.Ok? ==> r.value.WellFormed() && r.value.tokenType != EOF
    ensures r.Ok? ==> (r.value.tokenType == PLUS <==> c == '+')
    ensures r.Ok? ==> (r.value.tokenType == MINUS <==> c == '-')
    ensures r.Ok? && r.value.tokenType == INT ==> DigitChar(r.value.value.value) == c
    ensures r.Err? ==> r.error == LexError(c)
  {
    if c == '+' then Ok(Token(PLUS, None))
    else if c == '-' then Ok(Token(MINUS, None))
    else if IsDigit(c) then Ok(Token(INT, Some(DigitValue(c))))
    else Err(LexError(c))
  }

  /** Different characters never give the same token or error: the outcome
      determines the character it was read from. */
  lemma ClassifyInjective(a: char, b: char)
    requires Classify(a) == Classify(b)
    ensures a == b
  {
  }

  /** Every one-digit number is produced by exactly its own digit character. */
  lemma ClassifyDigit(d: int)
    requires 0 <= d <= 9
    ensures Classify(DigitChar(d)) == Ok(Token(INT, Some(d)))
  {
  }
}
