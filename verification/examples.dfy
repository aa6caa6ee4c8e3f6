/** The scenarios of tests/test_tokenizer.py, and the digit-splitting example,
    as facts about the model. The three accepted test texts and `"42"` are
    traced through the reference lexer one character at a time, from the end
    backwards; `TokenizeFromStart` then carries the result over to the
    tokenizer. The traces take the text's characters as separate facts, which
    keeps each proof small. The rejected `"$"` and the empty text follow
    directly from `NextToken` and `Tokenize`. */
module Examples {
  import opened Wrappers
  import opened Tokens
  import opened Tokenizer
  import opened Reference

  /** A space at `p` contributes nothing. */
  lemma Skips(code: string, p: nat)
    requires p < |code| && code[p] == ' '
    ensures Lex(code[p..]) == Lex(code[p + 1..])
  {
  }

  /** A token character at `p` contributes its token in front of the rest. */
  lemma Reads(code: string, p: nat, t: Token, ts: seq<Token>)
    requires p < |code| && Classify(code[p]) == Ok(t) && Lex(code[p + 1..]) == Ok(ts)
    ensures Lex(code[p..]) == Ok([t] + ts)
  {
  }

  lemma AdditionTrace(code: string)
    requires |code| == 5
    requires code[0] == '3' && code[1] == ' ' && code[2] == '+' && code[3] == ' ' && code[4] == '5'
    ensures Lex(code) == Ok([Token(INT, Some(3)), Token(PLUS, None), Token(INT, Some(5)), EofToken])
  {
    assert code[5..] == [];
    var ts := [EofToken];
    Reads(code, 4, Token(INT, Some(5)), ts);
    ts := [Token(INT, Some(5))] + ts;
    Skips(code, 3);
    Reads(code, 2, Token(PLUS, None), ts);
    ts := [Token(PLUS, None)] + ts;
    Skips(code, 1);
    Reads(code, 0, Token(INT, Some(3)), ts);
    ts := [Token(INT, Some(3))] + ts;
    assert ts == [Token(INT, Some(3)), Token(PLUS, None), Token(INT, Some(5)), EofToken];
  }

  lemma Addition()
    ensures Tokenize(Start("3 + 5"))
         == Ok([Token(INT, Some(3)), Token(PLUS, None), Token(INT, Some(5)), EofToken])
  {
    AdditionTrace("3 + 5");
    TokenizeFromStart("3 + 5");
  }

  lemma SubtractionTrace(code: string)
    requires |code| == 5
    requires code[0] == '3' && code[1] == ' ' && code[2] == '-' && code[3] == ' ' && code[4] == '6'
    ensures Lex(code) == Ok([Token(INT, Some(3)), Token(MINUS, None), Token(INT, Some(6)), EofToken])
  {
    assert code[5..] == [];
    var ts := [EofToken];
    Reads(code, 4, Token(INT, Some(6)), ts);
    ts := [Token(INT, Some(6))] + ts;
    Skips(code, 3);
    Reads(code, 2, Token(MINUS, None), ts);
    ts := [Token(MINUS, None)] + ts;
    Skips(code, 1);
    Reads(code, 0, Token(INT, Some(3)), ts);
    ts := [Token(INT, Some(3))] + ts;
    assert ts == [Token(INT, Some(3)), Token(MINUS, None), Token(INT, Some(6)), EofToken];
  }

  lemma Subtraction()
    ensures Tokenize(Start("3 - 6"))
         == Ok([Token(INT, Some(3)), Token(MINUS, None), Token(INT, Some(6)), EofToken])
  {
    SubtractionTrace("3 - 6");
    TokenizeFromStart("3 - 6");
  }

  /** The second half of the whitespace scenario, from the `2` on. */
  lemma WhitespaceTailTrace(code: string)
    requires |code| == 15
    requires code[0] == ' ' && code[1] == ' ' && code[2] == '1' && code[3] == ' ' && code[4] == ' '
    requires code[5] == '+' && code[6] == ' ' && code[7] == '2' && code[8] == '-' && code[9] == '3'
    requires code[10] == ' ' && code[11] == ' ' && code[12] == ' ' && code[13] == '+' && code[14] == '4'
    ensures Lex(code[7..])
         == Ok([Token(INT, Some(2)), Token(MINUS, None), Token(INT, Some(3)), Token(PLUS, None),
                Token(INT, Some(4)), EofToken])
  {
    assert code[15..] == [];
    var ts := [EofToken];
    Reads(code, 14, Token(INT, Some(4)), ts);
    ts := [Token(INT, Some(4))] + ts;
    Reads(code, 13, Token(PLUS, None), ts);
    ts := [Token(PLUS, None)] + ts;
    Skips(code, 12);
    Skips(code, 11);
    Skips(code, 10);
    Reads(code, 9, Token(INT, Some(3)), ts);
    ts := [Token(INT, Some(3))] + ts;
    Reads(code, 8, Token(MINUS, None), ts);
    ts := [Token(MINUS, None)] + ts;
    Reads(code, 7, Token(INT, Some(2)), ts);
    ts := [Token(INT, Some(2))] + ts;
    assert ts == [Token(INT, Some(2)), Token(MINUS, None), Token(INT, Some(3)), Token(PLUS, None),
                  Token(INT, Some(4)), EofToken];
  }

  lemma WhitespaceTrace(code: string)
    requires |code| == 15
    requires code[0] == ' ' && code[1] == ' ' && code[2] == '1' && code[3] == ' ' && code[4] == ' '
    requires code[5] == '+' && code[6] == ' ' && code[7] == '2' && code[8] == '-' && code[9] == '3'
    requires code[10] == ' ' && code[11] == ' ' && code[12] == ' ' && code[13] == '+' && code[14] == '4'
    ensures Lex(code)
         == Ok([Token(INT, Some(1)), Token(PLUS, None), Token(INT, Some(2)), Token(MINUS, None),
                Token(INT, Some(3)), Token(PLUS, None), Token(INT, Some(4)), EofToken])
  {
    WhitespaceTailTrace(code);
    var ts := [Token(INT, Some(2)), Token(MINUS, None), Token(INT, Some(3)), Token(PLUS, None),
               Token(INT, Some(4)), EofToken];
    Skips(code, 6);
    Reads(code, 5, Token(PLUS, None), ts);
    ts := [Token(PLUS, None)] + ts;
    Skips(code, 4);
    Skips(code, 3);
    Reads(code, 2, Token(INT, Some(1)), ts);
    ts := [Token(INT, Some(1))] + ts;
    Skips(code, 1);
    Skips(code, 0);
    assert ts == [Token(INT, Some(1)), Token(PLUS, None), Token(INT, Some(2)), Token(MINUS, None),
                  Token(INT, Some(3)), Token(PLUS, None), Token(INT, Some(4)), EofToken];
  }

  lemma Whitespace()
    ensures Tokenize(Start("  1  + 2-3   +4"))
         == Ok([Token(INT, Some(1)), Token(PLUS, None), Token(INT, Some(2)), Token(MINUS, None),
                Token(INT, Some(3)), Token(PLUS, None), Token(INT, Some(4)), EofToken])
  {
    WhitespaceTrace("  1  + 2-3   +4");
    TokenizeFromStart("  1  + 2-3   +4");
  }

  /** `"$"` raises, no token is produced, and the cursor is already past the `$`. */
  lemma GarbageRaises()
    ensures NextToken(Start("$")) == Step(Err(LexError('$')), State("$", 1))
    ensures Tokenize(Start("$")) == Err(LexError('$'))
  {
  }

  lemma DigitsTrace(code: string)
    requires |code| == 2 && code[0] == '4' && code[1] == '2'
    ensures Lex(code) == Ok([Token(INT, Some(4)), Token(INT, Some(2)), EofToken])
  {
    assert code[2..] == [];
    var ts := [EofToken];
    Reads(code, 1, Token(INT, Some(2)), ts);
    ts := [Token(INT, Some(2))] + ts;
    Reads(code, 0, Token(INT, Some(4)), ts);
    ts := [Token(INT, Some(4))] + ts;
    assert ts == [Token(INT, Some(4)), Token(INT, Some(2)), EofToken];
  }

  /** A run of digits is not merged into one number. */
  lemma DigitsAreNotMerged()
    ensures Tokenize(Start("42")) == Ok([Token(INT, Some(4)), Token(INT, Some(2)), EofToken])
  {
    DigitsTrace("42");
    TokenizeFromStart("42");
  }

  lemma EmptyInput()
    ensures Tokenize(Start("")) == Ok([EofToken])
  {
  }
}
