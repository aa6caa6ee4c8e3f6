/** A cursor-free account of what the tokenizer computes: a reference lexer
    that reads the text one character at a time, the closed form of its
    result, and the proof that iterating `next_token` from any cursor position
    agrees with it. */
module Reference {
  import opened Wrappers
  import opened Tokens
  import opened Tokenizer

  /** The text with every space removed and the other characters kept in order. */
  function StripSpaces(text: string): (r: string)
    ensures |r| <= |text|
    ensures forall i :: 0 <= i < |r| ==> r[i] != ' ' && r[i] in text
    decreases |text|
  {
    if |text| == 0 then []
    else if text[0] == ' ' then StripSpaces(text[1..])
    else [text[0]] + StripSpaces(text[1..])
  }

  predicate AllLexable(text: string) {
    forall i :: 0 <= i < |text| ==> Lexable(text[i])
  }

  predicate AllTokenChars(text: string) {
    forall i :: 0 <= i < |text| ==> IsTokenChar(text[i])
  }

  /** `k` is the position of the first character the tokenizer rejects. */
  predicate FirstBad(text: string, k: int) {
    && 0 <= k < |text|
    && !Lexable(text[k])
    && forall i :: 0 <= i < k ==> Lexable(text[i])
  }

  /** One token per character, each the classification of that character. */
  function TokensOf(chars: string): seq<Token>
    requires AllTokenChars(chars)
  {
    seq(|chars|, i requires 0 <= i < |chars| => Classify(chars[i]).value)
  }

  /** The reference lexer: spaces contribute nothing, every other character
      contributes its classification, and the end of the text contributes `EOF`. */
  function Lex(text: string): Result<seq<Token>, LexError>
    decreases |text|
  {
    if |text| == 0 then Ok([EofToken])
    else if text[0] == ' ' then Lex(text[1..])
    else
      match Classify(text[0])
      case Err(e) => Err(e)
      case Ok(t) =>
        match Lex(text[1..])
        case Err(e) => Err(e)
        case Ok(ts) => Ok([t] + ts)
  }

  /** Iterating the tokenizer from cursor `p` lexes exactly the rest of the text. */
  lemma {:induction false} TokenizeMatchesLex(code: string, p: nat)
    requires p <= |code|
    ensures Tokenize(State(code, p)) == Lex(code[p..])
    decreases |code| - p
  {
    var s := State(code, p);
    if p == |code| {
      assert code[p..] == [];
    } else {
      var rest := code[p..];
      assert rest[0] == code[p] && rest[1..] == code[p + 1..];
      TokenizeMatchesLex(code, p + 1);
      if code[p] == ' ' {
        assert SkipSpaces(code, p) == SkipSpaces(code, p + 1);
        assert NextToken(s) == NextToken(State(code, p + 1));
      } else {
        assert NextToken(s) == Step(Classify(code[p]), State(code, p + 1));
      }
    }
  }

  /** A fresh tokenizer's iteration is the reference lexer's result on the
      whole text. */
  lemma TokenizeFromStart(code: string)
    ensures Tokenize(Start(code)) == Lex(code)
  {
    TokenizeMatchesLex(code, 0);
    assert code[0..] == code;
  }

  /** On a text of accepted characters the reference lexer yields one token per
      non-space character, in order, followed by `EOF`. */
  lemma {:induction false} LexAccepted(text: string)
    requires AllLexable(text)
    ensures AllTokenChars(StripSpaces(text))
    ensures Lex(text) == Ok(TokensOf(StripSpaces(text)) + [EofToken])
    decreases |text|
  {
    if |text| == 0 {
      assert TokensOf(StripSpaces(text)) == [];
      assert TokensOf(StripSpaces(text)) + [EofToken] == [EofToken];
    } else {
      var tail := text[1..];
      assert AllLexable(tail) by {
        forall i | 0 <= i < |tail| ensures Lexable(tail[i]) {
          assert tail[i] == text[i + 1];
        }
      }
      LexAccepted(tail);
      if text[0] != ' ' {
        var c := text[0];
        var stripped := StripSpaces(tail);
        assert StripSpaces(text) == [c] + stripped;
        assert TokensOf([c] + stripped) == [Classify(c).value] + TokensOf(stripped);
        assert [Classify(c).value] + (TokensOf(stripped) + [EofToken])
            == ([Classify(c).value] + TokensOf(stripped)) + [EofToken];
      }
    }
  }

  /** The reference lexer fails with the first rejected character. */
  lemma {:induction false} LexRejected(text: string, k: int)
    requires FirstBad(text, k)
    ensures Lex(text) == Err(LexError(text[k]))
    decreases |text|
  {
    if k > 0 {
      var tail := text[1..];
      assert Lexable(text[0]);
      assert FirstBad(tail, k - 1) by {
        assert tail[k - 1] == text[k];
        forall i | 0 <= i < k - 1 ensures Lexable(tail[i]) {
          assert tail[i] == text[i + 1];
        }
      }
      LexRejected(tail, k - 1);
    }
  }

  /** A text the tokenizer does not accept has a first rejected character. */
  lemma {:induction false} FirstBadExists(text: string)
    requires !AllLexable(text)
    ensures exists k :: FirstBad(text, k)
    decreases |text|
  {
    if Lexable(text[0]) {
      var tail := text[1..];
      assert !AllLexable(tail) by {
        var j :| 0 <= j < |text| && !Lexable(text[j]);
        assert j > 0 && tail[j - 1] == text[j];
      }
      FirstBadExists(tail);
      var k :| FirstBad(tail, k);
      assert FirstBad(text, k + 1) by {
        assert text[k + 1] == tail[k];
        forall i | 0 <= i < k + 1 ensures Lexable(text[i]) {
          if i > 0 {
            assert text[i] == tail[i - 1];
          }
        }
      }
    } else {
      assert FirstBad(text, 0);
    }
  }

  /** Spaces removed or not, the reference lexer gives the same answer. */
  lemma {:induction false} LexIgnoresSpaces(text: string)
    ensures Lex(StripSpaces(text)) == Lex(text)
    decreases |text|
  {
    if |text| > 0 {
      var tail := text[1..];
      LexIgnoresSpaces(tail);
      if text[0] != ' ' {
        var stripped := [text[0]] + StripSpaces(tail);
        assert stripped[0] == text[0] && stripped[1..] == StripSpaces(tail);
      }
    }
  }

  /** Iterating a fresh tokenizer succeeds exactly on texts made of spaces, `+`,
      `-` and digits, and then yields one token per non-space character in order
      and a final `EOF`; otherwise it fails naming the first rejected character. */
  lemma TokenizeResult(code: string)
    ensures AllLexable(code) ==>
              && AllTokenChars(StripSpaces(code))
              && Tokenize(Start(code)) == Ok(TokensOf(StripSpaces(code)) + [EofToken])
    ensures !AllLexable(code) ==>
              exists k :: FirstBad(code, k) && Tokenize(Start(code)) == Err(LexError(code[k]))
  {
    TokenizeFromStart(code);
    if AllLexable(code) {
      LexAccepted(code);
    } else {
      FirstBadExists(code);
      var k :| FirstBad(code, k);
      LexRejected(code, k);
    }
  }

  /** Spaces are transparent: tokenizing the text with its spaces removed gives
      the same tokens, or the same error. */
  lemma SpacesAreTransparent(code: string)
    ensures Tokenize(Start(code)) == Tokenize(Start(StripSpaces(code)))
  {
    TokenizeFromStart(code);
    TokenizeFromStart(StripSpaces(code));
    LexIgnoresSpaces(code);
  }
}
