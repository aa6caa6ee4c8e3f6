/** The tokenizer's two loops written as the source writes them: the
    space-skipping `while` of `next_token` (src/tokenizer.py lines 27-43) and
    the pull loop of `__iter__` (lines 22-25), each proved to compute what the
    functional model of module `Tokenizer` computes. */
module ScannerLoops {
  import opened Wrappers
  import opened Tokens
  import opened Tokenizer

  /** Puts already collected tokens in front of the outcome of the remaining
      iteration; an error discards them. */
  function Prepend(done: seq<Token>, rest: Result<seq<Token>, LexError>): Result<seq<Token>, LexError> {
    match rest
    case Err(e) => Err(e)
    case Ok(ts) => Ok(done + ts)
  }

  /** `next_token` with its cursor loop: advance over spaces, then either stop
      at the end of the text or consume one character and classify it. */
  method ScanNextToken(s: State) returns (r: Step)
    requires s.Valid()
    ensures r == NextToken(s)
  {
    var ptr := s.ptr;
    while ptr < |s.code| && s.code[ptr] == ' '
      invariant s.ptr <= ptr <= |s.code|
      invariant SkipSpaces(s.code, ptr) == SkipSpaces(s.code, s.ptr)
      decreases |s.code| - ptr
    {
      ptr := ptr + 1;
    }
    if ptr == |s.code| {
      return Step(Ok(EofToken), State(s.code, ptr));
    }
    var ch := s.code[ptr];
    ptr := ptr + 1;
    var after := State(s.code, ptr);
    if ch == '+' {
      r := Step(Ok(Token(PLUS, None)), after);
    } else if ch == '-' {
      r := Step(Ok(Token(MINUS, None)), after);
    } else if IsDigit(ch) {
      r := Step(Ok(Token(INT, Some(DigitValue(ch)))), after);
    } else {
      r := Step(Err(LexError(ch)), after);
    }
  }

  /** Collected tokens can be moved from the pending outcome into the prefix. */
  lemma PrependAssoc(done: seq<Token>, more: seq<Token>, rest: Result<seq<Token>, LexError>)
    ensures Prepend(done, Prepend(more, rest)) == Prepend(done + more, rest)
  {
    if rest.Ok? {
      assert done + (more + rest.value) == (done + more) + rest.value;
    }
  }

  /** A call that returns a non-`EOF` token contributes that token in front of
      the rest of the iteration. */
  lemma TokenizeEmits(s: State)
    requires s.Valid() && NextToken(s).result.Ok? && NextToken(s).result.value.tokenType != EOF
    ensures Tokenize(s) == Prepend([NextToken(s).result.value], Tokenize(NextToken(s).after))
  {
  }

  /** `list(tokenizer)`: pull tokens until the first `EOF`, which is kept; an
      error from any pull aborts the whole iteration. */
  method CollectTokens(s: State) returns (r: Result<seq<Token>, LexError>)
    requires s.Valid()
    ensures r == Tokenize(s)
  {
    var cur := s;
    var collected: seq<Token> := [];
    assert Tokenize(s).Ok? ==> [] + Tokenize(s).value == Tokenize(s).value;
    while true
      invariant cur.Valid() && cur.code == s.code
      invariant Tokenize(s) == Prepend(collected, Tokenize(cur))
      decreases |cur.code| - cur.ptr
    {
      var step := ScanNextToken(cur);
      match step.result {
        case Err(e) =>
          return Err(e);
        case Ok(t) =>
          if t.tokenType == EOF {
            return Ok(collected + [t]);
          }
          TokenizeEmits(cur);
          PrependAssoc(collected, [t], Tokenize(step.after));
          collected := collected + [t];
          cur := step.after;
      }
    }
  }
}
