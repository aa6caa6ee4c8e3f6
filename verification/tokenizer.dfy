/** The tokenizer proper (src/tokenizer.py lines 17-43): a cursor over the input
    text, the step that produces one token, and the iteration that runs steps
    until the end-of-input token. The Python object's mutable `ptr` becomes an
    immutable state that each step returns anew. */
module Tokenizer {
  import opened Wrappers
  import opened Tokens

  /** The tokenizer's state: the input text and the cursor into it. */
  datatype State = State(code: string, ptr: nat) {
    /** The cursor never leaves the text; position `|code|` means end of input. */
    predicate Valid() {
      ptr <= |code|
    }
  }

  /** The state of a freshly constructed tokenizer: it holds the given text and
      the cursor starts at 0. */
  function Start(code: string): (s: State)
    ensures s.Valid()
    ensures s.code == code && s.ptr == 0
  {
    State(code, 0)
  }

  /** What one call of the step yields: the token, or the error it raises, and
      the state left behind in either case. */
  datatype Step = Step(result: Result<Token, LexError>, after: State)

  /** Nothing but spaces remains from position `p` on. */
  predicate OnlySpacesFrom(code: string, p: nat) {
    forall i :: p <= i < |code| ==> code[i] == ' '
  }

  /** `k` is the first position at or after `p` that does not hold a space. */
  predicate FirstNonSpace(code: string, p: nat, k: nat) {
    && p <= k < |code|
    && code[k] != ' '
    && forall i :: p <= i < k ==> code[i] == ' '
  }

  /** The position reached by moving past every consecutive space from `ptr`. */
  function SkipSpaces(code: string, ptr: nat): (r: nat)
    requires ptr <= |code|
    ensures ptr <= r <= |code|
    ensures forall i :: ptr <= i < r ==> code[i] == ' '
    ensures r == |code| || code[r] != ' '
    decreases |code| - ptr
  {
    if ptr < |code| && code[ptr] == ' ' then SkipSpaces(code, ptr + 1) else ptr
  }

  /** One call of `next_token`: skip spaces, then report end of input or consume
      and classify exactly one character. */
  function NextToken(s: State): (r: Step)
    requires s.Valid()
    ensures r.after.code == s.code && r.after.Valid()
    ensures s.ptr <= r.after.ptr
    ensures r.result == Ok(EofToken) <==> OnlySpacesFrom(s.code, s.ptr)
    ensures r.result == Ok(EofToken) ==> r.after.ptr == |s.code|
    ensures r.result != Ok(EofToken) ==>
              && s.ptr < r.after.ptr
              && FirstNonSpace(s.code, s.ptr, r.after.ptr - 1)
              && r.result == Classify(s.code[r.after.ptr - 1])
    ensures r.result.Ok? ==> r.result.value.WellFormed()
  {
    var p := SkipSpaces(s.code, s.ptr);
    if p == |s.code| then
      Step(Ok(EofToken), State(s.code, p))
    else
      Step(Classify(s.code[p]), State(s.code, p + 1))
  }

  /** Conversely, the first non-space character at or after the cursor alone
      decides the step: it is consumed and classified, and the cursor moves
      just past it. */
  lemma NextTokenReadsFirstNonSpace(s: State, k: nat)
    requires s.Valid() && FirstNonSpace(s.code, s.ptr, k)
    ensures NextToken(s) == Step(Classify(s.code[k]), State(s.code, k + 1))
  {
  }

  /** Iterating the tokenizer (`__iter__`, collected into a list): every token
      up to and including the first `EOF`, or the error of the first failing
      step. */
  function Tokenize(s: State): (r: Result<seq<Token>, LexError>)
    requires s.Valid()
    ensures r.Ok? ==> |r.value| >= 1 && r.value[|r.value| - 1] == EofToken
    ensures r.Ok? ==> forall i :: 0 <= i < |r.value| - 1 ==> r.value[i].tokenType != EOF
    ensures r.Ok? ==> forall i :: 0 <= i < |r.value| ==> r.value[i].WellFormed()
    ensures r.Ok? ==> |r.value| <= |s.code| - s.ptr + 1
    decreases |s.code| - s.ptr
  {
    var step := NextToken(s);
    match step.result
    case Err(e) => Err(e)
    case Ok(t) =>
      if t.tokenType == EOF then Ok([t])
      else
        match Tokenize(step.after)
        case Err(e) => Err(e)
        case Ok(rest) => Ok([t] + rest)
  }

  /** The state after `n` successive calls of `next_token`, a caller that catches
      an error resuming after the offending character. */
  function Advance(s: State, n: nat): (r: State)
    requires s.Valid()
    ensures r.Valid() && r.code == s.code
    decreases n
  {
    if n == 0 then s else Advance(NextToken(s).after, n - 1)
  }

  /** The cursor stays within the text and never moves backwards,
      however many calls are made and whether they return or raise. */
  lemma {:induction false} CursorMonotone(s: State, m: nat, n: nat)
    requires s.Valid() && m <= n
    ensures s.ptr <= Advance(s, m).ptr <= Advance(s, n).ptr <= |s.code|
    decreases n
  {
    if n > 0 {
      var next := NextToken(s).after;
      if m == 0 {
        CursorMonotone(next, 0, n - 1);
      } else {
        CursorMonotone(next, m - 1, n - 1);
      }
    }
  }

  /** Once `EOF` has been returned, every later call returns `EOF` again and
      leaves the cursor at the end of the text. */
  lemma {:induction false} EofIsSticky(s: State, n: nat)
    requires s.Valid() && NextToken(s).result == Ok(EofToken)
    ensures Advance(NextToken(s).after, n) == NextToken(s).after
    ensures NextToken(Advance(NextToken(s).after, n)) == Step(Ok(EofToken), NextToken(s).after)
    decreases n
  {
    var done := NextToken(s).after;
    assert NextToken(done) == Step(Ok(EofToken), done);
    if n > 0 {
      EofIsSticky(done, n - 1);
    }
  }
}
