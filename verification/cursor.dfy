/** The token cursor and the token helpers of parser.c: `next`, `expect`,
    `expect_number`, `equal` and `at_eof`.

    The token list is a sequence that ends with an end-of-input token; the
    cursor is an index into it. The C cursor may step onto the NULL after the
    last token, after which the next read dereferences NULL; here that step
    itself fails with `PastEnd`.
 */
module Cursor {
  import opened Results
  import opened Ast

  /** What the lexer hands over: a non-empty token list ending in TK_EOF. */
  predicate WellFormed(toks: seq<Token>) {
    |toks| > 0 && toks[|toks| - 1].kind == TkEof
  }

  /** The parser state threaded through every step: the cursor, and the
      active local-variable list (most recent entry first). */
  datatype State = State(pos: nat, locals: seq<Var>)

  /** `equal`: compares length and text only; the token kind is ignored, and
      the length test adds nothing to the text comparison. */
  function Equal(t: Token, s: string): (b: bool)
    ensures b <==> t.text == s
  {
    |t.text| == |s| && t.text == s
  }

  /** `at_eof`: only the token kind decides, never the text. */
  predicate AtEof(t: Token) {
    t.kind == TkEof
  }

  /** `next`: moves the cursor one token on. */
  function Next(toks: seq<Token>, st: State): (r: Result<State>)
    requires st.pos < |toks|
    ensures r.Ok? <==> st.pos + 1 < |toks|
    ensures r.Ok? ==> r.value == State(st.pos + 1, st.locals)
  {
    if st.pos + 1 < |toks| then Ok(State(st.pos + 1, st.locals)) else Fail(PastEnd(st.pos + 1))
  }

  /** The token after the cursor, read through the current token's link. */
  function Lookahead(toks: seq<Token>, pos: nat): (r: Result<Token>)
    ensures r.Ok? <==> pos + 1 < |toks|
    ensures r.Ok? ==> r.value == toks[pos + 1]
  {
    if pos + 1 < |toks| then Ok(toks[pos + 1]) else Fail(PastEnd(pos + 1))
  }

  /** `expect`: succeeds, moving on by exactly one token, if and only if the
      current token is a reserved symbol whose text is `op`. */
  function Expect(toks: seq<Token>, st: State, op: string): (r: Result<State>)
    requires WellFormed(toks) && st.pos < |toks|
    ensures r.Ok? <==> toks[st.pos].kind == TkReserved && toks[st.pos].text == op
    ensures r.Ok? ==> r.value == State(st.pos + 1, st.locals) && r.value.pos < |toks|
    ensures r.Fail? ==> r.error == Unexpected(st.pos, op)
  {
    var t := toks[st.pos];
    if t.kind != TkReserved || |op| != |t.text| || t.text != op then
      Fail(Unexpected(st.pos, op))
    else
      // a reserved token is never the final end-of-input token
      Ok(State(st.pos + 1, st.locals))
  }

  /** `expect_number`: succeeds, returning the token's value and moving on by
      one token, if and only if the current token is a number. */
  function ExpectNumber(toks: seq<Token>, st: State): (r: Result<(int, State)>)
    requires WellFormed(toks) && st.pos < |toks|
    ensures r.Ok? <==> toks[st.pos].kind == TkNum
    ensures r.Ok? ==> r.value == (toks[st.pos].val, State(st.pos + 1, st.locals))
    ensures r.Fail? ==> r.error == NotANumber(st.pos)
  {
    var t := toks[st.pos];
    if t.kind != TkNum then
      Fail(NotANumber(st.pos))
    else
      // a number token is never the final end-of-input token
      Ok((t.val, State(st.pos + 1, st.locals)))
  }
}
