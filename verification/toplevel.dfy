/** Top level of parser.c: `function_def`, `declaration`, `program` and
    `parse`.

    Locals are reset only after a function body has been parsed; a top-level
    variable declaration leaves its name in the active list, so it becomes a
    local of the function that follows it.
 */
module TopLevel {
  import opened Results
  import opened Ast
  import opened Cursor
  import opened Symbols
  import opened TypeParser
  import opened Parser

  /** The argument counter starts at 6 and may not exceed 128. */
  const ArgcStart: nat := 6
  const ArgcMax: nat := 128

  /** Every parameter parsed, in source order, and the argument counter. */
  datatype ParamList = ParamList(all: seq<Node>, argc: nat)

  /** A parameter is a variable reference of the function's local list that
      carries its declared type. */
  ghost predicate ParamIn(p: Node, locals: seq<Var>) {
    p.LVar? && p.ty.Some? && Var(p.name, p.offset) in locals
  }

  /** A parameter named by the text of token `t`. */
  predicate NamedBy(p: Node, t: Token) {
    p.LVar? && p.name == t.text
  }

  /** The last parameter of a non-empty list is named by token `t`. */
  predicate LastNamedBy(ps: seq<Node>, t: Token) {
    |ps| > 0 && NamedBy(ps[|ps| - 1], t)
  }

  /** The parameter list `function_def` keeps: it stores the first parameter
      and then overwrites the link after it for every later one, so only the
      first and the last remain. */
  function Kept(all: seq<Node>): (r: seq<Node>)
    ensures |r| == if |all| < 2 then |all| else 2
    ensures |all| > 0 ==> r[0] == all[0] && r[|r| - 1] == all[|all| - 1]
    ensures forall p :: p in r ==> p in all
  {
    if |all| < 2 then all else [all[0], all[|all| - 1]]
  }

  /** One parameter: a type, which must be present, then a name that goes
      through `expect_ident` and so becomes a local. */
  function Param(toks: seq<Token>, st: State): (r: Result<(Node, State)>)
    requires WellFormed(toks) && st.pos < |toks|
    ensures r.Ok? ==> Step(toks, st, r.value.1) && r.value.1.pos > st.pos
    ensures r.Ok? ==> ParamIn(r.value.0, r.value.1.locals)
    ensures !TypeAhead(toks, st.pos) ==> r == Fail(ArgNeedsType(st.pos))
    ensures r.Ok? ==> NamedBy(r.value.0, toks[r.value.1.pos - 1])
  {
    var g :- GetType(toks, st);
    if g.0.None? then Fail(ArgNeedsType(st.pos))
    else
      var a :- ExpectIdent(toks, g.1);
      Ok((WithType(a.0, g.0), a.1))
  }

  /** The comma loop of `function_def`: each comma first bumps the counter,
      failing once it passes 128, and is followed by a parameter. The last
      parameter it reads is named by the identifier just before the token it
      stops at. */
  function MoreParams(toks: seq<Token>, st: State, argc: nat): (r: Result<(ParamList, State)>)
    requires WellFormed(toks) && st.pos < |toks|
    ensures r.Ok? ==> Step(toks, st, r.value.1) && !Equal(toks[r.value.1.pos], ",")
    ensures r.Ok? ==> r.value.0.argc == argc + |r.value.0.all|
    ensures r.Ok? && argc <= ArgcMax ==> r.value.0.argc <= ArgcMax
    ensures r.Ok? ==> forall p :: p in r.value.0.all ==> ParamIn(p, r.value.1.locals)
    ensures Equal(toks[st.pos], ",") && argc >= ArgcMax ==> r == Fail(TooManyArgs(st.pos))
    ensures r.Ok? ==> (r.value.0.all == [] <==> !Equal(toks[st.pos], ","))
    ensures r.Ok? && r.value.0.all == [] ==> r.value.1 == st
    ensures r.Ok? && r.value.0.all != [] ==> r.value.1.pos > st.pos
    ensures r.Ok? && r.value.0.all != [] ==> LastNamedBy(r.value.0.all, toks[r.value.1.pos - 1])
    decreases |toks| - st.pos, 1
  {
    if !Equal(toks[st.pos], ",") then Ok((ParamList([], argc), st))
    else if argc + 1 > ArgcMax then Fail(TooManyArgs(st.pos))
    // `next` off the last token
    else if st.pos + 1 == |toks| then Fail(PastEnd(st.pos + 1))
    else CommaTurn(toks, State(st.pos + 1, st.locals), argc + 1)
  }

  /** One turn of the comma loop after its comma: a parameter, then the rest
      of the loop. The counter has already been bumped for this parameter. */
  function CommaTurn(toks: seq<Token>, st: State, argc: nat): (r: Result<(ParamList, State)>)
    requires WellFormed(toks) && st.pos < |toks|
    ensures r.Ok? ==> Step(toks, st, r.value.1) && !Equal(toks[r.value.1.pos], ",")
    ensures r.Ok? ==> r.value.0.argc + 1 == argc + |r.value.0.all|
    ensures r.Ok? && argc <= ArgcMax ==> r.value.0.argc <= ArgcMax
    ensures r.Ok? ==> forall p :: p in r.value.0.all ==> ParamIn(p, r.value.1.locals)
    ensures r.Ok? ==> r.value.0.all != [] && r.value.1.pos > st.pos
    ensures r.Ok? ==> LastNamedBy(r.value.0.all, toks[r.value.1.pos - 1])
    decreases |toks| - st.pos + 1, 0
  {
    var p :- Param(toks, st);
    var rest :- MoreParams(toks, p.1, argc);
    Ok((ParamList([p.0] + rest.0.all, rest.0.argc), rest.1))
  }

  /** A non-empty parameter list: the first parameter, counted, then the
      comma loop. */
  function Params(toks: seq<Token>, st: State): (r: Result<(ParamList, State)>)
    requires WellFormed(toks) && st.pos < |toks|
    ensures r.Ok? ==> Step(toks, st, r.value.1) && r.value.1.pos > st.pos
    ensures r.Ok? ==> |r.value.0.all| > 0 && r.value.0.argc == ArgcStart + |r.value.0.all|
    ensures r.Ok? ==> r.value.0.argc <= ArgcMax
    ensures r.Ok? ==> forall p :: p in r.value.0.all ==> ParamIn(p, r.value.1.locals)
    ensures r.Ok? ==> Param(toks, st).Ok? && r.value.0.all[0] == Param(toks, st).value.0
    ensures r.Ok? ==> LastNamedBy(r.value.0.all, toks[r.value.1.pos - 1])
  {
    var p :- Param(toks, st);
    var rest :- MoreParams(toks, p.1, ArgcStart + 1);
    Ok((ParamList([p.0] + rest.0.all, rest.0.argc), rest.1))
  }

  /** One turn of the comma loop with room in the counter: the parameter
      after the comma goes in front of what the rest of the loop keeps. */
  lemma {:induction false} CommaStep(toks: seq<Token>, st: State, argc: nat, p: Node, s: State, all: seq<Node>, c: nat, q: State)
    requires WellFormed(toks) && st.pos + 1 < |toks| && Equal(toks[st.pos], ",") && argc < ArgcMax
    requires Param(toks, State(st.pos + 1, st.locals)) == Ok((p, s)) && s.pos < |toks|
    requires MoreParams(toks, s, argc + 1) == Ok((ParamList(all, c), q))
    ensures MoreParams(toks, st, argc) == Ok((ParamList([p] + all, c), q))
  {
    assert Next(toks, st) == Ok(State(st.pos + 1, st.locals));
  }

  /** The first parameter and the comma loop after it. */
  lemma {:induction false} ParamsOfParts(toks: seq<Token>, st: State, p: Node, s: State, rest: seq<Node>, c: nat, q: State)
    requires WellFormed(toks) && st.pos < |toks|
    requires Param(toks, st) == Ok((p, s)) && s.pos < |toks|
    requires MoreParams(toks, s, ArgcStart + 1) == Ok((ParamList(rest, c), q))
    ensures Params(toks, st) == Ok((ParamList([p] + rest, c), q))
  {
  }

  /** A successful parameter parse: the counter is 6 plus the number of
      parameters and at most 128, and every parameter is a typed local of the
      resulting list. */
  ghost predicate ParamsParsed(toks: seq<Token>, st: State, r: Result<(ParamList, State)>) {
    r.Ok? ==>
      && Step(toks, st, r.value.1)
      && r.value.0.argc == ArgcStart + |r.value.0.all| <= ArgcMax
      && forall p :: p in r.value.0.all ==> ParamIn(p, r.value.1.locals)
  }

  /** The parenthesised parameter list of `function_def`: nothing when `)`
      follows `(` at once, otherwise a non-empty list whose first parameter
      is the one read just after `(`. */
  function ParamClause(toks: seq<Token>, st: State): (r: Result<(ParamList, State)>)
    requires WellFormed(toks) && st.pos < |toks|
    ensures ParamsParsed(toks, st, r) && (r.Ok? ==> r.value.1.pos > st.pos + 1)
    ensures r.Ok? ==> (r.value.0.all == [] <==> r.value.1.pos == st.pos + 2)
    ensures r.Ok? ==> (r.value.0.all == [] <==> Equal(toks[st.pos + 1], ")"))
    ensures r.Ok? && r.value.0.all != [] ==>
              && Param(toks, State(st.pos + 1, st.locals)).Ok?
              && r.value.0.all[0] == Param(toks, State(st.pos + 1, st.locals)).value.0
    ensures r.Ok? ==> toks[r.value.1.pos - 1].kind == TkReserved && toks[r.value.1.pos - 1].text == ")"
    ensures r.Ok? && r.value.0.all != [] ==> LastNamedBy(r.value.0.all, toks[r.value.1.pos - 2])
  {
    var s1 :- Expect(toks, st, "(");
    assert s1 == State(st.pos + 1, st.locals);
    var ps :- if Equal(toks[s1.pos], ")") then Ok((ParamList([], ArgcStart), s1)) else Params(toks, s1);
    var s2 :- Expect(toks, ps.1, ")");
    Ok((ps.0, s2))
  }

  /** The body of `function_def`: `{` and a compound statement. */
  function FunctionBody(toks: seq<Token>, st: State): (r: Result<(Node, State)>)
    requires WellFormed(toks) && st.pos < |toks|
    ensures r.Ok? ==> Step(toks, st, r.value.1) && r.value.1.pos > st.pos + 1
    ensures r.Ok? ==> r.value.0.Block? && toks[st.pos].text == "{"
    ensures r.Ok? ==> st.pos + 1 < |toks| && CompoundStmt(toks, State(st.pos + 1, st.locals)) == r
    ensures !(toks[st.pos].kind == TkReserved && toks[st.pos].text == "{") ==> r == Fail(Unexpected(st.pos, "{"))
  {
    var s1 :- Expect(toks, st, "{");
    CompoundStmt(toks, s1)
  }

  /** `function_def`: name, `(`, parameters, `)`, `{`, body. The name must be
      an identifier. The function captures the active locals (parameters,
      body variables, and whatever was already there) and the active list is
      left empty. The counter is 6 plus the number of parameters and never
      more than 128; only the first and the last parameter are kept. */
  function FunctionDef(toks: seq<Token>, st: State, ty: Option<Type>): (r: Result<(Decl, State)>)
    requires WellFormed(toks) && st.pos < |toks|
    ensures toks[st.pos].kind != TkIdent ==> r == Fail(BadDeclaration(st.pos))
    ensures r.Ok? ==> st.pos < r.value.1.pos < |toks| && r.value.1.locals == []
    ensures r.Ok? ==> r.value.0.Function? && r.value.0.name == toks[st.pos].text && r.value.0.ty == ty
    ensures r.Ok? ==> r.value.0.body.Block?
    ensures r.Ok? ==> Extends(r.value.0.locals, st.locals)
    ensures r.Ok? && LocalsWF(st.locals) ==> LocalsWF(r.value.0.locals)
    ensures r.Ok? ==> ArgcStart <= r.value.0.argc <= ArgcMax
    ensures r.Ok? ==> |r.value.0.params| == if r.value.0.argc - ArgcStart < 2 then r.value.0.argc - ArgcStart else 2
    ensures r.Ok? ==> forall p :: p in r.value.0.params ==> ParamIn(p, r.value.0.locals)
    ensures r.Ok? ==>
              && ParamClause(toks, State(st.pos + 1, st.locals)).Ok?
              && r.value.0.params == Kept(ParamClause(toks, State(st.pos + 1, st.locals)).value.0.all)
              && r.value.0.argc == ParamClause(toks, State(st.pos + 1, st.locals)).value.0.argc
    ensures r.Ok? && r.value.0.params != [] ==>
              && st.pos + 2 < |toks|
              && Param(toks, State(st.pos + 2, st.locals)).Ok?
              && NamedBy(r.value.0.params[0], toks[Param(toks, State(st.pos + 2, st.locals)).value.1.pos - 1])
    ensures r.Ok? && r.value.0.params != [] ==>
              NamedBy(r.value.0.params[|r.value.0.params| - 1], toks[ParamClause(toks, State(st.pos + 1, st.locals)).value.1.pos - 2])
    ensures r.Ok? ==>
              FunctionBody(toks, ParamClause(toks, State(st.pos + 1, st.locals)).value.1) == Ok((r.value.0.body, State(r.value.1.pos, r.value.0.locals)))
  {
    var t := toks[st.pos];
    if t.kind != TkIdent then Fail(BadDeclaration(st.pos))
    else
      // an identifier is never the final end-of-input token
      var s1 := State(st.pos + 1, st.locals);
      var ps :- ParamClause(toks, s1);
      var b :- FunctionBody(toks, ps.1);
      Ok((Function(t.text, ty, Kept(ps.0.all), ps.0.argc, b.0, b.1.locals), State(b.1.pos, [])))
  }

  /** `declaration`: an optional type, then a function definition if the
      token two places after the start is `(`, else an `init_declarator`
      and `;`. */
  function Declaration(toks: seq<Token>, st: State): (r: Result<(Decl, State)>)
    requires WellFormed(toks) && st.pos < |toks|
    ensures r.Ok? ==> st.pos < r.value.1.pos < |toks|
    ensures r.Ok? ==> st.pos + 2 < |toks| && (r.value.0.Function? <==> Equal(toks[st.pos + 2], "("))
    ensures r.Ok? && r.value.0.Function? ==> r.value.1.locals == [] && Extends(r.value.0.locals, st.locals)
    ensures r.Ok? && r.value.0.Function? && LocalsWF(st.locals) ==> LocalsWF(r.value.0.locals)
    ensures r.Ok? && r.value.0.Global? ==> Step(toks, st, r.value.1)
    ensures GetType(toks, st).Fail? ==> r == Fail(GetType(toks, st).error)
    ensures GetType(toks, st).Ok? && st.pos + 2 < |toks| ==>
              var g := GetType(toks, st).value;
              r == if Equal(toks[st.pos + 2], "(") then FunctionDef(toks, g.1, g.0) else GlobalDecl(toks, g.1, g.0)
  {
    var g :- GetType(toks, st);
    var far :- Lookahead(toks, st.pos + 1);
    if Equal(far, "(") then FunctionDef(toks, g.1, g.0) else GlobalDecl(toks, g.1, g.0)
  }

  /** The variable branch of `declaration`: an `init_declarator` and `;`.
      Its local stays in the active list. */
  function GlobalDecl(toks: seq<Token>, st: State, ty: Option<Type>): (r: Result<(Decl, State)>)
    requires WellFormed(toks) && st.pos < |toks|
    ensures r.Ok? ==> Step(toks, st, r.value.1) && r.value.1.pos > st.pos + 1
    ensures r.Ok? ==> r.value.0.Global? && r.value.0.ty == ty && r.value.0.body.IsExpr()
    ensures r.Ok? ==> toks[r.value.1.pos - 1].text == ";"
    ensures r.Ok? ==> InitDeclarator(toks, st) == Ok((r.value.0.body, State(r.value.1.pos - 1, r.value.1.locals)))
  {
    var n :- InitDeclarator(toks, st);
    var s :- Expect(toks, n.1, ";");
    Ok((Global(ty, n.0), s))
  }

  /** `program`: one declaration. */
  function Program(toks: seq<Token>, st: State): (r: Result<(Decl, State)>)
    requires WellFormed(toks) && st.pos < |toks|
    ensures r.Ok? ==> st.pos < r.value.1.pos < |toks|
    ensures r.Ok? && LocalsWF(st.locals) ==> LocalsWF(r.value.1.locals)
    ensures r.Ok? && r.value.0.Function? && LocalsWF(st.locals) ==> LocalsWF(r.value.0.locals)
  {
    Declaration(toks, st)
  }

  /** A function segment whose captured locals have the 8n, ..., 8 shape. */
  ghost predicate SegmentWF(s: Segment) {
    s.contents.Some? && s.contents.value.Function? ==> LocalsWF(s.contents.value.locals)
  }

  /** The loop of `parse` once it is known not to be at the end: one segment
      per declaration, in order, until the end-of-input token. The end test
      is `at_eof` (parser.c:86), which looks only at the token kind. */
  function Segments(toks: seq<Token>, st: State): (r: Result<seq<Segment>>)
    requires WellFormed(toks) && st.pos < |toks| && !AtEof(toks[st.pos])
    requires LocalsWF(st.locals)
    ensures r.Ok? ==> |r.value| > 0
    ensures r.Ok? ==> forall i :: 0 <= i < |r.value| ==> r.value[i].contents.Some? && SegmentWF(r.value[i])
    decreases |toks| - st.pos
  {
    var d :- Program(toks, st);
    if AtEof(toks[d.1.pos]) then Ok([Segment(Some(d.0))])
    else
      var rest :- Segments(toks, d.1);
      Ok([Segment(Some(d.0))] + rest)
  }

  /** A run of the `parse` loop, one declaration at a time: the first state
      is in the input; with no declaration left it is at the end of input,
      and otherwise it is not, `program` reads the first declaration from it
      and stops at the second state, and the rest is a run from there. So
      from the state of each index `program` reads the declaration of that
      index, and only the last state is at the end of input. */
  ghost predicate DeclTrace(toks: seq<Token>, sts: seq<State>, ds: seq<Decl>)
    decreases |ds|
  {
    && WellFormed(toks)
    && |sts| == |ds| + 1
    && sts[0].pos < |toks|
    && if ds == [] then AtEof(toks[sts[0].pos])
       else
         && !AtEof(toks[sts[0].pos])
         && Program(toks, sts[0]) == Ok((ds[0], sts[1]))
         && DeclTrace(toks, sts[1..], ds[1..])
  }

  /** The segments hold the declarations, one each and in order. */
  predicate Holds(segs: seq<Segment>, ds: seq<Decl>) {
    |segs| == |ds| && forall i :: 0 <= i < |ds| ==> segs[i].contents == Some(ds[i])
  }

  /** A declaration read in front of a run extends it by one step. */
  lemma {:induction false} TraceCons(toks: seq<Token>, st: State, d: Decl, sts: seq<State>, ds: seq<Decl>)
    requires DeclTrace(toks, sts, ds) && st.pos < |toks| && !AtEof(toks[st.pos])
    requires Program(toks, st) == Ok((d, sts[0]))
    ensures DeclTrace(toks, [st] + sts, [d] + ds)
  {
    assert ([st] + sts)[1..] == sts && ([d] + ds)[1..] == ds;
  }

  /** Every run of the loop from a state that is not at the end is what
      `Segments` returns. */
  lemma {:induction false} TraceSegments(toks: seq<Token>, sts: seq<State>, ds: seq<Decl>)
    requires DeclTrace(toks, sts, ds) && |ds| > 0 && LocalsWF(sts[0].locals)
    ensures Segments(toks, sts[0]).Ok? && Holds(Segments(toks, sts[0]).value, ds)
    decreases |ds|
  {
    if |ds| > 1 {
      TraceSegments(toks, sts[1..], ds[1..]);
      var rest := Segments(toks, sts[1]).value;
      assert Segments(toks, sts[0]).value == [Segment(Some(ds[0]))] + rest;
    } else {
      assert AtEof(toks[sts[1].pos]);
    }
  }

  /** Conversely, a successful `Segments` is such a run: the states it passes
      through and the declarations it reads. */
  lemma {:induction false} SegmentsTrace(toks: seq<Token>, st: State) returns (sts: seq<State>, ds: seq<Decl>)
    requires WellFormed(toks) && st.pos < |toks| && !AtEof(toks[st.pos]) && LocalsWF(st.locals)
    ensures Segments(toks, st).Ok? ==> DeclTrace(toks, sts, ds) && sts[0] == st && Holds(Segments(toks, st).value, ds)
    decreases |toks| - st.pos
  {
    sts, ds := [st], [];
    if Segments(toks, st).Ok? {
      var d := Program(toks, st).value;
      if AtEof(toks[d.1.pos]) {
        sts, ds := [st, d.1], [d.0];
      } else {
        var sts', ds' := SegmentsTrace(toks, d.1);
        TraceCons(toks, st, d.0, sts', ds');
        sts, ds := [st] + sts', [d.0] + ds';
      }
    }
  }

  /** `parse`: the segment list of a token list. An input that is only the
      end-of-input token gives a single empty segment; otherwise every
      segment holds a declaration, and every function's captured locals read
      8n, ..., 8 with distinct names. */
  function Parse(toks: seq<Token>): (r: Result<seq<Segment>>)
    requires WellFormed(toks)
    ensures AtEof(toks[0]) ==> r == Ok([Segment(None)])
    ensures r.Ok? && !AtEof(toks[0]) ==> |r.value| > 0 && forall i :: 0 <= i < |r.value| ==> r.value[i].contents.Some?
    ensures r.Ok? ==> forall i :: 0 <= i < |r.value| ==> SegmentWF(r.value[i])
  {
    if AtEof(toks[0]) then Ok([Segment(None)])
    else Segments(toks, State(0, []))
  }

  /** `parse` succeeds exactly on the inputs the loop can run through from the
      first token with no locals, and then holds that run's declarations; an
      input with no declaration gives the single empty segment. */
  lemma {:induction false} ParseReadsDecls(toks: seq<Token>, sts: seq<State>, ds: seq<Decl>)
    requires DeclTrace(toks, sts, ds) && sts[0] == State(0, [])
    ensures Parse(toks).Ok?
    ensures ds == [] ==> Parse(toks).value == [Segment(None)]
    ensures ds != [] ==> Holds(Parse(toks).value, ds)
  {
    if ds != [] {
      TraceSegments(toks, sts, ds);
    }
  }

  /** A successful `parse` of an input that is not at once at its end is a run
      of the loop from the first token with no locals. */
  lemma {:induction false} ParseTrace(toks: seq<Token>) returns (sts: seq<State>, ds: seq<Decl>)
    requires WellFormed(toks)
    ensures Parse(toks).Ok? && !AtEof(toks[0]) ==>
              DeclTrace(toks, sts, ds) && sts[0] == State(0, []) && Holds(Parse(toks).value, ds)
  {
    sts, ds := [], [];
    if !AtEof(toks[0]) {
      sts, ds := SegmentsTrace(toks, State(0, []));
    }
  }
}
