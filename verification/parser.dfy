/** The expression and statement parser of parser.c.

    The functions are mutually recursive, exactly as in C. Each takes the
    token list and a state (cursor, active locals) and returns the parsed
    value with the state after it, or the first error. Termination follows
    the number of tokens left, then a rank that orders the functions which
    call each other without consuming a token.

    Operator precedence, lowest first: assign, equality, relational, add,
    mul, unary, primary. `assign`, `add` and `mul` take their right operand
    from their own level (so chains nest to the right); `equality` and
    `relational` take it from the next tighter level and do not loop.
 */
module Parser {
  import opened Results
  import opened Ast
  import opened Cursor
  import opened Symbols
  import opened TypeParser

  /** What every parse step guarantees of the state it leaves: the cursor has
      not moved back and still points into the list, no existing local was
      changed or dropped, and a well-formed local list stays well-formed. */
  ghost predicate Step(toks: seq<Token>, st: State, st2: State) {
    && st.pos <= st2.pos < |toks|
    && Extends(st2.locals, st.locals)
    && (LocalsWF(st.locals) ==> LocalsWF(st2.locals))
  }

  /** A successful expression parse consumed at least one token and built an
      expression node. */
  ghost predicate ExprParsed(toks: seq<Token>, st: State, r: Result<(Node, State)>) {
    r.Ok? ==> Step(toks, st, r.value.1) && r.value.1.pos > st.pos && r.value.0.IsExpr()
  }

  /** Operator tables of the binary levels: token text and node kind. */
  const MulOps: seq<(string, NodeKind)> := [("*", NdMul), ("/", NdDiv)]
  const AddOps: seq<(string, NodeKind)> := [("+", NdAdd), ("-", NdSub)]
  const RelOps: seq<(string, NodeKind)> := [("<=", NdLte), (">=", NdGte), ("<", NdLt), (">", NdGt)]
  const EqOps: seq<(string, NodeKind)> := [("==", NdEq), ("!=", NdNeq)]
  const AssignOps: seq<(string, NodeKind)> := [("=", NdAssign)]

  /** The chain of `equal` tests at one level: the kind of the first table
      entry whose text the token has. */
  function OpAt(t: Token, ops: seq<(string, NodeKind)>): (r: Option<NodeKind>)
    ensures r.None? <==> forall i :: 0 <= i < |ops| ==> !Equal(t, ops[i].0)
    ensures r.Some? ==> exists i :: 0 <= i < |ops| && Equal(t, ops[i].0) && ops[i].1 == r.value
  {
    if |ops| == 0 then None
    else if Equal(t, ops[0].0) then Some(ops[0].1)
    else OpAt(t, ops[1..])
  }

  /** `funcall`: the name, `(`, zero or more comma-separated arguments in
      source order, `)`. */
  function Funcall(toks: seq<Token>, st: State): (r: Result<(Node, State)>)
    requires WellFormed(toks) && st.pos < |toks|
    ensures ExprParsed(toks, st, r)
    ensures r.Ok? ==> r.value.0.Call? && r.value.0.name == toks[st.pos].text
    ensures r.Ok? ==> st.pos + 2 < |toks| && Equal(toks[st.pos + 1], "(")
    ensures r.Ok? ==> (r.value.0.args == [] <==> Equal(toks[st.pos + 2], ")"))
    ensures r.Ok? && r.value.0.args == [] ==> r.value.1 == State(st.pos + 3, st.locals)
    ensures r.Ok? && r.value.0.args != [] ==>
              Args(toks, State(st.pos + 2, st.locals)) == Ok((r.value.0.args, State(r.value.1.pos - 1, r.value.1.locals)))
    decreases |toks| - st.pos, 0
  {
    var s1 :- Next(toks, st);
    var s2 :- Expect(toks, s1, "(");
    var a :- if Equal(toks[s2.pos], ")") then Ok(([], s2)) else Args(toks, s2);
    var s3 :- Expect(toks, a.1, ")");
    Ok((Call(toks[st.pos].text, a.0, None), s3))
  }

  /** The argument loop of `funcall`: `assign ("," assign)*`. */
  function Args(toks: seq<Token>, st: State): (r: Result<(seq<Node>, State)>)
    requires WellFormed(toks) && st.pos < |toks|
    ensures r.Ok? ==> Step(toks, st, r.value.1) && r.value.1.pos > st.pos && |r.value.0| > 0
    ensures r.Ok? ==> forall i :: 0 <= i < |r.value.0| ==> r.value.0[i].IsExpr()
    decreases |toks| - st.pos, 8
  {
    var a :- Assign(toks, st);
    if Equal(toks[a.1.pos], ",") then
      var s :- Next(toks, a.1);
      var rest :- Args(toks, s);
      Ok(([a.0] + rest.0, rest.1))
    else
      Ok(([a.0], a.1))
  }

  /** The first argument is the assignment read first; there is one argument
      exactly when no comma follows it, and otherwise the rest are the
      arguments read after that comma. */
  lemma {:induction false} ArgsParts(toks: seq<Token>, st: State)
    requires WellFormed(toks) && st.pos < |toks|
    ensures Args(toks, st).Ok? ==>
              && Assign(toks, st).Ok?
              && var args := Args(toks, st).value;
                 var a := Assign(toks, st).value;
                 && args.0[0] == a.0
                 && (|args.0| == 1 <==> !Equal(toks[a.1.pos], ","))
                 && (|args.0| == 1 ==> args.1 == a.1)
                 && (|args.0| > 1 ==> a.1.pos + 1 < |toks| && Args(toks, State(a.1.pos + 1, a.1.locals)) == Ok((args.0[1..], args.1)))
  {
  }

  /** `primary`: a parenthesised expression (the inner node itself), a call
      when an identifier is followed by `(`, any other identifier as a
      variable reference, and otherwise a number. */
  function Primary(toks: seq<Token>, st: State): (r: Result<(Node, State)>)
    requires WellFormed(toks) && st.pos < |toks|
    ensures ExprParsed(toks, st, r)
    decreases |toks| - st.pos, 1
  {
    var t := toks[st.pos];
    if Equal(t, "(") then
      var s1 :- Next(toks, st);
      var e :- Expr(toks, s1);
      var s2 :- Expect(toks, e.1, ")");
      Ok((e.0, s2))
    else if t.kind == TkIdent then
      // an identifier is never the final end-of-input token
      if Equal(toks[st.pos + 1], "(") then Funcall(toks, st) else ExpectIdent(toks, st)
    else
      var n :- ExpectNumber(toks, st);
      Ok((Num(n.0, None), n.1))
  }

  /** `unary`: `+` is followed by a primary and adds nothing; `-` becomes
      `0 - primary`; `*` and `&` take a unary operand and a `0` right child. */
  function Unary(toks: seq<Token>, st: State): (r: Result<(Node, State)>)
    requires WellFormed(toks) && st.pos < |toks|
    ensures ExprParsed(toks, st, r)
    decreases |toks| - st.pos, 2
  {
    var t := toks[st.pos];
    if Equal(t, "+") then
      var s1 :- Next(toks, st);
      Primary(toks, s1)
    else if Equal(t, "-") then
      var s1 :- Next(toks, st);
      var p :- Primary(toks, s1);
      Ok((Bin(NdSub, Num(0, None), p.0, None), p.1))
    else if Equal(t, "*") then
      var s1 :- Next(toks, st);
      var u :- Unary(toks, s1);
      Ok((Bin(NdDeref, u.0, Num(0, None), None), u.1))
    else if Equal(t, "&") then
      var s1 :- Next(toks, st);
      var u :- Unary(toks, s1);
      Ok((Bin(NdAddr, u.0, Num(0, None), None), u.1))
    else
      Primary(toks, st)
  }

  /** `mul`: a unary, then optionally `*` or `/` and another `mul`. */
  function Mul(toks: seq<Token>, st: State): (r: Result<(Node, State)>)
    requires WellFormed(toks) && st.pos < |toks|
    ensures ExprParsed(toks, st, r)
    decreases |toks| - st.pos, 3
  {
    var u :- Unary(toks, st);
    match OpAt(toks[u.1.pos], MulOps)
    case None => Ok(u)
    case Some(k) =>
      var s :- Next(toks, u.1);
      var m :- Mul(toks, s);
      Ok((Bin(k, u.0, m.0, None), m.1))
  }

  /** `add`: a mul, then optionally `+` or `-` and another `add`. */
  function Add(toks: seq<Token>, st: State): (r: Result<(Node, State)>)
    requires WellFormed(toks) && st.pos < |toks|
    ensures ExprParsed(toks, st, r)
    decreases |toks| - st.pos, 4
  {
    var m :- Mul(toks, st);
    match OpAt(toks[m.1.pos], AddOps)
    case None => Ok(m)
    case Some(k) =>
      var s :- Next(toks, m.1);
      var a :- Add(toks, s);
      Ok((Bin(k, m.0, a.0, None), a.1))
  }

  /** `relational`: an add, then optionally one comparison and one more add. */
  function Relational(toks: seq<Token>, st: State): (r: Result<(Node, State)>)
    requires WellFormed(toks) && st.pos < |toks|
    ensures ExprParsed(toks, st, r)
    decreases |toks| - st.pos, 5
  {
    var a :- Add(toks, st);
    match OpAt(toks[a.1.pos], RelOps)
    case None => Ok(a)
    case Some(k) =>
      var s :- Next(toks, a.1);
      var b :- Add(toks, s);
      Ok((Bin(k, a.0, b.0, None), b.1))
  }

  /** `equality`: a relational, then optionally `==` or `!=` and one more
      relational. */
  function Equality(toks: seq<Token>, st: State): (r: Result<(Node, State)>)
    requires WellFormed(toks) && st.pos < |toks|
    ensures ExprParsed(toks, st, r)
    decreases |toks| - st.pos, 6
  {
    var a :- Relational(toks, st);
    match OpAt(toks[a.1.pos], EqOps)
    case None => Ok(a)
    case Some(k) =>
      var s :- Next(toks, a.1);
      var b :- Relational(toks, s);
      Ok((Bin(k, a.0, b.0, None), b.1))
  }

  /** `assign`: an equality, then optionally `=` and another `assign`. */
  function Assign(toks: seq<Token>, st: State): (r: Result<(Node, State)>)
    requires WellFormed(toks) && st.pos < |toks|
    ensures ExprParsed(toks, st, r)
    decreases |toks| - st.pos, 7
  {
    var e :- Equality(toks, st);
    match OpAt(toks[e.1.pos], AssignOps)
    case None => Ok(e)
    case Some(k) =>
      var s :- Next(toks, e.1);
      var a :- Assign(toks, s);
      Ok((Bin(k, e.0, a.0, None), a.1))
  }

  /** `expr` */
  function Expr(toks: seq<Token>, st: State): (r: Result<(Node, State)>)
    requires WellFormed(toks) && st.pos < |toks|
    ensures ExprParsed(toks, st, r)
    decreases |toks| - st.pos, 8
  {
    Assign(toks, st)
  }

  /** An optional expression of a `for` header: absent when the current
      token has the text `stop`. */
  function OptExpr(toks: seq<Token>, st: State, stop: string): (r: Result<(Option<Node>, State)>)
    requires WellFormed(toks) && st.pos < |toks|
    ensures r.Ok? ==> Step(toks, st, r.value.1)
    ensures r.Ok? ==> (r.value.0.None? <==> Equal(toks[st.pos], stop))
    ensures r.Ok? && r.value.0.None? ==> r.value.1 == st
    ensures r.Ok? && r.value.0.Some? ==> Expr(toks, st) == Ok((r.value.0.value, State(r.value.1.pos, r.value.1.locals)))
    decreases |toks| - st.pos, 9
  {
    if Equal(toks[st.pos], stop) then Ok((None, st))
    else
      var e :- Expr(toks, st);
      Ok((Some(e.0), e.1))
  }

  /** The optional initialiser of a `for` header: absent when the header
      starts with `;`. */
  function ForInit(toks: seq<Token>, st: State): (r: Result<(Option<Node>, State)>)
    requires WellFormed(toks) && st.pos < |toks|
    ensures r.Ok? ==> Step(toks, st, r.value.1)
    ensures r.Ok? ==> (r.value.0.None? <==> Equal(toks[st.pos], ";"))
    ensures r.Ok? && r.value.0.None? ==> r.value.1 == st
    ensures r.Ok? && r.value.0.Some? ==> InitDeclarator(toks, st) == Ok((r.value.0.value, r.value.1))
    decreases |toks| - st.pos, 10
  {
    if Equal(toks[st.pos], ";") then Ok((None, st))
    else
      var d :- InitDeclarator(toks, st);
      Ok((Some(d.0), d.1))
  }

  /** `init_declarator`: when the next token is an identifier a type is
      parsed first (the C variable is left uninitialised otherwise, here
      `None`); then an assignment if the token after the cursor is `=`, else
      a variable name. The type is set on the resulting node. */
  function InitDeclarator(toks: seq<Token>, st: State): (r: Result<(Node, State)>)
    requires WellFormed(toks) && st.pos < |toks|
    ensures ExprParsed(toks, st, r)
    ensures r.Ok? ==> st.pos + 1 < |toks| && (toks[st.pos + 1].kind != TkIdent ==> r.value.0.ty == None)
    ensures r.Ok? && toks[st.pos + 1].kind == TkIdent ==>
              GetType(toks, st).Ok? && r.value.0.ty == GetType(toks, st).value.0
    ensures r.Ok? ==>
              var s := if toks[st.pos + 1].kind == TkIdent then GetType(toks, st).value.1 else st;
              && s.pos + 1 < |toks|
              && var n := if Equal(toks[s.pos + 1], "=") then Assign(toks, s) else ExpectIdent(toks, s);
                 n.Ok? && r.value.0.(ty := n.value.0.ty) == n.value.0 && r.value.1 == n.value.1
    decreases |toks| - st.pos, 9
  {
    var nx :- Lookahead(toks, st.pos);
    var g :- if nx.kind == TkIdent then GetType(toks, st) else Ok((None, st));
    var nx2 :- Lookahead(toks, g.1.pos);
    var n :- if Equal(nx2, "=") then Assign(toks, g.1) else ExpectIdent(toks, g.1);
    Ok((WithType(n.0, g.0), n.1))
  }

  /** The texts that `stmt` tests after the leading type, in its order. */
  predicate Keyword(t: Token) {
    Equal(t, "return") || Equal(t, "{") || Equal(t, "if") || Equal(t, "while") || Equal(t, "for")
  }

  /** `stmt`. A leading type is parsed first; a type error ends the
      statement. The other forms are recognised by the text of the token
      after the type, in the order the C code tests them; any other token
      starts an expression statement, which takes the leading type. */
  function Stmt(toks: seq<Token>, st: State): (r: Result<(Node, State)>)
    requires WellFormed(toks) && st.pos < |toks|
    ensures r.Ok? ==> Step(toks, st, r.value.1) && r.value.1.pos > st.pos
    decreases |toks| - st.pos, 11
  {
    var g :- GetType(toks, st);
    var s0 := g.1;
    var t := toks[s0.pos];
    if Equal(t, "return") then ReturnStmt(toks, s0)
    else if Equal(t, "{") then
      var s1 :- Next(toks, s0);
      CompoundStmt(toks, s1)
    else if Equal(t, "if") then IfStmt(toks, s0)
    else if Equal(t, "while") then WhileStmt(toks, s0)
    else if Equal(t, "for") then ForStmt(toks, s0)
    else ExprStmt(toks, s0, g.0)
  }

  /** After the leading type, `stmt` picks its form by the text of the next
      token: `return`, a block after `{` (an error when `{` is the last
      token), `if`, `while` or `for`. */
  lemma {:induction false} StmtDispatch(toks: seq<Token>, st: State)
    requires WellFormed(toks) && st.pos < |toks|
    ensures GetType(toks, st).Ok? ==>
              var s0 := GetType(toks, st).value.1;
              && (Equal(toks[s0.pos], "return") ==> Stmt(toks, st) == ReturnStmt(toks, s0))
              && (Equal(toks[s0.pos], "{") ==>
                    if s0.pos + 1 < |toks| then Stmt(toks, st) == CompoundStmt(toks, State(s0.pos + 1, s0.locals))
                    else Stmt(toks, st) == Fail(PastEnd(s0.pos + 1)))
              && (Equal(toks[s0.pos], "if") ==> Stmt(toks, st) == IfStmt(toks, s0))
              && (Equal(toks[s0.pos], "while") ==> Stmt(toks, st) == WhileStmt(toks, s0))
              && (Equal(toks[s0.pos], "for") ==> Stmt(toks, st) == ForStmt(toks, s0))
  {
  }

  /** The expression statement: an expression, then `;`. The statement is
      the expression with its type field set to `ty`. */
  function ExprStmt(toks: seq<Token>, st: State, ty: Option<Type>): (r: Result<(Node, State)>)
    requires WellFormed(toks) && st.pos < |toks|
    ensures r.Ok? ==> Step(toks, st, r.value.1) && r.value.1.pos > st.pos + 1
    ensures r.Ok? ==> r.value.0.IsExpr() && r.value.0.ty == ty && toks[r.value.1.pos - 1].text == ";"
    ensures r.Ok? ==> Expr(toks, st).Ok? && r.value.0.(ty := Expr(toks, st).value.0.ty) == Expr(toks, st).value.0
    ensures Expr(toks, st).Fail? ==> r == Fail(Expr(toks, st).error)
    ensures Expr(toks, st).Ok? && !Equal(toks[Expr(toks, st).value.1.pos], ";") ==>
              r == Fail(Unexpected(Expr(toks, st).value.1.pos, ";"))
    decreases |toks| - st.pos, 10
  {
    var e :- Expr(toks, st);
    var s1 :- Expect(toks, e.1, ";");
    Ok((WithType(e.0, ty), s1))
  }

  /** `stmt` reads a type first: a type error is the statement's error, and
      when no statement keyword follows the type the statement is the
      expression statement, which takes that type. */
  lemma {:induction false} StmtLeadingType(toks: seq<Token>, st: State)
    requires WellFormed(toks) && st.pos < |toks|
    ensures GetType(toks, st).Fail? ==> Stmt(toks, st) == Fail(GetType(toks, st).error)
    ensures GetType(toks, st).Ok? && !Keyword(toks[GetType(toks, st).value.1.pos]) ==>
              Stmt(toks, st) == ExprStmt(toks, GetType(toks, st).value.1, GetType(toks, st).value.0)
  {
  }

  /** `return ;` has no value; `return e ;` carries `e`. */
  function ReturnStmt(toks: seq<Token>, st: State): (r: Result<(Node, State)>)
    requires WellFormed(toks) && st.pos < |toks|
    ensures r.Ok? ==> Step(toks, st, r.value.1) && r.value.1.pos > st.pos + 1
    ensures r.Ok? ==> r.value.0.Return? && toks[r.value.1.pos - 1].text == ";"
    ensures r.Ok? ==> (r.value.0.value.None? <==> r.value.1.pos == st.pos + 2)
    ensures r.Ok? ==> st.pos + 1 < |toks| && (r.value.0.value.None? <==> Equal(toks[st.pos + 1], ";"))
    ensures r.Ok? && r.value.0.value.None? ==> r.value.1 == State(st.pos + 2, st.locals)
    ensures r.Ok? && r.value.0.value.Some? ==>
              Expr(toks, State(st.pos + 1, st.locals)) == Ok((r.value.0.value.value, State(r.value.1.pos - 1, r.value.1.locals)))
    decreases |toks| - st.pos, 10
  {
    var s1 :- Next(toks, st);
    if Equal(toks[s1.pos], ";") then
      var s2 :- Next(toks, s1);
      Ok((Return(None), s2))
    else
      var e :- Expr(toks, s1);
      var s2 :- Expect(toks, e.1, ";");
      Ok((Return(Some(e.0)), s2))
  }

  /** `if ( e ) s` with an optional `else s`: the condition is the
      expression after `(`, and the branches are read after its `)`. */
  function IfStmt(toks: seq<Token>, st: State): (r: Result<(Node, State)>)
    requires WellFormed(toks) && st.pos < |toks|
    ensures r.Ok? ==> Step(toks, st, r.value.1) && r.value.1.pos > st.pos
    ensures r.Ok? ==> r.value.0.If? && st.pos + 2 < |toks| && Expr(toks, State(st.pos + 2, st.locals)).Ok?
    ensures r.Ok? ==> r.value.0.cond == Expr(toks, State(st.pos + 2, st.locals)).value.0
    ensures r.Ok? && r.value.0.elseBranch.None? ==> !Equal(toks[r.value.1.pos], "else")
    decreases |toks| - st.pos, 10
  {
    var s1 :- Next(toks, st);
    var s2 :- Expect(toks, s1, "(");
    var c :- Expr(toks, s2);
    var s3 :- Expect(toks, c.1, ")");
    var b :- IfTail(toks, s3);
    Ok((If(c.0, b.0.thenBranch, b.0.elseBranch), b.1))
  }

  /** The branches of an `if` are those read after the `)` that closes its
      condition. */
  lemma {:induction false} IfStmtBranches(toks: seq<Token>, st: State)
    requires WellFormed(toks) && st.pos < |toks|
    ensures IfStmt(toks, st).Ok? ==>
              && st.pos + 2 < |toks| && Expr(toks, State(st.pos + 2, st.locals)).Ok?
              && var c := Expr(toks, State(st.pos + 2, st.locals)).value.1;
                 var n := IfStmt(toks, st).value.0;
                 && c.pos + 1 < |toks| && Equal(toks[c.pos], ")")
                 && IfTail(toks, State(c.pos + 1, c.locals)).Ok?
                 && IfTail(toks, State(c.pos + 1, c.locals)).value.0.thenBranch == n.thenBranch
                 && IfTail(toks, State(c.pos + 1, c.locals)).value.0.elseBranch == n.elseBranch
                 && IfTail(toks, State(c.pos + 1, c.locals)).value.1 == IfStmt(toks, st).value.1
  {
  }

  /** The branches of an `if`, and the index of the token that follows the
      then statement. */
  datatype Branches = Branches(thenBranch: Node, elseBranch: Option<Node>, thenEnd: nat)

  /** The branches of an `if` after its `)`: the then statement, and an else
      statement exactly when `else` follows the then statement. */
  function IfTail(toks: seq<Token>, st: State): (r: Result<(Branches, State)>)
    requires WellFormed(toks) && st.pos < |toks|
    ensures r.Ok? ==> Step(toks, st, r.value.1) && st.pos < r.value.0.thenEnd <= r.value.1.pos
    ensures r.Ok? ==> (r.value.0.elseBranch.Some? <==> Equal(toks[r.value.0.thenEnd], "else"))
    ensures r.Ok? && r.value.0.elseBranch.None? ==> r.value.1.pos == r.value.0.thenEnd
    decreases |toks| - st.pos, 12
  {
    var th :- Stmt(toks, st);
    if Equal(toks[th.1.pos], "else") then
      var s4 :- Next(toks, th.1);
      var el :- Stmt(toks, s4);
      Ok((Branches(th.0, Some(el.0), th.1.pos), el.1))
    else
      Ok((Branches(th.0, None, th.1.pos), th.1))
  }

  /** The then statement is the statement read first; the else statement is
      the one read after the `else` that follows it. */
  lemma {:induction false} IfTailStatements(toks: seq<Token>, st: State)
    requires WellFormed(toks) && st.pos < |toks|
    ensures IfTail(toks, st).Ok? ==>
              && Stmt(toks, st).Ok?
              && var b := IfTail(toks, st).value.0;
                 var th := Stmt(toks, st).value;
                 && b.thenBranch == th.0 && b.thenEnd == th.1.pos
                 && (b.elseBranch.Some? ==>
                       th.1.pos + 1 < |toks| &&
                       Stmt(toks, State(th.1.pos + 1, th.1.locals)) == Ok((b.elseBranch.value, IfTail(toks, st).value.1)))
  {
  }

  /** `while ( e ) s`: a `for` node with only a condition and a body. */
  function WhileStmt(toks: seq<Token>, st: State): (r: Result<(Node, State)>)
    requires WellFormed(toks) && st.pos < |toks|
    ensures r.Ok? ==> Step(toks, st, r.value.1) && r.value.1.pos > st.pos
    ensures r.Ok? ==> r.value.0.For? && r.value.0.init.None? && r.value.0.inc.None?
    ensures r.Ok? ==> r.value.0.guard.Some? && r.value.0.guard.value.IsExpr()
    ensures r.Ok? ==> st.pos + 2 < |toks| && Equal(toks[st.pos + 1], "(") && Expr(toks, State(st.pos + 2, st.locals)).Ok?
    ensures r.Ok? ==> r.value.0.guard == Some(Expr(toks, State(st.pos + 2, st.locals)).value.0)
    ensures r.Ok? ==>
              var c := Expr(toks, State(st.pos + 2, st.locals)).value.1;
              && c.pos + 1 < |toks| && Equal(toks[c.pos], ")")
              && Stmt(toks, State(c.pos + 1, c.locals)) == Ok((r.value.0.loopBody, r.value.1))
    decreases |toks| - st.pos, 10
  {
    var s1 :- Next(toks, st);
    var s2 :- Expect(toks, s1, "(");
    var c :- Expr(toks, s2);
    var s3 :- Expect(toks, c.1, ")");
    var body :- Stmt(toks, s3);
    Ok((For(None, Some(c.0), None, body.0), body.1))
  }

  /** `for ( init? ; cond? ; inc? ) s`: the node carries the three optional
      parts of the header that starts after `(`. */
  function ForStmt(toks: seq<Token>, st: State): (r: Result<(Node, State)>)
    requires WellFormed(toks) && st.pos < |toks|
    ensures r.Ok? ==> Step(toks, st, r.value.1) && r.value.1.pos > st.pos + 2
    ensures r.Ok? ==> r.value.0.For? && (r.value.0.init.None? <==> Equal(toks[st.pos + 2], ";"))
    decreases |toks| - st.pos, 10
  {
    var s1 :- Next(toks, st);
    var s2 :- Expect(toks, s1, "(");
    assert s2 == State(st.pos + 2, st.locals);
    ForLoop(toks, s2)
  }

  /** A `for` loop after its `(`: the header, then the body statement. */
  function ForLoop(toks: seq<Token>, st: State): (r: Result<(Node, State)>)
    requires WellFormed(toks) && st.pos < |toks|
    ensures r.Ok? ==> Step(toks, st, r.value.1) && r.value.1.pos > st.pos
    ensures r.Ok? ==> r.value.0.For?
    ensures r.Ok? ==> (r.value.0.init.None? <==> Equal(toks[st.pos], ";"))
    decreases |toks| - st.pos, 12
  {
    var h :- ForClauses(toks, st);
    var body :- Stmt(toks, h.1);
    Ok((For(h.0.init, h.0.cond, h.0.inc, body.0), body.1))
  }

  /** A `for` node carries the header read after `for (`: its init, condition
      and increment are the header's, so each is absent exactly when its
      separator comes where it would start, and its body is the statement
      read after the header's `)`. */
  lemma {:induction false} ForStmtHeader(toks: seq<Token>, st: State)
    requires WellFormed(toks) && st.pos < |toks|
    ensures ForStmt(toks, st).Ok? ==>
              && st.pos + 2 < |toks| && Equal(toks[st.pos + 1], "(")
              && ForClauses(toks, State(st.pos + 2, st.locals)).Ok?
              && var n := ForStmt(toks, st).value.0;
                 var h := ForClauses(toks, State(st.pos + 2, st.locals)).value;
                 && n.For? && n.init == h.0.init && n.guard == h.0.cond && n.inc == h.0.inc
                 && HeaderAt(toks, h.0, h.1.pos)
                 && Stmt(toks, h.1) == Ok((n.loopBody, ForStmt(toks, st).value.1))
  {
    ForStmtIsLoop(toks, st);
    if ForStmt(toks, st).Ok? {
      ForLoopHeader(toks, State(st.pos + 2, st.locals));
    }
  }

  /** After `for (` the statement is the loop read from there. */
  lemma {:induction false} ForStmtIsLoop(toks: seq<Token>, st: State)
    requires WellFormed(toks) && st.pos < |toks|
    ensures ForStmt(toks, st).Ok? ==>
              st.pos + 2 < |toks| && Equal(toks[st.pos + 1], "(") && ForLoop(toks, State(st.pos + 2, st.locals)) == ForStmt(toks, st)
  {
  }

  /** The loop node built after `(` carries the header's three parts, and
      its body and end state are the statement read after the header. */
  lemma {:induction false} ForLoopHeader(toks: seq<Token>, st: State)
    requires WellFormed(toks) && st.pos < |toks|
    ensures ForLoop(toks, st).Ok? ==>
              && ForClauses(toks, st).Ok?
              && var n := ForLoop(toks, st).value.0;
                 var h := ForClauses(toks, st).value;
                 && n.For? && n.init == h.0.init && n.guard == h.0.cond && n.inc == h.0.inc
                 && HeaderAt(toks, h.0, h.1.pos)
                 && Stmt(toks, h.1) == Ok((n.loopBody, ForLoop(toks, st).value.1))
  {
  }

  /** The three optional parts of a `for` header, with the token indices at
      which the condition and the increment start. */
  datatype ForHeader = ForHeader(init: Option<Node>, cond: Option<Node>, inc: Option<Node>, condAt: nat, incAt: nat)

  /** The condition and the increment of a header ending before `end`: the
      increment starts after a `;` and the header ends with `)`; each part is
      absent exactly when its own separator (`;`, then `)`) comes where it
      would start. */
  ghost predicate HeaderAt(toks: seq<Token>, h: ForHeader, end: nat) {
    && h.condAt < h.incAt < end <= |toks|
    && toks[h.incAt - 1].text == ";" && toks[end - 1].text == ")"
    && (h.cond.None? <==> Equal(toks[h.condAt], ";"))
    && (h.inc.None? <==> Equal(toks[h.incAt], ")"))
  }

  /** The header of a `for` after its `(`: an optional `init_declarator`, `;`,
      an optional condition, `;`, an optional increment, `)`. Each part is
      absent exactly when the header has nothing before the following
      separator. */
  function ForClauses(toks: seq<Token>, st: State): (r: Result<(ForHeader, State)>)
    requires WellFormed(toks) && st.pos < |toks|
    ensures r.Ok? ==> Step(toks, st, r.value.1) && r.value.1.pos >= st.pos + 3
    ensures r.Ok? ==> (r.value.0.init.None? <==> Equal(toks[st.pos], ";"))
    ensures r.Ok? ==> HeaderAt(toks, r.value.0, r.value.1.pos)
    ensures r.Ok? ==> st.pos < r.value.0.condAt && toks[r.value.0.condAt - 1].text == ";"
    ensures r.Ok? ==> ForInit(toks, st).Ok? && r.value.0.init == ForInit(toks, st).value.0
    ensures r.Ok? ==>
              var i := ForInit(toks, st).value.1;
              && i.pos + 1 < |toks| && Equal(toks[i.pos], ";")
              && ForTail(toks, State(i.pos + 1, i.locals)) == Ok((r.value.0.(init := None), r.value.1))
    decreases |toks| - st.pos, 11
  {
    var i :- ForInit(toks, st);
    var s3 :- Expect(toks, i.1, ";");
    var t :- ForTail(toks, s3);
    Ok((t.0.(init := i.0), t.1))
  }

  /** The rest of a `for` header after the first `;`: the condition up to
      the second `;`, the increment up to `)`. */
  function ForTail(toks: seq<Token>, st: State): (r: Result<(ForHeader, State)>)
    requires WellFormed(toks) && st.pos < |toks|
    ensures r.Ok? ==> Step(toks, st, r.value.1) && r.value.0.condAt == st.pos
    ensures r.Ok? ==> HeaderAt(toks, r.value.0, r.value.1.pos)
    ensures r.Ok? ==> r.value.0.init.None? && ForPart(toks, st, ";").Ok? && r.value.0.cond == ForPart(toks, st, ";").value.0
    ensures r.Ok? ==>
              var c := ForPart(toks, st, ";").value.1;
              r.value.0.incAt == c.pos && ForPart(toks, c, ")") == Ok((r.value.0.inc, r.value.1))
    decreases |toks| - st.pos, 11
  {
    var c :- ForPart(toks, st, ";");
    var n :- ForPart(toks, c.1, ")");
    Ok((ForHeader(None, c.0, n.0, st.pos, c.1.pos), n.1))
  }

  /** One optional part of a `for` header and the separator `sep` after it:
      the part is absent exactly when the separator comes at once. */
  function ForPart(toks: seq<Token>, st: State, sep: string): (r: Result<(Option<Node>, State)>)
    requires WellFormed(toks) && st.pos < |toks|
    ensures r.Ok? ==> Step(toks, st, r.value.1) && r.value.1.pos > st.pos
    ensures r.Ok? ==> (r.value.0.None? <==> Equal(toks[st.pos], sep))
    ensures r.Ok? ==> toks[r.value.1.pos - 1].text == sep
    ensures r.Ok? && r.value.0.None? ==> r.value.1 == State(st.pos + 1, st.locals)
    ensures r.Ok? && r.value.0.Some? ==> Expr(toks, st) == Ok((r.value.0.value, State(r.value.1.pos - 1, r.value.1.locals)))
    decreases |toks| - st.pos, 10
  {
    var e :- OptExpr(toks, st, sep);
    var s :- Expect(toks, e.1, sep);
    Ok((e.0, s))
  }

  /** The loop of `compound_stmt`: statements up to (not including) `}`. */
  function Stmts(toks: seq<Token>, st: State): (r: Result<(seq<Node>, State)>)
    requires WellFormed(toks) && st.pos < |toks|
    ensures r.Ok? ==> Step(toks, st, r.value.1) && Equal(toks[r.value.1.pos], "}")
    ensures r.Ok? ==> (r.value.0 == [] <==> r.value.1 == st)
    ensures Equal(toks[st.pos], "}") ==> r == Ok(([], st))
    decreases |toks| - st.pos, 12
  {
    if Equal(toks[st.pos], "}") then Ok(([], st))
    else
      var s :- Stmt(toks, st);
      var rest :- Stmts(toks, s.1);
      Ok(([s.0] + rest.0, rest.1))
  }

  /** A statement in front of the rest of a block's statements. */
  lemma {:induction false} StmtsCons(toks: seq<Token>, st: State, n: Node, s: State, rest: seq<Node>, q: State)
    requires WellFormed(toks) && st.pos < |toks| && !Equal(toks[st.pos], "}")
    requires Stmt(toks, st) == Ok((n, s)) && s.pos < |toks| && Stmts(toks, s) == Ok((rest, q))
    ensures Stmts(toks, st) == Ok(([n] + rest, q))
  {
  }

  /** `compound_stmt`: statements, then the closing `}`, as one block. */
  function CompoundStmt(toks: seq<Token>, st: State): (r: Result<(Node, State)>)
    requires WellFormed(toks) && st.pos < |toks|
    ensures r.Ok? ==> Step(toks, st, r.value.1) && r.value.1.pos > st.pos
    ensures r.Ok? ==> r.value.0.Block? && toks[r.value.1.pos - 1].text == "}"
    ensures r.Ok? ==> (r.value.0.stmts == [] <==> r.value.1.pos == st.pos + 1)
    ensures r.Ok? ==> (r.value.0.stmts == [] <==> Equal(toks[st.pos], "}"))
    ensures r.Ok? ==> Stmts(toks, st) == Ok((r.value.0.stmts, State(r.value.1.pos - 1, r.value.1.locals)))
    decreases |toks| - st.pos, 13
  {
    var b :- Stmts(toks, st);
    var s :- Expect(toks, b.1, "}");
    Ok((Block(b.0), s))
  }
}
