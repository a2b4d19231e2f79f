/** Concrete token lists on which the model's behaviour can be read off:
    the right-nested subtraction, a product that binds tighter than a sum,
    comparisons that do not chain, a unary operator that does not nest, a
    function that needs a return type, a top-level variable that becomes a
    local of the next function, the slots declarations take, the parameters
    a function records, and the limit on the number of parameters. */
module Examples {
  import opened Results
  import opened Ast
  import opened Cursor
  import opened Symbols
  import opened TypeParser
  import opened Parser
  import opened TopLevel
  import opened Render

  function Number(v: nat, text: string): Token { Token(TkNum, v, text) }
  function Ident(s: string): Token { Token(TkIdent, 0, s) }
  const EofToken: Token := Token(TkEof, 0, "")

  /** `1-2-3` */
  const Minus3: seq<Token> := [Number(1, "1"), Punct("-"), Number(2, "2"), Punct("-"), Number(3, "3"), EofToken]

  /** A one-digit number token reads as its printed form. */
  lemma {:induction false} NumberAt(toks: seq<Token>, pos: nat, v: nat)
    requires v < 10 && pos + 1 < |toks| && toks[pos] == Number(v, [DigitChar(v)])
    ensures At(toks, pos, Print(Num(v, None)))
  {
  }

  /** `add` takes its right operand from `add` again, so `1-2-3` is read as
      `1-(2-3)`. */
  lemma {:induction false} SubtractionGroupsRight()
    ensures Expr(Minus3, State(0, [])) ==
              Ok((Bin(NdSub, Num(1, None), Bin(NdSub, Num(2, None), Num(3, None), None), None), State(5, [])))
  {
    var n1, n2, n3 := Num(1, None), Num(2, None), Num(3, None);
    SubtractionOperands();
    InnerSubtraction(Minus3, [], n2, n3);
    OuterSubtraction(Minus3, [], n1, Bin(NdSub, n2, n3, None));
    RightNested(Minus3, [], Bin(NdSub, n1, Bin(NdSub, n2, n3, None), None));
  }

  /** An additive expression from position 0 to position 5, where the input
      ends, is the whole expression. */
  lemma {:induction false} RightNested(toks: seq<Token>, locals: seq<Var>, e: Node)
    requires WellFormed(toks) && |toks| > 5 && toks[5].text == ""
    requires Level(4, toks, State(0, locals)) == Ok((e, State(5, locals)))
    ensures Expr(toks, State(0, locals)) == Ok((e, State(5, locals)))
  {
    StopLift(4, 8, toks, State(0, locals), e, State(5, locals));
    ExprLevel(toks, State(0, locals));
  }

  /** The outer subtraction at the additive level, its right operand read by
      `add` again. */
  lemma {:induction false} OuterSubtraction(toks: seq<Token>, locals: seq<Var>, n1: Node, r: Node)
    requires WellFormed(toks) && |toks| > 5
    requires Level(3, toks, State(0, locals)) == Ok((n1, State(1, locals)))
    requires OpAt(toks[1], LevelOps(4)) == Some(NdSub)
    requires Level(4, toks, State(2, locals)) == Ok((r, State(5, locals)))
    ensures Level(4, toks, State(0, locals)) == Ok((Bin(NdSub, n1, r, None), State(5, locals)))
  {
    InfixStep(4, toks, 0, locals, NdSub, n1, 1, locals, r, 5, locals);
  }

  /** The inner subtraction, from position 2 on. */
  lemma {:induction false} InnerSubtraction(toks: seq<Token>, locals: seq<Var>, n2: Node, n3: Node)
    requires WellFormed(toks) && |toks| > 5
    requires Level(3, toks, State(2, locals)) == Ok((n2, State(3, locals)))
    requires OpAt(toks[3], LevelOps(4)) == Some(NdSub)
    requires Level(4, toks, State(4, locals)) == Ok((n3, State(5, locals)))
    ensures Level(4, toks, State(2, locals)) == Ok((Bin(NdSub, n2, n3, None), State(5, locals)))
  {
    InfixStep(4, toks, 2, locals, NdSub, n2, 3, locals, n3, 5, locals);
  }

  /** The three numbers of `1-2-3`, each read where `add` reads it, and the
      two minus signs. */
  lemma {:induction false} SubtractionOperands()
    ensures Level(3, Minus3, State(0, [])) == Ok((Num(1, None), State(1, [])))
    ensures Level(3, Minus3, State(2, [])) == Ok((Num(2, None), State(3, [])))
    ensures Level(4, Minus3, State(4, [])) == Ok((Num(3, None), State(5, [])))
    ensures OpAt(Minus3[1], LevelOps(4)) == Some(NdSub) && OpAt(Minus3[3], LevelOps(4)) == Some(NdSub)
  {
    var toks := Minus3;
    NumberAt(toks, 0, 1);
    NumberAt(toks, 2, 2);
    NumberAt(toks, 4, 3);
    LeftOperand(toks, 0, [], Num(1, None), NdSub, 4, 1);
    OpFound(NdSub, toks[1], 4);
    LeftOperand(toks, 2, [], Num(2, None), NdSub, 4, 3);
    OpFound(NdSub, toks[3], 4);
    ExprPrint(toks, 4, [], Num(3, None), 4, 5);
  }

  /** `1+2*3` */
  const PlusTimes: seq<Token> := [Number(1, "1"), Punct("+"), Number(2, "2"), Punct("*"), Number(3, "3"), EofToken]

  /** `mul` binds tighter than `add`, so `1+2*3` is read as `1+(2*3)`. */
  lemma {:induction false} ProductBindsTighter()
    ensures Expr(PlusTimes, State(0, [])) ==
              Ok((Bin(NdAdd, Num(1, None), Bin(NdMul, Num(2, None), Num(3, None), None), None), State(5, [])))
  {
    var toks := PlusTimes;
    var n1, product := Num(1, None), Bin(NdMul, Num(2, None), Num(3, None), None);
    NumberAt(toks, 0, 1);
    LeftOperand(toks, 0, [], n1, NdAdd, 4, 1);
    OpFound(NdAdd, toks[1], 4);
    ProductOperand();
    InfixStep(4, toks, 0, [], NdAdd, n1, 1, [], product, 5, []);
    StopLift(4, 8, toks, State(0, []), Bin(NdAdd, n1, product, None), State(5, []));
    ExprLevel(toks, State(0, []));
  }

  /** The right operand of `+` in `1+2*3`: `add` reads the whole product
      `2*3` at the multiplicative level. */
  lemma {:induction false} ProductOperand()
    ensures Level(4, PlusTimes, State(2, [])) == Ok((Bin(NdMul, Num(2, None), Num(3, None), None), State(5, [])))
  {
    var toks := PlusTimes;
    var n2, n3 := Num(2, None), Num(3, None);
    NumberAt(toks, 2, 2);
    NumberAt(toks, 4, 3);
    LeftOperand(toks, 2, [], n2, NdMul, 3, 3);
    OpFound(NdMul, toks[3], 3);
    ExprPrint(toks, 4, [], n3, 3, 5);
    InfixStep(3, toks, 2, [], NdMul, n2, 3, [], n3, 5, []);
    StopLift(3, 4, toks, State(2, []), Bin(NdMul, n2, n3, None), State(5, []));
  }

  const ABC: seq<Var> := [Var("c", 24), Var("b", 16), Var("a", 8)]
  /** `a < b < c ;` */
  const Chain: seq<Token> := [Ident("a"), Punct("<"), Ident("b"), Punct("<"), Ident("c"), Punct(";"), EofToken]

  /** The text `<` is the relational operator `NdLt`. */
  lemma {:induction false} LessIsRelational(t: Token)
    requires t.text == "<"
    ensures OpAt(t, LevelOps(5)) == Some(NdLt)
  {
    OpFound(NdLt, t, 5);
  }

  /** The text `<` is no operator of the looser levels. */
  lemma {:induction false} LessNotLooser(t: Token, m: nat)
    requires t.text == "<" && 5 < m
    ensures OpAt(t, LevelOps(m)) == None
  {
  }

  /** `relational` takes its right operand from `add`, so an expression
      starting `a < b <` stops after `a < b`, leaving the second `<`. */
  lemma {:induction false} ComparisonsDoNotChain()
    ensures Expr(Chain, State(0, ABC)) == Ok((Bin(NdLt, LVar("a", 8, None), LVar("b", 16, None), None), State(3, ABC)))
  {
    assert FindVar(ABC, "a") == Some(Var("a", 8));
    assert FindVar(ABC, "b") == Some(Var("b", 16));
    ChainPrefix(Chain, ABC, "a", 8, "b", 16);
  }

  /** `x < y <` read as an expression, for any locals that resolve `x` and `y`. */
  lemma {:induction false} ChainPrefix(toks: seq<Token>, locals: seq<Var>, x: string, ox: int, y: string, oy: int)
    requires WellFormed(toks) && |toks| > 4 && Word(x) && Word(y)
    requires toks[0] == Ident(x) && toks[1] == Punct("<") && toks[2] == Ident(y) && toks[3] == Punct("<")
    requires FindVar(locals, x) == Some(Var(x, ox)) && FindVar(locals, y) == Some(Var(y, oy))
    ensures Expr(toks, State(0, locals)) == Ok((Bin(NdLt, LVar(x, ox, None), LVar(y, oy, None), None), State(3, locals)))
  {
    ComparisonOperands(toks, locals, x, ox, y, oy);
    LessIsRelational(toks[1]);
    LessStep(toks, locals, LVar(x, ox, None), LVar(y, oy, None));
    ComparisonStops(toks, locals, Bin(NdLt, LVar(x, ox, None), LVar(y, oy, None), None));
  }

  /** Both operands of `x < y <`, read at the additive level. */
  lemma {:induction false} ComparisonOperands(toks: seq<Token>, locals: seq<Var>, x: string, ox: int, y: string, oy: int)
    requires WellFormed(toks) && |toks| > 4 && Word(x) && Word(y)
    requires toks[0] == Ident(x) && toks[1] == Punct("<") && toks[2] == Ident(y) && toks[3] == Punct("<")
    requires FindVar(locals, x) == Some(Var(x, ox)) && FindVar(locals, y) == Some(Var(y, oy))
    ensures Level(4, toks, State(0, locals)) == Ok((LVar(x, ox, None), State(1, locals)))
    ensures Level(4, toks, State(2, locals)) == Ok((LVar(y, oy, None), State(3, locals)))
  {
    LessOperand(toks, 0, locals, x, ox);
    LessOperand(toks, 2, locals, y, oy);
  }

  /** A known variable followed by `<`, read at the additive level. */
  lemma {:induction false} LessOperand(toks: seq<Token>, pos: nat, locals: seq<Var>, x: string, off: int)
    requires WellFormed(toks) && pos + 2 < |toks| && Word(x)
    requires toks[pos] == Ident(x) && toks[pos + 1] == Punct("<") && FindVar(locals, x) == Some(Var(x, off))
    ensures Level(4, toks, State(pos, locals)) == Ok((LVar(x, off, None), State(pos + 1, locals)))
  {
    LeftOperand(toks, pos, locals, LVar(x, off, None), NdLt, 5, pos + 1);
  }

  /** A comparison at the relational level: its right operand is read by
      `add`, the next tighter level. */
  lemma {:induction false} LessStep(toks: seq<Token>, locals: seq<Var>, l: Node, r: Node)
    requires WellFormed(toks) && |toks| > 3
    requires Level(4, toks, State(0, locals)) == Ok((l, State(1, locals)))
    requires OpAt(toks[1], LevelOps(5)) == Some(NdLt)
    requires Level(4, toks, State(2, locals)) == Ok((r, State(3, locals)))
    ensures Level(5, toks, State(0, locals)) == Ok((Bin(NdLt, l, r, None), State(3, locals)))
  {
    InfixStep(5, toks, 0, locals, NdLt, l, 1, locals, r, 3, locals);
  }

  /** A relational expression followed by `<` is the whole expression: no
      looser level takes `<` as its operator. */
  lemma {:induction false} ComparisonStops(toks: seq<Token>, locals: seq<Var>, e: Node)
    requires WellFormed(toks) && |toks| > 4 && toks[3].text == "<"
    requires Level(5, toks, State(0, locals)) == Ok((e, State(3, locals)))
    ensures Expr(toks, State(0, locals)) == Ok((e, State(3, locals)))
  {
    forall m | 5 < m <= 8
      ensures OpAt(toks[3], LevelOps(m)) == None
    {
      LessNotLooser(toks[3], m);
    }
    Lift(5, 8, toks, State(0, locals), e, State(3, locals));
    ExprLevel(toks, State(0, locals));
  }

  /** Consequently the statement `a < b < c ;` fails where it expects `;`. */
  lemma {:induction false} ChainedComparisonRejected()
    ensures Stmt(Chain, State(0, ABC)) == Fail(Unexpected(3, ";"))
  {
    ComparisonsDoNotChain();
    assert GetType(Chain, State(0, ABC)) == Ok((None, State(0, ABC)));
  }

  /** `+ - 1` */
  const PlusMinus: seq<Token> := [Punct("+"), Punct("-"), Token(TkNum, 1, "1"), EofToken]

  /** `+` is followed by a primary, not by another unary: `+ - 1` fails on
      the `-`, which is no number. */
  lemma {:induction false} UnaryDoesNotNest()
    ensures Expr(PlusMinus, State(0, [])) == Fail(NotANumber(1))
  {
    var toks, st := PlusMinus, State(0, []);
    assert Primary(toks, State(1, [])) == Fail(NotANumber(1));
    assert Unary(toks, st) == Fail(NotANumber(1));
    assert Mul(toks, st) == Fail(NotANumber(1));
    assert Add(toks, st) == Fail(NotANumber(1));
    assert Relational(toks, st) == Fail(NotANumber(1));
    assert Equality(toks, st) == Fail(NotANumber(1));
    assert Assign(toks, st) == Fail(NotANumber(1));
  }

  /** `f ( ) { }` */
  const Untyped: seq<Token> := [Ident("f"), Punct("("), Punct(")"), Punct("{"), Punct("}"), EofToken]
  /** `int f ( ) { }` */
  const Typed: seq<Token> := [Ident("int"), Ident("f"), Punct("("), Punct(")"), Punct("{"), Punct("}"), EofToken]

  /** A definition is only recognised when the token two places on is `(`, so
      an untyped `f ( ) { }` is read as a variable declaration and fails on
      the missing `;`, while `int f ( ) { }` is a function. */
  lemma {:induction false} FunctionNeedsReturnType()
    ensures Parse(Untyped) == Fail(Unexpected(1, ";"))
    ensures Parse(Typed) == Ok([Segment(Some(Function("f", Some(Int), [], ArgcStart, Block([]), [])))])
  {
    UntypedDeclaration();
    TypedDeclaration();
    assert Segments(Typed, State(0, [])) == Ok([Segment(Some(Function("f", Some(Int), [], ArgcStart, Block([]), [])))]);
  }

  /** The declaration step of `FunctionNeedsReturnType`, untyped case. */
  lemma {:induction false} UntypedDeclaration()
    ensures Declaration(Untyped, State(0, [])) == Fail(Unexpected(1, ";"))
  {
    var u := Untyped;
    assert GetType(u, State(0, [])) == Ok((None, State(0, [])));
    assert FindVar([], "f") == None;
    assert NextOffset([]) == 8;
    assert Next(u, State(0, [Var("f", 8)])) == Ok(State(1, [Var("f", 8)]));
    assert [Var("f", 8)] + [] == [Var("f", 8)];
    assert ExpectIdent(u, State(0, [])) == Ok((LVar("f", 8, None), State(1, [Var("f", 8)])));
    assert InitDeclarator(u, State(0, [])) == Ok((LVar("f", 8, None), State(1, [Var("f", 8)])));
  }

  /** The declaration step of `FunctionNeedsReturnType`, typed case. */
  lemma {:induction false} TypedDeclaration()
    ensures Declaration(Typed, State(0, [])) == Ok((Function("f", Some(Int), [], ArgcStart, Block([]), []), State(6, [])))
  {
    var t := Typed;
    assert GetType(t, State(0, [])) == Ok((Some(Int), State(1, [])));
    EmptyFunction(t, 1, []);
  }

  /** `f ( ) { }` from `pos` on, defined under the active locals `locals`. */
  lemma {:induction false} EmptyFunction(toks: seq<Token>, pos: nat, locals: seq<Var>)
    requires WellFormed(toks) && pos + 5 < |toks|
    requires toks[pos] == Ident("f") && toks[pos + 1] == Punct("(") && toks[pos + 2] == Punct(")")
    requires toks[pos + 3] == Punct("{") && toks[pos + 4] == Punct("}")
    ensures FunctionDef(toks, State(pos, locals), Some(Int)) ==
            Ok((Function("f", Some(Int), [], ArgcStart, Block([]), locals), State(pos + 5, [])))
  {
    assert ParamClause(toks, State(pos + 1, locals)) == Ok((ParamList([], ArgcStart), State(pos + 3, locals)));
    assert Stmts(toks, State(pos + 4, locals)) == Ok(([], State(pos + 4, locals)));
    assert CompoundStmt(toks, State(pos + 4, locals)) == Ok((Block([]), State(pos + 5, locals)));
    assert FunctionBody(toks, State(pos + 3, locals)) == Ok((Block([]), State(pos + 5, locals)));
  }

  /** `int x ; int f ( ) { }` */
  const Leak: seq<Token> := [Ident("int"), Ident("x"), Punct(";"), Ident("int"), Ident("f"), Punct("("), Punct(")"), Punct("{"), Punct("}"), EofToken]

  /** The locals list is reset only after a function body, so a top-level
      `int x ;` leaves `x` in the list and the next function captures it. */
  lemma {:induction false} GlobalBecomesLocal()
    ensures Parse(Leak) == Ok([Segment(Some(Global(Some(Int), LVar("x", 8, None)))),
                               Segment(Some(Function("f", Some(Int), [], ArgcStart, Block([]), [Var("x", 8)])))])
  {
    var x := [Var("x", 8)];
    GlobalX();
    LeakedFunction();
    assert LocalsWF(x);
    var fn := Segment(Some(Function("f", Some(Int), [], ArgcStart, Block([]), x)));
    assert Segments(Leak, State(3, x)) == Ok([fn]);
    var g := Segment(Some(Global(Some(Int), LVar("x", 8, None))));
    assert Segments(Leak, State(0, [])) == Ok([g] + [fn]);
    assert [g] + [fn] == [g, fn];
    assert Parse(Leak) == Segments(Leak, State(0, []));
  }

  /** The first declaration of `int x ; int f ( ) { }`. */
  lemma {:induction false} GlobalX()
    ensures Declaration(Leak, State(0, [])) == Ok((Global(Some(Int), LVar("x", 8, None)), State(3, [Var("x", 8)])))
  {
    FirstLocal(Leak, 1, "x");
    TopVariable(Leak, 0, "x");
  }

  /** `int x ;` as the first declaration: `x` becomes the local at offset 8. */
  lemma {:induction false} TopVariable(toks: seq<Token>, pos: nat, x: string)
    requires WellFormed(toks) && pos + 3 < |toks|
    requires toks[pos] == Ident("int") && toks[pos + 1] == Ident(x) && toks[pos + 2] == Punct(";")
    requires InitDeclarator(toks, State(pos + 1, [])) == Ok((LVar(x, 8, None), State(pos + 2, [Var(x, 8)])))
    ensures Declaration(toks, State(pos, [])) == Ok((Global(Some(Int), LVar(x, 8, None)), State(pos + 3, [Var(x, 8)])))
  {
    assert GetType(toks, State(pos, [])) == Ok((Some(Int), State(pos + 1, [])));
  }

  /** A name that is not followed by `=` or by an identifier, read by
      `init_declarator` with no locals yet: it becomes the local at offset 8. */
  lemma {:induction false} FirstLocal(toks: seq<Token>, pos: nat, x: string)
    requires WellFormed(toks) && pos + 1 < |toks| && toks[pos].text == x
    requires toks[pos + 1].kind != TkIdent && toks[pos + 1].text != "="
    ensures InitDeclarator(toks, State(pos, [])) == Ok((LVar(x, 8, None), State(pos + 1, [Var(x, 8)])))
  {
    assert FindVar([], x) == None;
    assert NextOffset([]) == 8;
    assert Next(toks, State(pos, [Var(x, 8)])) == Ok(State(pos + 1, [Var(x, 8)]));
    assert [Var(x, 8)] + [] == [Var(x, 8)];
    assert ExpectIdent(toks, State(pos, [])) == Ok((LVar(x, 8, None), State(pos + 1, [Var(x, 8)])));
  }

  /** The second declaration of `int x ; int f ( ) { }`, with `x` still active. */
  lemma {:induction false} LeakedFunction()
    ensures Declaration(Leak, State(3, [Var("x", 8)])) ==
            Ok((Function("f", Some(Int), [], ArgcStart, Block([]), [Var("x", 8)]), State(9, [])))
  {
    var x := [Var("x", 8)];
    assert GetType(Leak, State(3, x)) == Ok((Some(Int), State(4, x)));
    EmptyFunction(Leak, 4, x);
  }

  /** The statement `int x ;` with `x` not yet declared: `x` becomes a new
      local one slot past the newest, and the statement is `x` typed `int`. */
  lemma {:induction false} DeclStmt(toks: seq<Token>, pos: nat, locals: seq<Var>, x: string)
    requires WellFormed(toks) && pos + 3 < |toks| && Word(x) && !Keyword(Ident(x))
    requires toks[pos] == Ident("int") && toks[pos + 1] == Ident(x) && toks[pos + 2] == Punct(";")
    requires FindVar(locals, x) == None
    ensures Stmt(toks, State(pos, locals)) ==
            Ok((LVar(x, NextOffset(locals), Some(Int)), State(pos + 3, [Var(x, NextOffset(locals))] + locals)))
  {
    assert GetType(toks, State(pos, locals)) == Ok((Some(Int), State(pos + 1, locals)));
    StmtLeadingType(toks, State(pos, locals));
    FreshName(toks, pos + 1, locals, x);
  }

  /** `{ int a ; int b ; }` */
  const TwoDecls: seq<Token> :=
    [Punct("{"), Ident("int"), Ident("a"), Punct(";"), Ident("int"), Ident("b"), Punct(";"), Punct("}"), EofToken]

  /** Each declaration statement of a block takes the next slot: in
      `{ int a ; int b ; }` the block holds `a` at offset 8 and `b` at offset
      16, both typed `int`, and the active list ends as `b`, `a`. */
  lemma {:induction false} BlockDeclarations()
    ensures Stmt(TwoDecls, State(0, [])) ==
            Ok((Block([LVar("a", 8, Some(Int)), LVar("b", 16, Some(Int))]), State(8, [Var("b", 16), Var("a", 8)])))
  {
    var toks := TwoDecls;
    var la, lb := [Var("a", 8)], [Var("b", 16), Var("a", 8)];
    var na, nb := LVar("a", 8, Some(Int)), LVar("b", 16, Some(Int));
    assert NextOffset([]) == 8 && [Var("a", 8)] + [] == la;
    DeclStmt(toks, 1, [], "a");
    assert Stmt(toks, State(1, [])) == Ok((na, State(4, la)));
    assert FindVar(la, "b") == None && NextOffset(la) == 16;
    DeclStmt(toks, 4, la, "b");
    assert [Var("b", 16)] + la == lb;
    assert Stmt(toks, State(4, la)) == Ok((nb, State(7, lb)));
    assert Stmts(toks, State(7, lb)) == Ok(([], State(7, lb)));
    StmtsCons(toks, State(4, la), nb, State(7, lb), [], State(7, lb));
    assert [nb] + [] == [nb];
    StmtsCons(toks, State(1, []), na, State(4, la), [nb], State(7, lb));
    assert [na] + [nb] == [na, nb];
    assert CompoundStmt(toks, State(1, [])) == Ok((Block([na, nb]), State(8, lb)));
    assert GetType(toks, State(0, [])) == Ok((None, State(0, [])));
  }

  /** A parameter `int x` with `x` not yet declared: it becomes a new local one
      slot past the newest, typed `int`. */
  lemma {:induction false} FreshParam(toks: seq<Token>, pos: nat, locals: seq<Var>, x: string)
    requires WellFormed(toks) && pos + 2 < |toks|
    requires toks[pos] == Ident("int") && toks[pos + 1] == Ident(x) && FindVar(locals, x) == None
    ensures Param(toks, State(pos, locals)) ==
            Ok((LVar(x, NextOffset(locals), Some(Int)), State(pos + 2, [Var(x, NextOffset(locals))] + locals)))
  {
    var v := Var(x, NextOffset(locals));
    assert GetType(toks, State(pos, locals)) == Ok((Some(Int), State(pos + 1, locals)));
    assert Next(toks, State(pos + 1, [v] + locals)) == Ok(State(pos + 2, [v] + locals));
  }

  /** `int f ( int a , int b , int c ) { }` */
  const ThreeParams: seq<Token> :=
    [Ident("int"), Ident("f"), Punct("("), Ident("int"), Ident("a"), Punct(","), Ident("int"), Ident("b"),
     Punct(","), Ident("int"), Ident("c"), Punct(")"), Punct("{"), Punct("}"), EofToken]

  /** The parameter clause `( int a , int b , int c )` from position 2 on. */
  predicate ThreeParamTokens(toks: seq<Token>) {
    && WellFormed(toks) && 12 < |toks|
    && toks[2] == Punct("(") && toks[3] == Ident("int") && toks[4] == Ident("a") && toks[5] == Punct(",")
    && toks[6] == Ident("int") && toks[7] == Ident("b") && toks[8] == Punct(",")
    && toks[9] == Ident("int") && toks[10] == Ident("c") && toks[11] == Punct(")")
  }

  /** The comma loop after `b`: `c` at 24 and the counter at 9. */
  lemma {:induction false} LastComma(toks: seq<Token>)
    requires ThreeParamTokens(toks)
    ensures MoreParams(toks, State(8, [Var("b", 16), Var("a", 8)]), 8) ==
            Ok((ParamList([LVar("c", 24, Some(Int))], 9), State(11, ABC)))
  {
    var lb := [Var("b", 16), Var("a", 8)];
    var pc := LVar("c", 24, Some(Int));
    assert FindVar(lb, "c") == None && NextOffset(lb) == 24 && [Var("c", 24)] + lb == ABC;
    FreshParam(toks, 9, lb, "c");
    assert MoreParams(toks, State(11, ABC), 9) == Ok((ParamList([], 9), State(11, ABC)));
    CommaStep(toks, State(8, lb), 8, pc, State(11, ABC), [], 9, State(11, ABC));
    assert [pc] + [] == [pc];
  }

  /** The comma loop after `a`: `b` at 16, `c` at 24 and the counter at 9. */
  lemma {:induction false} CommasAfterFirst(toks: seq<Token>)
    requires ThreeParamTokens(toks)
    ensures MoreParams(toks, State(5, [Var("a", 8)]), 7) ==
            Ok((ParamList([LVar("b", 16, Some(Int)), LVar("c", 24, Some(Int))], 9), State(11, ABC)))
  {
    var la, lb := [Var("a", 8)], [Var("b", 16), Var("a", 8)];
    var pb, pc := LVar("b", 16, Some(Int)), LVar("c", 24, Some(Int));
    assert FindVar(la, "b") == None && NextOffset(la) == 16 && [Var("b", 16)] + la == lb;
    FreshParam(toks, 6, la, "b");
    LastComma(toks);
    CommaStep(toks, State(5, la), 7, pb, State(8, lb), [pc], 9, State(11, ABC));
    assert [pb] + [pc] == [pb, pc];
  }

  /** The parameter list inside the parentheses. */
  lemma {:induction false} ThreeParamList(toks: seq<Token>)
    requires ThreeParamTokens(toks)
    ensures Params(toks, State(3, [])) ==
            Ok((ParamList([LVar("a", 8, Some(Int)), LVar("b", 16, Some(Int)), LVar("c", 24, Some(Int))], 9),
                State(11, ABC)))
  {
    var la := [Var("a", 8)];
    var pa, pb, pc := LVar("a", 8, Some(Int)), LVar("b", 16, Some(Int)), LVar("c", 24, Some(Int));
    assert NextOffset([]) == 8 && [Var("a", 8)] + [] == la;
    FreshParam(toks, 3, [], "a");
    CommasAfterFirst(toks);
    ParamsOfParts(toks, State(3, []), pa, State(5, la), [pb, pc], 9, State(11, ABC));
    assert [pa] + [pb, pc] == [pa, pb, pc];
  }

  /** The whole clause: all three parameters, at offsets 8, 16 and 24, and
      the counter at 9. */
  lemma {:induction false} ThreeParamClause(toks: seq<Token>)
    requires ThreeParamTokens(toks)
    ensures ParamClause(toks, State(2, [])) ==
            Ok((ParamList([LVar("a", 8, Some(Int)), LVar("b", 16, Some(Int)), LVar("c", 24, Some(Int))], 9),
                State(12, ABC)))
  {
    ThreeParamList(toks);
    assert Expect(toks, State(2, []), "(").Ok? && !Equal(toks[3], ")") && Expect(toks, State(11, ABC), ")").Ok?;
    ClauseParsed(toks, State(2, []));
    ClauseList(toks, State(2, []));
    ClauseEnd(toks, State(2, []));
  }

  /** A parameter clause that is not empty parses when `(`, the parameter
      list and `)` do. */
  lemma {:induction false} ClauseParsed(toks: seq<Token>, st: State)
    requires WellFormed(toks) && st.pos + 1 < |toks| && Expect(toks, st, "(").Ok? && !Equal(toks[st.pos + 1], ")")
    requires Params(toks, State(st.pos + 1, st.locals)).Ok?
    requires Expect(toks, Params(toks, State(st.pos + 1, st.locals)).value.1, ")").Ok?
    ensures ParamClause(toks, st).Ok?
  {
  }

  /** ... and then holds exactly the list read after `(`, */
  lemma {:induction false} ClauseList(toks: seq<Token>, st: State)
    requires WellFormed(toks) && st.pos + 1 < |toks| && !Equal(toks[st.pos + 1], ")")
    requires ParamClause(toks, st).Ok? && Params(toks, State(st.pos + 1, st.locals)).Ok?
    ensures ParamClause(toks, st).value.0 == Params(toks, State(st.pos + 1, st.locals)).value.0
  {
  }

  /** ... and ends one token after the list, on the list's locals. */
  lemma {:induction false} ClauseEnd(toks: seq<Token>, st: State)
    requires WellFormed(toks) && st.pos + 1 < |toks| && !Equal(toks[st.pos + 1], ")")
    requires ParamClause(toks, st).Ok? && Params(toks, State(st.pos + 1, st.locals)).Ok?
    ensures var q := Params(toks, State(st.pos + 1, st.locals)).value.1;
            ParamClause(toks, st).value.1 == State(q.pos + 1, q.locals)
  {
  }

  /** `f ( int a , int b , int c ) { }` from position 1 on. */
  lemma {:induction false} ThreeParamFunction(toks: seq<Token>)
    requires ThreeParamTokens(toks) && 14 < |toks|
    requires toks[1] == Ident("f") && toks[12] == Punct("{") && toks[13] == Punct("}")
    ensures FunctionDef(toks, State(1, []), Some(Int)) ==
            Ok((Function("f", Some(Int), [LVar("a", 8, Some(Int)), LVar("c", 24, Some(Int))], 9, Block([]), ABC),
                State(14, [])))
  {
    ThreeParamClause(toks);
    assert FunctionBody(toks, State(12, ABC)) == Ok((Block([]), State(14, ABC)));
  }

  /** Only the first and the last parameter are recorded: for
      `int f ( int a , int b , int c ) { }` the function keeps `a` at 8 and
      `c` at 24, counts 9, and captures all three locals, newest first. */
  lemma {:induction false} FirstAndLastParams()
    ensures Parse(ThreeParams) ==
            Ok([Segment(Some(Function("f", Some(Int), [LVar("a", 8, Some(Int)), LVar("c", 24, Some(Int))], 9, Block([]), ABC)))])
  {
    var toks := ThreeParams;
    var f := Function("f", Some(Int), [LVar("a", 8, Some(Int)), LVar("c", 24, Some(Int))], 9, Block([]), ABC);
    ThreeParamsShape();
    ThreeParamDecl(toks);
    assert Program(toks, State(0, [])) == Ok((f, State(14, [])));
    assert Segments(toks, State(0, [])) == Ok([Segment(Some(f))]);
  }

  /** The tokens of `ThreeParams` the lemmas above ask for. */
  lemma {:induction false} ThreeParamsShape()
    ensures ThreeParamTokens(ThreeParams) && 14 < |ThreeParams|
    ensures ThreeParams[0] == Ident("int") && ThreeParams[1] == Ident("f")
    ensures ThreeParams[12] == Punct("{") && ThreeParams[13] == Punct("}")
  {
  }

  /** `int f ( int a , int b , int c ) { }` as the first declaration. */
  lemma {:induction false} ThreeParamDecl(toks: seq<Token>)
    requires ThreeParamTokens(toks) && 14 < |toks| && toks[0] == Ident("int")
    requires toks[1] == Ident("f") && toks[12] == Punct("{") && toks[13] == Punct("}")
    ensures Declaration(toks, State(0, [])) ==
            Ok((Function("f", Some(Int), [LVar("a", 8, Some(Int)), LVar("c", 24, Some(Int))], 9, Block([]), ABC),
                State(14, [])))
  {
    ThreeParamFunction(toks);
    assert GetType(toks, State(0, [])) == Ok((Some(Int), State(1, [])));
    assert Lookahead(toks, 1) == Ok(Punct("("));
  }

  /** `, int a` written `n` times. */
  function MoreA(n: nat): (r: seq<Token>)
    ensures |r| == 3 * n
  {
    if n == 0 then [] else [Punct(","), Ident("int"), Ident("a")] + MoreA(n - 1)
  }

  /** `int a` followed by `n` more `, int a` and `)`. */
  function ManyParams(n: nat): seq<Token> {
    [Ident("int"), Ident("a")] + MoreA(n) + [Punct(")"), EofToken]
  }

  const A: seq<Var> := [Var("a", 8)]
  const AParam: Node := LVar("a", 8, Some(Int))

  /** A copy of `, int a` at `pos`. */
  predicate CommaAt(toks: seq<Token>, pos: nat) {
    pos + 2 < |toks| && toks[pos] == Punct(",") && toks[pos + 1] == Ident("int") && toks[pos + 2] == Ident("a")
  }

  /** The `int a` after a comma at `pos`, once `a` is a local at offset 8. */
  lemma {:induction false} KnownParam(toks: seq<Token>, pos: nat)
    requires WellFormed(toks) && CommaAt(toks, pos)
    ensures Param(toks, State(pos + 1, A)) == Ok((AParam, State(pos + 3, A)))
  {
    assert FindVar(A, "a") == Some(Var("a", 8));
    assert GetType(toks, State(pos + 1, A)) == Ok((Some(Int), State(pos + 2, A)));
  }

  /** `n` copies of the parameter `int a`. */
  function Copies(n: nat): (r: seq<Node>)
    ensures |r| == n
  {
    if n == 0 then [] else [AParam] + Copies(n - 1)
  }

  /** One turn of the comma loop over `, int a` while the counter has room:
      the parameter goes in front of what the rest of the loop keeps. */
  lemma {:induction false} CommaKept(toks: seq<Token>, pos: nat, argc: nat, all: seq<Node>, c: nat, q: nat)
    requires WellFormed(toks) && pos + 3 < |toks| && argc < ArgcMax && CommaAt(toks, pos)
    requires MoreParams(toks, State(pos + 3, A), argc + 1) == Ok((ParamList(all, c), State(q, A)))
    ensures MoreParams(toks, State(pos, A), argc) == Ok((ParamList([AParam] + all, c), State(q, A)))
  {
    assert Next(toks, State(pos, A)) == Ok(State(pos + 1, A));
    KnownParam(toks, pos);
  }

  /** The same turn when the rest of the loop fails: so does the loop. */
  lemma {:induction false} CommaFails(toks: seq<Token>, pos: nat, argc: nat, e: Error)
    requires WellFormed(toks) && pos + 3 < |toks| && argc < ArgcMax && CommaAt(toks, pos)
    requires MoreParams(toks, State(pos + 3, A), argc + 1) == Fail(e)
    ensures MoreParams(toks, State(pos, A), argc) == Fail(e)
  {
    KnownParam(toks, pos);
  }

  /** The loop stops at a token that is no comma. */
  lemma {:induction false} CommaEnd(toks: seq<Token>, pos: nat, argc: nat)
    requires WellFormed(toks) && pos < |toks| && toks[pos] == Punct(")")
    ensures MoreParams(toks, State(pos, A), argc) == Ok((ParamList([], argc), State(pos, A)))
  {
  }

  /** A comma once the counter has reached 128 is rejected where it stands. */
  lemma {:induction false} CommaFull(toks: seq<Token>, pos: nat)
    requires WellFormed(toks) && pos < |toks| && toks[pos] == Punct(",")
    ensures MoreParams(toks, State(pos, A), ArgcMax) == Fail(TooManyArgs(pos))
  {
  }

  /** The first copy of `, int a` and the rest of them. */
  lemma {:induction false} MoreAHead(toks: seq<Token>, pos: nat, q: nat, n: nat)
    requires 0 < n && q == pos + 3 * n <= |toks| && toks[pos..q] == MoreA(n)
    ensures CommaAt(toks, pos)
    ensures toks[pos + 3..q] == MoreA(n - 1)
  {
    var s := toks[pos..q];
    assert toks[pos] == s[0] && toks[pos + 1] == s[1] && toks[pos + 2] == s[2];
    assert toks[pos + 3..q] == s[3..];
  }

  /** The comma loop over `n` copies of `, int a`, ending at `q`, while the
      counter, ending at `c`, stays within 128: it keeps every parameter. */
  lemma {:induction false} CommaLoopKept(toks: seq<Token>, pos: nat, argc: nat, n: nat, q: nat, c: nat)
    requires WellFormed(toks) && q == pos + 3 * n && q < |toks|
    requires toks[pos..q] == MoreA(n) && toks[q] == Punct(")")
    requires c == argc + n <= ArgcMax
    ensures MoreParams(toks, State(pos, A), argc) == Ok((ParamList(Copies(n), c), State(q, A)))
    decreases n
  {
    if n == 0 {
      CommaEnd(toks, pos, argc);
    } else {
      MoreAHead(toks, pos, q, n);
      CommaLoopKept(toks, pos + 3, argc + 1, n - 1, q, c);
      CommaKept(toks, pos, argc, Copies(n - 1), c, q);
      assert Copies(n) == [AParam] + Copies(n - 1);
    }
  }

  /** The same loop once the counter would pass 128: it fails at the comma
      `stop` that takes it there. */
  lemma {:induction false} CommaLoopRejected(toks: seq<Token>, pos: nat, argc: nat, n: nat, q: nat, stop: nat)
    requires WellFormed(toks) && q == pos + 3 * n && q < |toks|
    requires toks[pos..q] == MoreA(n)
    requires argc <= ArgcMax < argc + n && stop == pos + 3 * (ArgcMax - argc)
    ensures MoreParams(toks, State(pos, A), argc) == Fail(TooManyArgs(stop))
    decreases n
  {
    MoreAHead(toks, pos, q, n);
    if argc == ArgcMax {
      assert stop == pos;
      CommaFull(toks, pos);
    } else {
      CommaLoopRejected(toks, pos + 3, argc + 1, n - 1, q, stop);
      CommaFails(toks, pos, argc, TooManyArgs(stop));
    }
  }

  /** The shape of `ManyParams(n)`: an end-of-input token at the end, the
      copies of `, int a` from position 2 on and `)` after them. */
  lemma {:induction false} ManyParamsLayout(n: nat)
    ensures WellFormed(ManyParams(n)) && |ManyParams(n)| == 3 * n + 4
    ensures ManyParams(n)[0] == Ident("int") && ManyParams(n)[1] == Ident("a")
    ensures ManyParams(n)[2..2 + 3 * n] == MoreA(n) && ManyParams(n)[2 + 3 * n] == Punct(")")
  {
    var toks := ManyParams(n);
    assert toks[2..2 + 3 * n] == MoreA(n);
  }

  /** The first parameter `int a` makes `a` the local at offset 8. */
  lemma {:induction false} FirstParam(toks: seq<Token>)
    requires WellFormed(toks) && 2 < |toks|
    requires toks[0] == Ident("int") && toks[1] == Ident("a")
    ensures Param(toks, State(0, [])) == Ok((AParam, State(2, A)))
  {
    assert GetType(toks, State(0, [])) == Ok((Some(Int), State(1, [])));
    assert FindVar([], "a") == None;
    assert NextOffset([]) == 8;
    assert Next(toks, State(1, A)) == Ok(State(2, A));
    assert A + [] == A;
  }

  /** A function takes at most 122 parameters: the first and 121 more. The
      parameter list `int a` followed by `n` copies of `, int a` is accepted
      exactly when it has no more than 122 parameters, and otherwise is
      rejected at the 122nd comma, position 2 + 3 * 121. */
  lemma {:induction false} ParameterLimit(n: nat)
    ensures Params(ManyParams(n), State(0, [])).Ok? <==> n + 1 <= ArgcMax - ArgcStart
    ensures n + 1 <= ArgcMax - ArgcStart ==>
              Params(ManyParams(n), State(0, [])) == Ok((ParamList(Copies(n + 1), ArgcStart + 1 + n), State(2 + 3 * n, A)))
    ensures n + 1 > ArgcMax - ArgcStart ==>
              Params(ManyParams(n), State(0, [])) == Fail(TooManyArgs(2 + 3 * (ArgcMax - ArgcStart - 1)))
  {
    var toks := ManyParams(n);
    ManyParamsLayout(n);
    FirstParam(toks);
    if n + 1 <= ArgcMax - ArgcStart {
      CommaLoopKept(toks, 2, ArgcStart + 1, n, 2 + 3 * n, ArgcStart + 1 + n);
      assert [AParam] + Copies(n) == Copies(n + 1);
    } else {
      CommaLoopRejected(toks, 2, ArgcStart + 1, n, 2 + 3 * n, 2 + 3 * (ArgcMax - ArgcStart - 1));
    }
  }
}
