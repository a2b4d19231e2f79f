/** A printer for expression trees, and the proof that the expression
    parser reads back what it prints.

    Every binary node is printed fully parenthesised, `*` and `&` nodes as a
    parenthesised prefix, numbers as their decimal digits, variables and
    callees as their names. Parsing that text at any precedence level gives
    back the very tree, consuming exactly its tokens and leaving the local
    list alone, provided every variable already resolves to the slot the tree
    gives it (so none is newly allocated).
 */
module Render {
  import opened Results
  import opened Ast
  import opened Cursor
  import opened Symbols
  import opened Parser

  predicate WordChar(c: char) {
    ('a' <= c <= 'z') || ('A' <= c <= 'Z') || ('0' <= c <= '9') || c == '_'
  }

  /** Identifier and number texts: non-empty, letters, digits and `_` only. */
  predicate Word(s: string) {
    |s| > 0 && forall i :: 0 <= i < |s| ==> WordChar(s[i])
  }

  function DigitChar(d: nat): char
    requires d < 10
  {
    (('0' as int) + d) as char
  }

  /** The decimal digits of a natural number. */
  function Digits(n: nat): (s: string)
    ensures Word(s)
  {
    if n < 10 then [DigitChar(n)] else Digits(n / 10) + [DigitChar(n % 10)]
  }

  function Punct(s: string): Token {
    Token(TkReserved, 0, s)
  }

  /** The token text of an operator node kind. */
  function OpText(k: NodeKind): string {
    match k
    case NdAdd => "+"
    case NdSub => "-"
    case NdMul => "*"
    case NdDiv => "/"
    case NdLt => "<"
    case NdGt => ">"
    case NdLte => "<="
    case NdGte => ">="
    case NdEq => "=="
    case NdNeq => "!="
    case NdAssign => "="
    case NdDeref => "*"
    case NdAddr => "&"
    case _ => ""
  }

  predicate Prefix(k: NodeKind) {
    k == NdDeref || k == NdAddr
  }

  predicate Infix(k: NodeKind) {
    k in {NdAdd, NdSub, NdMul, NdDiv, NdLt, NdGt, NdLte, NdGte, NdEq, NdNeq, NdAssign}
  }

  /** Expression trees the printer covers: no type annotations, natural
      literals, word names, `*`/`&` nodes with the `0` right child the parser
      gives them, and variables that `find_var` resolves to their own slot. */
  ghost predicate Printable(e: Node, locals: seq<Var>)
    decreases e
  {
    match e
    case Num(v, t) => v >= 0 && t.None?
    case LVar(x, off, t) => t.None? && Word(x) && FindVar(locals, x) == Some(Var(x, off))
    case Bin(k, l, r, t) =>
      && t.None?
      && Printable(l, locals)
      && (if Prefix(k) then r == Num(0, None) else Infix(k) && Printable(r, locals))
    case Call(f, args, t) =>
      t.None? && Word(f) && forall i :: 0 <= i < |args| ==> Printable(args[i], locals)
    case _ => false
  }

  /** The tokens of an expression. */
  function Print(e: Node): seq<Token>
    decreases e
  {
    match e
    case Num(v, _) => [Token(TkNum, v, if v >= 0 then Digits(v) else "-" + Digits(-v))]
    case LVar(x, _, _) => [Token(TkIdent, 0, x)]
    case Bin(k, l, r, _) =>
      if Prefix(k) then [Punct("("), Punct(OpText(k))] + Print(l) + [Punct(")")]
      else [Punct("(")] + Print(l) + [Punct(OpText(k))] + Print(r) + [Punct(")")]
    case Call(f, args, _) => [Token(TkIdent, 0, f), Punct("(")] + PrintArgs(args) + [Punct(")")]
    case _ => []
  }

  /** The tokens of an argument list: the arguments separated by commas. */
  function PrintArgs(args: seq<Node>): seq<Token>
    decreases args
  {
    if |args| == 0 then []
    else if |args| == 1 then Print(args[0])
    else Print(args[0]) + [Punct(",")] + PrintArgs(args[1..])
  }

  /** The tokens from `pos` on are exactly `ts`. */
  ghost predicate At(toks: seq<Token>, pos: nat, ts: seq<Token>)
    decreases ts
  {
    if |ts| == 0 then pos <= |toks|
    else pos < |toks| && toks[pos] == ts[0] && At(toks, pos + 1, ts[1..])
  }

  lemma {:induction false} AtSplit(toks: seq<Token>, pos: nat, a: seq<Token>, b: seq<Token>)
    requires At(toks, pos, a + b)
    ensures At(toks, pos, a) && At(toks, pos + |a|, b)
    decreases a
  {
    if |a| > 0 {
      assert (a + b)[0] == a[0];
      assert (a + b)[1..] == a[1..] + b;
      AtSplit(toks, pos + 1, a[1..], b);
    } else {
      assert a + b == b;
    }
  }

  lemma {:induction false} AtEnd(toks: seq<Token>, pos: nat, ts: seq<Token>)
    requires At(toks, pos, ts)
    ensures pos + |ts| <= |toks|
    decreases ts
  {
    if |ts| > 0 {
      AtEnd(toks, pos + 1, ts[1..]);
    }
  }

  lemma {:induction false} AtOne(toks: seq<Token>, pos: nat, t: Token)
    requires At(toks, pos, [t])
    ensures pos < |toks| && toks[pos] == t
  {
  }

  /** A word is never a punctuation symbol. */
  lemma {:induction false} WordIsNotSymbol(s: string, p: string)
    requires Word(s) && |p| > 0 && !WordChar(p[0])
    ensures s != p
  {
    assert WordChar(s[0]);
  }

  /** The parse functions of the expression grammar, by precedence level:
      1 primary, 2 unary, 3 mul, 4 add, 5 relational, 6 equality, 7 assign,
      8 expr. */
  function Level(i: nat, toks: seq<Token>, st: State): Result<(Node, State)>
    requires WellFormed(toks) && st.pos < |toks|
  {
    if i <= 1 then Primary(toks, st)
    else if i == 2 then Unary(toks, st)
    else if i == 3 then Mul(toks, st)
    else if i == 4 then Add(toks, st)
    else if i == 5 then Relational(toks, st)
    else if i == 6 then Equality(toks, st)
    else if i == 7 then Assign(toks, st)
    else Expr(toks, st)
  }

  /** The loosest level is `expr` itself. */
  lemma {:induction false} ExprLevel(toks: seq<Token>, st: State)
    requires WellFormed(toks) && st.pos < |toks|
    ensures Level(8, toks, st) == Expr(toks, st)
  {
  }

  /** The operator table a level looks at after its left operand. */
  function LevelOps(i: nat): seq<(string, NodeKind)> {
    if i == 3 then MulOps
    else if i == 4 then AddOps
    else if i == 5 then RelOps
    else if i == 6 then EqOps
    else if i == 7 then AssignOps
    else []
  }

  /** The level of an infix operator. */
  function OpLevel(k: NodeKind): nat {
    if k == NdMul || k == NdDiv then 3
    else if k == NdAdd || k == NdSub then 4
    else if k == NdLt || k == NdGt || k == NdLte || k == NdGte then 5
    else if k == NdEq || k == NdNeq then 6
    else 7
  }

  /** The level a binary level takes its right operand from: its own level
      for mul, add and assign, the next tighter one for relational and
      equality. */
  function RightLevel(i: nat): nat {
    if i == 5 then 4 else if i == 6 then 5 else i
  }

  /** The characters binary operators and `(` begin with. */
  predicate OpStart(c: char) {
    c == '*' || c == '/' || c == '+' || c == '-' || c == '<' || c == '>' || c == '=' || c == '!' || c == '('
  }

  /** A token that ends an expression: its text is empty or does not begin
      like a binary operator or `(`. */
  predicate Stop(t: Token) {
    |t.text| == 0 || !OpStart(t.text[0])
  }

  lemma {:induction false} StopNoOp(t: Token, m: nat)
    requires Stop(t)
    ensures OpAt(t, LevelOps(m)) == None
  {
  }

  /** An operator's text is found at its own level. */
  lemma {:induction false} OpFound(k: NodeKind, t: Token, lv: nat)
    requires Infix(k) && t.text == OpText(k) && lv == OpLevel(k)
    ensures OpAt(t, LevelOps(lv)) == Some(k)
  {
    var i := match k
      case NdMul => 0 case NdDiv => 1
      case NdAdd => 0 case NdSub => 1
      case NdLte => 0 case NdGte => 1 case NdLt => 2 case NdGt => 3
      case NdEq => 0 case NdNeq => 1
      case _ => 0;
    OpAtIndex(t, LevelOps(OpLevel(k)), i);
  }

  /** An operator's text is not found at any tighter level. */
  lemma {:induction false} OpNotTighter(k: NodeKind, t: Token, m: nat)
    requires Infix(k) && t.text == OpText(k) && 3 <= m < OpLevel(k)
    ensures OpAt(t, LevelOps(m)) == None
  {
  }

  /** The first table entry whose text matches decides. */
  lemma {:induction false} OpAtIndex(t: Token, ops: seq<(string, NodeKind)>, i: nat)
    requires i < |ops| && Equal(t, ops[i].0)
    requires forall j :: 0 <= j < i ==> !Equal(t, ops[j].0)
    ensures OpAt(t, ops) == Some(ops[i].1)
  {
    if i > 0 {
      OpAtIndex(t, ops[1..], i - 1);
    }
  }

  /** A level whose operator does not follow returns its left operand. */
  lemma {:induction false} LiftOne(i: nat, toks: seq<Token>, st: State, n: Node, s: State)
    requires WellFormed(toks) && st.pos < |toks| && 2 <= i < 8
    requires Level(i, toks, st) == Ok((n, s)) && s.pos < |toks|
    requires OpAt(toks[s.pos], LevelOps(i + 1)) == None
    ensures Level(i + 1, toks, st) == Ok((n, s))
  {
  }

  lemma {:induction false} Lift(i: nat, j: nat, toks: seq<Token>, st: State, n: Node, s: State)
    requires WellFormed(toks) && st.pos < |toks| && 2 <= i <= j <= 8
    requires Level(i, toks, st) == Ok((n, s)) && s.pos < |toks|
    requires forall m :: i < m <= j ==> OpAt(toks[s.pos], LevelOps(m)) == None
    ensures Level(j, toks, st) == Ok((n, s))
    decreases j - i
  {
    if i < j {
      LiftOne(i, toks, st, n, s);
      Lift(i + 1, j, toks, st, n, s);
    }
  }

  /** One binary step at level `i`: left operand, operator, right operand.
      Each operand may add locals (a fresh name becomes one), from `l0` to
      `l1` to `l2`. */
  lemma {:induction false} InfixStep(i: nat, toks: seq<Token>, pos: nat, l0: seq<Var>, k: NodeKind, lhs: Node, c: nat, l1: seq<Var>, rhs: Node, q: nat, l2: seq<Var>)
    requires WellFormed(toks) && pos < |toks| && 3 <= i <= 7
    requires Level(i - 1, toks, State(pos, l0)) == Ok((lhs, State(c, l1))) && c + 1 < |toks|
    requires OpAt(toks[c], LevelOps(i)) == Some(k)
    requires Level(RightLevel(i), toks, State(c + 1, l1)) == Ok((rhs, State(q, l2)))
    ensures Level(i, toks, State(pos, l0)) == Ok((Bin(k, lhs, rhs, None), State(q, l2)))
  {
    assert Next(toks, State(c, l1)) == Ok(State(c + 1, l1));
  }

  /** A printed expression starts with `(` or with a word. */
  lemma {:induction false} PrintHead(e: Node, locals: seq<Var>)
    requires Printable(e, locals)
    ensures |Print(e)| > 0 && (Print(e)[0] == Punct("(") || Word(Print(e)[0].text))
  {
  }

  /** Neither `(` nor a word is a unary operator, a comma or a `)`. */
  lemma {:induction false} HeadIsNotSymbol(t: Token)
    requires t == Punct("(") || Word(t.text)
    ensures !Equal(t, "+") && !Equal(t, "-") && !Equal(t, "*") && !Equal(t, "&") && !Equal(t, ")")
  {
    if Word(t.text) {
      WordIsNotSymbol(t.text, "+");
      WordIsNotSymbol(t.text, "-");
      WordIsNotSymbol(t.text, "*");
      WordIsNotSymbol(t.text, "&");
      WordIsNotSymbol(t.text, ")");
    }
  }

  // Single parse steps, each stated over the tokens it looks at.

  lemma {:induction false} UnaryOfPrimary(toks: seq<Token>, st: State)
    requires WellFormed(toks) && st.pos < |toks|
    requires toks[st.pos] == Punct("(") || Word(toks[st.pos].text)
    ensures Unary(toks, st) == Primary(toks, st)
  {
    HeadIsNotSymbol(toks[st.pos]);
  }

  /** A name not yet declared, followed by `;`, read as an expression: it
      becomes a new local one slot past the newest. */
  lemma {:induction false} FreshName(toks: seq<Token>, pos: nat, locals: seq<Var>, x: string)
    requires WellFormed(toks) && pos + 1 < |toks| && Word(x)
    requires toks[pos].kind == TkIdent && toks[pos].text == x && Equal(toks[pos + 1], ";") && FindVar(locals, x) == None
    ensures Expr(toks, State(pos, locals)) ==
            Ok((LVar(x, NextOffset(locals), None), State(pos + 1, [Var(x, NextOffset(locals))] + locals)))
  {
    var v := Var(x, NextOffset(locals));
    var s := State(pos + 1, [v] + locals);
    assert Next(toks, State(pos, [v] + locals)) == Ok(s);
    assert ExpectIdent(toks, State(pos, locals)) == Ok((LVar(x, v.offset, None), s));
    WordIsNotSymbol(x, "(");
    assert Primary(toks, State(pos, locals)) == Ok((LVar(x, v.offset, None), s));
    UnaryOfPrimary(toks, State(pos, locals));
    StopLift(2, 8, toks, State(pos, locals), LVar(x, v.offset, None), s);
    ExprLevel(toks, State(pos, locals));
  }

  /** `*` or `&` followed by a unary operand, which may add locals. */
  lemma {:induction false} UnaryPrefix(toks: seq<Token>, pos: nat, l0: seq<Var>, k: NodeKind, u: Node, q: nat, l1: seq<Var>)
    requires WellFormed(toks) && pos + 1 < |toks| && Prefix(k) && toks[pos] == Punct(OpText(k))
    requires Unary(toks, State(pos + 1, l0)) == Ok((u, State(q, l1)))
    ensures Unary(toks, State(pos, l0)) == Ok((Bin(k, u, Num(0, None), None), State(q, l1)))
  {
  }

  /** A unary minus reads one primary, not a unary, and subtracts it from 0. */
  lemma {:induction false} UnaryMinus(toks: seq<Token>, st: State)
    requires WellFormed(toks) && st.pos < |toks| && Equal(toks[st.pos], "-")
    ensures st.pos + 1 == |toks| ==> Unary(toks, st) == Fail(PastEnd(st.pos + 1))
    ensures st.pos + 1 < |toks| && Primary(toks, State(st.pos + 1, st.locals)).Ok? ==>
              Unary(toks, st) == Ok((Bin(NdSub, Num(0, None), Primary(toks, State(st.pos + 1, st.locals)).value.0, None),
                                     Primary(toks, State(st.pos + 1, st.locals)).value.1))
    ensures st.pos + 1 < |toks| && Primary(toks, State(st.pos + 1, st.locals)).Fail? ==>
              Unary(toks, st) == Fail(Primary(toks, State(st.pos + 1, st.locals)).error)
  {
  }

  /** A unary plus is dropped: what follows is read as one primary. */
  lemma {:induction false} UnaryPlus(toks: seq<Token>, st: State)
    requires WellFormed(toks) && st.pos < |toks| && Equal(toks[st.pos], "+")
    ensures st.pos + 1 == |toks| ==> Unary(toks, st) == Fail(PastEnd(st.pos + 1))
    ensures st.pos + 1 < |toks| ==> Unary(toks, st) == Primary(toks, State(st.pos + 1, st.locals))
  {
  }

  /** A parenthesised expression, which may add locals, is the inner node. */
  lemma {:induction false} PrimaryParen(toks: seq<Token>, pos: nat, l0: seq<Var>, e: Node, c: nat, l1: seq<Var>, q: nat)
    requires WellFormed(toks) && pos + 1 < |toks| && toks[pos] == Punct("(")
    requires Expr(toks, State(pos + 1, l0)) == Ok((e, State(c, l1)))
    requires c < |toks| && toks[c] == Punct(")") && q == c + 1
    ensures Primary(toks, State(pos, l0)) == Ok((e, State(q, l1)))
  {
    assert Next(toks, State(pos, l0)) == Ok(State(pos + 1, l0));
    assert Expect(toks, State(c, l1), ")") == Ok(State(q, l1));
  }

  /** An identifier followed by `(` is a call. */
  lemma {:induction false} PrimaryCall(toks: seq<Token>, st: State)
    requires WellFormed(toks) && st.pos + 1 < |toks|
    requires toks[st.pos].kind == TkIdent && toks[st.pos].text != "(" && toks[st.pos + 1] == Punct("(")
    ensures Primary(toks, st) == Funcall(toks, st)
  {
  }

  lemma {:induction false} FuncallNoArgs(toks: seq<Token>, pos: nat, locals: seq<Var>, q: nat)
    requires WellFormed(toks) && pos + 2 < |toks| && q == pos + 3
    requires toks[pos + 1] == Punct("(") && toks[pos + 2] == Punct(")")
    ensures Funcall(toks, State(pos, locals)) == Ok((Call(toks[pos].text, [], None), State(q, locals)))
  {
    assert Next(toks, State(pos, locals)) == Ok(State(pos + 1, locals));
    assert Expect(toks, State(pos + 1, locals), "(") == Ok(State(pos + 2, locals));
    assert Expect(toks, State(pos + 2, locals), ")") == Ok(State(q, locals));
  }

  /** name `(` arguments `)`, where the arguments may add locals. */
  lemma {:induction false} FuncallArgs(toks: seq<Token>, pos: nat, l0: seq<Var>, args: seq<Node>, c: nat, l1: seq<Var>, q: nat)
    requires WellFormed(toks) && pos + 2 < |toks|
    requires toks[pos + 1] == Punct("(") && !Equal(toks[pos + 2], ")")
    requires Args(toks, State(pos + 2, l0)) == Ok((args, State(c, l1)))
    requires c < |toks| && toks[c] == Punct(")") && q == c + 1
    ensures Funcall(toks, State(pos, l0)) == Ok((Call(toks[pos].text, args, None), State(q, l1)))
  {
    assert Next(toks, State(pos, l0)) == Ok(State(pos + 1, l0));
    assert Expect(toks, State(pos + 1, l0), "(") == Ok(State(pos + 2, l0));
    assert Expect(toks, State(c, l1), ")") == Ok(State(q, l1));
  }

  /** One argument, which may add locals, followed by `)`. */
  lemma {:induction false} ArgsLast(toks: seq<Token>, pos: nat, l0: seq<Var>, a: Node, q: nat, l1: seq<Var>)
    requires WellFormed(toks) && pos < |toks|
    requires Assign(toks, State(pos, l0)) == Ok((a, State(q, l1))) && toks[q] == Punct(")")
    ensures Args(toks, State(pos, l0)) == Ok(([a], State(q, l1)))
  {
  }

  /** An argument, a comma and the rest of the arguments; each part may add
      locals. */
  lemma {:induction false} ArgsMore(toks: seq<Token>, pos: nat, l0: seq<Var>, args: seq<Node>, c: nat, l1: seq<Var>, q: nat, l2: seq<Var>)
    requires WellFormed(toks) && pos < |toks| && |args| > 1
    requires Assign(toks, State(pos, l0)) == Ok((args[0], State(c, l1))) && c + 1 < |toks| && toks[c] == Punct(",")
    requires Args(toks, State(c + 1, l1)) == Ok((args[1..], State(q, l2)))
    ensures Args(toks, State(pos, l0)) == Ok((args, State(q, l2)))
  {
    assert Next(toks, State(c, l1)) == Ok(State(c + 1, l1));
    assert [args[0]] + args[1..] == args;
  }

  // Where the pieces of a printed node sit in the token list.

  lemma {:induction false} HeadAt(toks: seq<Token>, pos: nat, e: Node, locals: seq<Var>)
    requires Printable(e, locals) && At(toks, pos, Print(e))
    ensures pos < |toks| && (toks[pos] == Punct("(") || Word(toks[pos].text))
  {
    PrintHead(e, locals);
    assert Print(e) == [Print(e)[0]] + Print(e)[1..];
    AtSplit(toks, pos, [Print(e)[0]], Print(e)[1..]);
    AtOne(toks, pos, Print(e)[0]);
  }

  /** The pieces of a token list built as two tokens, tokens, token, the
      last at `c`. */
  lemma {:induction false} FourPieces(toks: seq<Token>, pos: nat, a: Token, b: Token, pl: seq<Token>, d: Token, c: nat)
    requires At(toks, pos, [a, b] + pl + [d]) && c == pos + 2 + |pl|
    ensures pos + 1 < |toks| && toks[pos] == a && toks[pos + 1] == b
    ensures At(toks, pos + 2, pl) && c < |toks| && toks[c] == d
  {
    assert [a, b] == [a] + [b];
    AtSplit(toks, pos, [a, b] + pl, [d]);
    AtSplit(toks, pos, [a, b], pl);
    AtSplit(toks, pos, [a], [b]);
    AtOne(toks, pos, a);
    AtOne(toks, pos + 1, b);
    AtOne(toks, c, d);
  }

  lemma {:induction false} CallTokens(toks: seq<Token>, pos: nat, e: Node, c: nat)
    requires e.Call? && At(toks, pos, Print(e)) && c == pos + 2 + |PrintArgs(e.args)|
    ensures |Print(e)| == |PrintArgs(e.args)| + 3
    ensures pos + 1 < |toks| && toks[pos] == Token(TkIdent, 0, e.name) && toks[pos + 1] == Punct("(")
    ensures At(toks, pos + 2, PrintArgs(e.args)) && c < |toks| && toks[c] == Punct(")")
  {
    FourPieces(toks, pos, Token(TkIdent, 0, e.name), Punct("("), PrintArgs(e.args), Punct(")"), c);
  }

  lemma {:induction false} PrefixTokens(toks: seq<Token>, pos: nat, e: Node, c: nat)
    requires e.Bin? && Prefix(e.op) && At(toks, pos, Print(e)) && c == pos + 2 + |Print(e.lhs)|
    ensures |Print(e)| == |Print(e.lhs)| + 3
    ensures pos + 1 < |toks| && toks[pos] == Punct("(") && toks[pos + 1] == Punct(OpText(e.op))
    ensures At(toks, pos + 2, Print(e.lhs)) && c < |toks| && toks[c] == Punct(")")
  {
    FourPieces(toks, pos, Punct("("), Punct(OpText(e.op)), Print(e.lhs), Punct(")"), c);
  }

  /** The pieces of a token list built as token, tokens, token, tokens,
      token, the middle token at `p1` and the last at `p2`. */
  lemma {:induction false} FivePieces(toks: seq<Token>, pos: nat, a: Token, pl: seq<Token>, b: Token, pr: seq<Token>, c: Token, p1: nat, p2: nat)
    requires At(toks, pos, [a] + pl + [b] + pr + [c])
    requires p1 == pos + 1 + |pl| && p2 == p1 + 1 + |pr|
    ensures pos < |toks| && toks[pos] == a && At(toks, pos + 1, pl)
    ensures p1 < |toks| && toks[p1] == b && At(toks, p1 + 1, pr)
    ensures p2 < |toks| && toks[p2] == c
  {
    AtSplit(toks, pos, [a] + pl + [b] + pr, [c]);
    AtSplit(toks, pos, [a] + pl + [b], pr);
    AtSplit(toks, pos, [a] + pl, [b]);
    AtSplit(toks, pos, [a], pl);
    AtOne(toks, pos, a);
    AtOne(toks, p1, b);
    AtOne(toks, p2, c);
  }

  lemma {:induction false} InfixTokens(toks: seq<Token>, pos: nat, e: Node, p1: nat, p2: nat)
    requires e.Bin? && !Prefix(e.op) && At(toks, pos, Print(e))
    requires p1 == pos + 1 + |Print(e.lhs)| && p2 == p1 + 1 + |Print(e.rhs)|
    ensures |Print(e)| == |Print(e.lhs)| + |Print(e.rhs)| + 3
    ensures InfixAt(toks, pos, e, p1, p2)
  {
    var o := Punct(OpText(e.op));
    assert Print(e) == [Punct("(")] + Print(e.lhs) + [o] + Print(e.rhs) + [Punct(")")];
    FivePieces(toks, pos, Punct("("), Print(e.lhs), o, Print(e.rhs), Punct(")"), p1, p2);
  }

  /** The pieces of a token list built as tokens, token, tokens, the middle
      token at `c`. */
  lemma {:induction false} ThreePieces(toks: seq<Token>, pos: nat, pl: seq<Token>, b: Token, pr: seq<Token>, c: nat)
    requires At(toks, pos, pl + [b] + pr) && c == pos + |pl|
    ensures At(toks, pos, pl) && c < |toks| && toks[c] == b && At(toks, c + 1, pr)
  {
    AtSplit(toks, pos, pl + [b], pr);
    AtSplit(toks, pos, pl, [b]);
    AtOne(toks, c, b);
  }

  lemma {:induction false} ArgsTokens(toks: seq<Token>, pos: nat, args: seq<Node>, c: nat)
    requires |args| > 1 && At(toks, pos, PrintArgs(args)) && c == pos + |Print(args[0])|
    ensures |PrintArgs(args)| == |Print(args[0])| + 1 + |PrintArgs(args[1..])|
    ensures At(toks, pos, Print(args[0])) && c < |toks| && toks[c] == Punct(",")
    ensures At(toks, c + 1, PrintArgs(args[1..]))
  {
    assert PrintArgs(args) == Print(args[0]) + [Punct(",")] + PrintArgs(args[1..]);
    ThreePieces(toks, pos, Print(args[0]), Punct(","), PrintArgs(args[1..]), c);
  }

  // The round trip. Every lemma below reads a printed tree that starts at
  // `pos` and ends just before `q`, with the local list `locals` fixed
  // throughout.

  /** `primary` reads a printed expression back, followed by anything but
      `(`, without touching the local list. */
  lemma {:induction false} PrimaryPrint(toks: seq<Token>, pos: nat, locals: seq<Var>, e: Node, q: nat)
    requires WellFormed(toks) && Printable(e, locals)
    requires At(toks, pos, Print(e)) && q == pos + |Print(e)| && q < |toks|
    requires toks[q].text != "("
    ensures Primary(toks, State(pos, locals)) == Ok((e, State(q, locals)))
    decreases e, 3
  {
    match e
    case Num(_, _) =>
      LeafPrint(toks, pos, locals, e, q);
    case LVar(_, _, _) =>
      LeafPrint(toks, pos, locals, e, q);
    case Call(_, _, _) =>
      CallPrint(toks, pos, locals, e, q);
    case Bin(k, _, _, _) =>
      if Prefix(k) {
        PrefixPrint(toks, pos, locals, e, q);
      } else {
        InfixPrint(toks, pos, locals, e, q);
      }
  }

  /** A number or a variable: one token, not followed by `(`. */
  lemma {:induction false} LeafPrint(toks: seq<Token>, pos: nat, locals: seq<Var>, e: Node, q: nat)
    requires WellFormed(toks) && (e.Num? || e.LVar?) && Printable(e, locals)
    requires At(toks, pos, Print(e)) && q == pos + |Print(e)| && q < |toks|
    requires toks[q].text != "("
    ensures Primary(toks, State(pos, locals)) == Ok((e, State(q, locals)))
  {
    AtOne(toks, pos, Print(e)[0]);
    if e.Num? {
      WordIsNotSymbol(Digits(e.val), "(");
    } else {
      WordIsNotSymbol(e.name, "(");
    }
  }

  /** A call: name, `(`, the printed arguments, `)`. */
  lemma {:induction false} CallPrint(toks: seq<Token>, pos: nat, locals: seq<Var>, e: Node, q: nat)
    requires WellFormed(toks) && e.Call? && Printable(e, locals)
    requires At(toks, pos, Print(e)) && q == pos + |Print(e)| && q < |toks|
    ensures Primary(toks, State(pos, locals)) == Ok((e, State(q, locals)))
    decreases e, 2
  {
    var c := pos + 2 + |PrintArgs(e.args)|;
    CallTokens(toks, pos, e, c);
    WordIsNotSymbol(e.name, "(");
    PrimaryCall(toks, State(pos, locals));
    if |e.args| == 0 {
      assert c == pos + 2;
      FuncallNoArgs(toks, pos, locals, q);
    } else {
      CallArgsPrint(toks, pos, locals, e, q);
    }
  }

  /** A call with arguments, from its name on. */
  lemma {:induction false} CallArgsPrint(toks: seq<Token>, pos: nat, locals: seq<Var>, e: Node, q: nat)
    requires WellFormed(toks) && e.Call? && |e.args| > 0 && Printable(e, locals)
    requires At(toks, pos, Print(e)) && q == pos + |Print(e)| && q < |toks|
    ensures Funcall(toks, State(pos, locals)) == Ok((e, State(q, locals)))
    decreases e, 1
  {
    var c := pos + 2 + |PrintArgs(e.args)|;
    CallTokens(toks, pos, e, c);
    CallArgsClose(toks, pos, locals, e, c, q);
  }

  /** The name, `(`, the printed arguments ending before `c`, and `)` at `c`
      make the call. */
  lemma {:induction false} CallArgsClose(toks: seq<Token>, pos: nat, locals: seq<Var>, e: Node, c: nat, q: nat)
    requires WellFormed(toks) && e.Call? && e.ty.None? && |e.args| > 0
    requires forall i :: 0 <= i < |e.args| ==> Printable(e.args[i], locals)
    requires pos + 1 < |toks| && toks[pos] == Token(TkIdent, 0, e.name) && toks[pos + 1] == Punct("(")
    requires At(toks, pos + 2, PrintArgs(e.args)) && c == pos + 2 + |PrintArgs(e.args)|
    requires c < |toks| && toks[c] == Punct(")") && q == c + 1
    ensures Funcall(toks, State(pos, locals)) == Ok((e, State(q, locals)))
    decreases e, 0
  {
    assert Printable(e.args[0], locals);
    ArgsHeadAt(toks, pos + 2, e.args, locals);
    HeadIsNotSymbol(toks[pos + 2]);
    ArgsPrint(toks, pos + 2, locals, e.args, c);
    FuncallArgs(toks, pos, locals, e.args, c, locals, q);
    assert Call(toks[pos].text, e.args, None) == e;
  }

  lemma {:induction false} ArgsHeadAt(toks: seq<Token>, pos: nat, args: seq<Node>, locals: seq<Var>)
    requires |args| > 0 && Printable(args[0], locals) && At(toks, pos, PrintArgs(args))
    ensures pos < |toks| && (toks[pos] == Punct("(") || Word(toks[pos].text))
  {
    if |args| > 1 {
      ArgsTokens(toks, pos, args, pos + |Print(args[0])|);
    }
    HeadAt(toks, pos, args[0], locals);
  }

  /** A `*` or `&` node: `(`, the operator, the printed operand, `)`. */
  lemma {:induction false} PrefixPrint(toks: seq<Token>, pos: nat, locals: seq<Var>, e: Node, q: nat)
    requires WellFormed(toks) && e.Bin? && Prefix(e.op) && Printable(e, locals)
    requires At(toks, pos, Print(e)) && q == pos + |Print(e)| && q < |toks|
    ensures Primary(toks, State(pos, locals)) == Ok((e, State(q, locals)))
    decreases e, 2
  {
    var c := pos + 2 + |Print(e.lhs)|;
    PrefixTokens(toks, pos, e, c);
    var inner := State(pos + 1, locals);
    ExprPrint(toks, pos + 2, locals, e.lhs, 2, c);
    UnaryPrefix(toks, pos + 1, locals, e.op, e.lhs, c, locals);
    assert Level(2, toks, inner) == Ok((e, State(c, locals)));
    StopLift(2, 8, toks, inner, e, State(c, locals));
    PrimaryParen(toks, pos, locals, e, c, locals, q);
  }

  /** A binary node's tokens from `pos` on: `(`, the printed left operand
      ending before `p1`, the operator at `p1`, the printed right operand
      ending before `p2`, and `)` at `p2`. */
  ghost predicate InfixAt(toks: seq<Token>, pos: nat, e: Node, p1: nat, p2: nat) {
    && e.Bin? && pos < |toks| && toks[pos] == Punct("(")
    && At(toks, pos + 1, Print(e.lhs)) && p1 == pos + 1 + |Print(e.lhs)|
    && p1 < |toks| && toks[p1] == Punct(OpText(e.op))
    && At(toks, p1 + 1, Print(e.rhs)) && p2 == p1 + 1 + |Print(e.rhs)|
    && p2 < |toks| && toks[p2] == Punct(")")
  }

  /** A binary node: `(`, the printed left operand, the operator, the printed
      right operand, `)`. */
  lemma {:induction false} InfixPrint(toks: seq<Token>, pos: nat, locals: seq<Var>, e: Node, q: nat)
    requires WellFormed(toks) && e.Bin? && !Prefix(e.op) && Printable(e, locals)
    requires At(toks, pos, Print(e)) && q == pos + |Print(e)| && q < |toks|
    ensures Primary(toks, State(pos, locals)) == Ok((e, State(q, locals)))
    decreases e, 2
  {
    var p1 := pos + 1 + |Print(e.lhs)|;
    var p2 := p1 + 1 + |Print(e.rhs)|;
    InfixTokens(toks, pos, e, p1, p2);
    assert Printable(e.lhs, locals) && Printable(e.rhs, locals);
    InfixNodePrint(toks, pos, locals, e, p1, p2, q);
  }

  /** A binary node in parentheses: the node is read at its operator's
      level, then lifted to `expr`, which the closing `)` ends. */
  lemma {:induction false} InfixNodePrint(toks: seq<Token>, pos: nat, locals: seq<Var>, e: Node, p1: nat, p2: nat, q: nat)
    requires WellFormed(toks) && e.Bin? && Infix(e.op) && e.ty.None?
    requires Printable(e.lhs, locals) && Printable(e.rhs, locals)
    requires InfixAt(toks, pos, e, p1, p2) && q == p2 + 1
    ensures Primary(toks, State(pos, locals)) == Ok((e, State(q, locals)))
    decreases e, 1
  {
    var lv := OpLevel(e.op);
    var inner := State(pos + 1, locals);
    var close := State(p2, locals);
    InfixLevel(toks, pos + 1, locals, e, lv, p1, p2);
    StopLift(lv, 8, toks, inner, e, close);
    PrimaryParen(toks, pos, locals, e, p2, locals, q);
  }

  /** The left operand is read at the level below the operator's, the right
      operand at the level the operator's function takes it from, so the
      operator's own level reads the whole node. */
  lemma {:induction false} InfixLevel(toks: seq<Token>, pos: nat, locals: seq<Var>, e: Node, lv: nat, p1: nat, p2: nat)
    requires WellFormed(toks) && e.Bin? && Infix(e.op) && e.ty.None? && lv == OpLevel(e.op)
    requires Printable(e.lhs, locals) && Printable(e.rhs, locals)
    requires pos >= 1 && InfixAt(toks, pos - 1, e, p1, p2)
    ensures 3 <= lv <= 7
    ensures Level(lv, toks, State(pos, locals)) == Ok((e, State(p2, locals)))
    decreases e, 0
  {
    LeftOperand(toks, pos, locals, e.lhs, e.op, lv, p1);
    OpFound(e.op, toks[p1], lv);
    ExprPrint(toks, p1 + 1, locals, e.rhs, RightLevel(lv), p2);
    InfixStep(lv, toks, pos, locals, e.op, e.lhs, p1, locals, e.rhs, p2, locals);
    assert Bin(e.op, e.lhs, e.rhs, None) == e;
  }

  /** The left operand of a binary node is read back at every level below
      the operator's. */
  lemma {:induction false} LeftOperand(toks: seq<Token>, pos: nat, locals: seq<Var>, l: Node, k: NodeKind, lv: nat, q: nat)
    requires WellFormed(toks) && Printable(l, locals) && Infix(k) && lv == OpLevel(k)
    requires At(toks, pos, Print(l)) && q == pos + |Print(l)| && q < |toks|
    requires toks[q] == Punct(OpText(k))
    ensures Level(lv - 1, toks, State(pos, locals)) == Ok((l, State(q, locals)))
    decreases l, 5
  {
    UnaryPrint(toks, pos, locals, l, q);
    forall m | 2 < m <= lv - 1
      ensures OpAt(toks[q], LevelOps(m)) == None
    {
      OpNotTighter(k, toks[q], m);
    }
    Lift(2, lv - 1, toks, State(pos, locals), l, State(q, locals));
  }

  /** `unary` reads a printed expression back as `primary` does. */
  lemma {:induction false} UnaryPrint(toks: seq<Token>, pos: nat, locals: seq<Var>, e: Node, q: nat)
    requires WellFormed(toks) && Printable(e, locals)
    requires At(toks, pos, Print(e)) && q == pos + |Print(e)| && q < |toks|
    requires toks[q].text != "("
    ensures Level(2, toks, State(pos, locals)) == Ok((e, State(q, locals)))
    decreases e, 4
  {
    PrimaryPrint(toks, pos, locals, e, q);
    HeadAt(toks, pos, e, locals);
    UnaryOfPrimary(toks, State(pos, locals));
  }

  /** Lifting past every level up to `j` when a token that ends an
      expression follows. */
  lemma {:induction false} StopLift(i: nat, j: nat, toks: seq<Token>, st: State, n: Node, s: State)
    requires WellFormed(toks) && st.pos < |toks| && 2 <= i <= j <= 8
    requires Level(i, toks, st) == Ok((n, s)) && s.pos < |toks| && Stop(toks[s.pos])
    ensures Level(j, toks, st) == Ok((n, s))
  {
    forall m | i < m <= j
      ensures OpAt(toks[s.pos], LevelOps(m)) == None
    {
      StopNoOp(toks[s.pos], m);
    }
    Lift(i, j, toks, st, n, s);
  }

  /** Every level from `unary` to `expr` reads a printed expression back
      when it is followed by a token that ends an expression. */
  lemma {:induction false} ExprPrint(toks: seq<Token>, pos: nat, locals: seq<Var>, e: Node, i: nat, q: nat)
    requires WellFormed(toks) && Printable(e, locals) && 2 <= i <= 8
    requires At(toks, pos, Print(e)) && q == pos + |Print(e)| && q < |toks|
    requires Stop(toks[q])
    ensures Level(i, toks, State(pos, locals)) == Ok((e, State(q, locals)))
    decreases e, 5
  {
    UnaryPrint(toks, pos, locals, e, q);
    StopLift(2, i, toks, State(pos, locals), e, State(q, locals));
  }

  /** `assign`, which reads each call argument, reads a printed expression
      back. */
  lemma {:induction false} AssignPrint(toks: seq<Token>, pos: nat, locals: seq<Var>, e: Node, q: nat)
    requires WellFormed(toks) && Printable(e, locals)
    requires At(toks, pos, Print(e)) && q == pos + |Print(e)| && q < |toks|
    requires Stop(toks[q])
    ensures Assign(toks, State(pos, locals)) == Ok((e, State(q, locals)))
    decreases e, 6
  {
    ExprPrint(toks, pos, locals, e, 7, q);
  }

  /** The argument loop reads back printed arguments followed by `)`. */
  lemma {:induction false} ArgsPrint(toks: seq<Token>, pos: nat, locals: seq<Var>, args: seq<Node>, q: nat)
    requires WellFormed(toks) && |args| > 0
    requires forall i :: 0 <= i < |args| ==> Printable(args[i], locals)
    requires At(toks, pos, PrintArgs(args)) && q == pos + |PrintArgs(args)| && q < |toks|
    requires toks[q] == Punct(")")
    ensures Args(toks, State(pos, locals)) == Ok((args, State(q, locals)))
    decreases args, 2
  {
    if |args| == 1 {
      AssignPrint(toks, pos, locals, args[0], q);
      ArgsLast(toks, pos, locals, args[0], q, locals);
      assert [args[0]] == args;
    } else {
      MoreArgsPrint(toks, pos, locals, args, q);
    }
  }

  /** Two or more arguments: the first, a comma, and the rest. */
  lemma {:induction false} MoreArgsPrint(toks: seq<Token>, pos: nat, locals: seq<Var>, args: seq<Node>, q: nat)
    requires WellFormed(toks) && |args| > 1
    requires forall i :: 0 <= i < |args| ==> Printable(args[i], locals)
    requires At(toks, pos, PrintArgs(args)) && q == pos + |PrintArgs(args)| && q < |toks|
    requires toks[q] == Punct(")")
    ensures Args(toks, State(pos, locals)) == Ok((args, State(q, locals)))
    decreases args, 1
  {
    var c := pos + |Print(args[0])|;
    ArgsTokens(toks, pos, args, c);
    MoreArgsClose(toks, pos, locals, args, c, q);
  }

  /** The first argument printed before the comma at `c`, the rest printed
      after it and before the `)` at `q`. */
  lemma {:induction false} MoreArgsClose(toks: seq<Token>, pos: nat, locals: seq<Var>, args: seq<Node>, c: nat, q: nat)
    requires WellFormed(toks) && |args| > 1
    requires forall i :: 0 <= i < |args| ==> Printable(args[i], locals)
    requires At(toks, pos, Print(args[0])) && c == pos + |Print(args[0])|
    requires c < |toks| && toks[c] == Punct(",")
    requires At(toks, c + 1, PrintArgs(args[1..])) && q == c + 1 + |PrintArgs(args[1..])|
    requires q < |toks| && toks[q] == Punct(")")
    ensures Args(toks, State(pos, locals)) == Ok((args, State(q, locals)))
    decreases args, 0
  {
    var rest := args[1..];
    AssignPrint(toks, pos, locals, args[0], c);
    forall i | 0 <= i < |rest|
      ensures Printable(rest[i], locals)
    {
      assert rest[i] == args[i + 1];
    }
    ArgsPrint(toks, c + 1, locals, rest, q);
    ArgsMore(toks, pos, locals, args, c, locals, q, locals);
  }

  /** The round trip in one piece: a printed expression followed by the end
      of input parses back, as a whole expression, to the very tree. */
  lemma {:induction false} ParsePrinted(e: Node, locals: seq<Var>)
    requires Printable(e, locals)
    ensures Expr(Print(e) + [Token(TkEof, 0, "")], State(0, locals)) == Ok((e, State(|Print(e)|, locals)))
  {
    var toks := Print(e) + [Token(TkEof, 0, "")];
    AtPrefix(toks, 0, Print(e), [Token(TkEof, 0, "")]);
    ExprPrint(toks, 0, locals, e, 8, |Print(e)|);
    ExprLevel(toks, State(0, locals));
  }

  lemma {:induction false} AtPrefix(toks: seq<Token>, pos: nat, a: seq<Token>, b: seq<Token>)
    requires pos <= |toks| && toks[pos..] == a + b
    ensures At(toks, pos, a)
    decreases a
  {
    if |a| > 0 {
      assert toks[pos] == (a + b)[0];
      assert toks[pos + 1..] == a[1..] + b;
      AtPrefix(toks, pos + 1, a[1..], b);
    }
  }
}
