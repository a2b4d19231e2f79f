/** The records of ccc.h as immutable values.

    Tokens, types, AST nodes, symbol-table entries and top-level segments.
    Pointers between records become ordinary nested values; linked lists
    become sequences.
 */
module Ast {
  import opened Results

  /** Kinds of lexical token. The keyword kinds exist in the lexer's output but
      the parser only ever compares token text, never these kinds. */
  datatype TokenKind =
    | TkReserved | TkNum | TkIdent | TkEof
    | TkReturn | TkIf | TkFor | TkWhile

  /** One lexical token: its kind, its numeric value (for numbers) and its
      exact source text. The C `len` field is the length of `text`. */
  datatype Token = Token(kind: TokenKind, val: int, text: string)

  /** The tag of a type descriptor. */
  datatype Ty = TyInt | TyPtr

  /** A type descriptor: `int`, or a pointer whose target may be missing
      (the C `ptr_to` can be NULL when the recursive type parse finds nothing). */
  datatype Type = Int | Ptr(to: Option<Type>) {
    function Tag(): Ty {
      if Int? then TyInt else TyPtr
    }
  }

  /** The node kinds the parser creates. */
  datatype NodeKind =
    | NdAdd | NdSub | NdMul | NdDiv | NdNum
    | NdLt | NdGt | NdLte | NdGte | NdEq | NdNeq
    | NdAssign | NdLvar | NdReturn | NdIf | NdFor
    | NdBlock | NdFncall | NdAddr | NdDeref

  /** An AST node, one constructor per shape. Only the fields that the C code
      fills in for a kind are present. Expression nodes carry the `ty` field,
      which a statement or declarator may set on the root of an expression. */
  datatype Node =
    | Bin(op: NodeKind, lhs: Node, rhs: Node, ty: Option<Type>)
    | Num(val: int, ty: Option<Type>)
    | LVar(name: string, offset: int, ty: Option<Type>)
    | Call(name: string, args: seq<Node>, ty: Option<Type>)
    | Return(value: Option<Node>)
    | If(cond: Node, thenBranch: Node, elseBranch: Option<Node>)
    | For(init: Option<Node>, guard: Option<Node>, inc: Option<Node>, loopBody: Node)
    | Block(stmts: seq<Node>)
  {
    /** The C `kind` field of this node. */
    function Kind(): NodeKind {
      match this
      case Bin(op, _, _, _) => op
      case Num(_, _) => NdNum
      case LVar(_, _, _) => NdLvar
      case Call(_, _, _) => NdFncall
      case Return(_) => NdReturn
      case If(_, _, _) => NdIf
      case For(_, _, _, _) => NdFor
      case Block(_) => NdBlock
    }

    /** Nodes produced by the expression parser. */
    predicate IsExpr() {
      Bin? || Num? || LVar? || Call?
    }
  }

  /** Sets the type field of an expression node; every other field keeps
      its value. */
  function WithType(n: Node, t: Option<Type>): (r: Node)
    requires n.IsExpr()
    ensures r.IsExpr() && r.ty == t
    ensures r.(ty := n.ty) == n
  {
    n.(ty := t)
  }

  /** A local-variable entry of the symbol table: its name and stack offset. */
  datatype Var = Var(name: string, offset: int)

  /** What a top-level declaration produces: a function, with its (at most
      two) recorded parameters, argument counter, body and captured locals,
      or a variable declaration with its declarator node. */
  datatype Decl =
    | Function(name: string, ty: Option<Type>, params: seq<Node>, argc: nat, body: Node, locals: seq<Var>)
    | Global(ty: Option<Type>, body: Node)

  /** One entry of the program's segment list. */
  datatype Segment = Segment(contents: Option<Decl>)
}
