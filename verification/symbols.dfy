/** The symbol table of parser.c: `find_var` and `expect_ident`.

    The active local list is kept most-recent-first, as the C list is built by
    prepending. The C global list `globals` is declared but never assigned, so
    its lookup always misses; only the local list is searched here.
 */
module Symbols {
  import opened Results
  import opened Ast
  import opened Cursor

  /** Stack slot width: every local takes 8 bytes. */
  const SlotWidth: int := 8

  /** The shape every active local list has: the most recent entry sits at
      offset 8n for a list of n entries, its name occurs nowhere further
      down, and the rest of the list has the same shape; so the list reads
      8n, 8(n-1), ..., 8 and no name occurs twice (see LocalsShape). */
  ghost predicate LocalsWF(locals: seq<Var>)
    decreases |locals|
  {
    || |locals| == 0
    || (&& locals[0].offset == SlotWidth * |locals|
        && !Declared(locals[1..], locals[0].name)
        && LocalsWF(locals[1..]))
  }

  /** The shape read entry by entry: the entry at index i sits at offset
      8 * (n - i), and no two entries share a name. */
  lemma {:induction false} LocalsShape(locals: seq<Var>)
    requires LocalsWF(locals)
    ensures forall i :: 0 <= i < |locals| ==> locals[i].offset == SlotWidth * (|locals| - i)
    ensures forall i, j :: 0 <= i < j < |locals| ==> locals[i].name != locals[j].name
    decreases |locals|
  {
    if |locals| > 0 {
      var tl := locals[1..];
      LocalsShape(tl);
      forall j | 0 < j < |locals| ensures locals[0].name != locals[j].name {
        assert tl[j - 1] == locals[j];
      }
    }
  }

  /** Every entry of `l` is still in `l2`: nothing already in the list is
      changed or removed. */
  ghost predicate Extends(l2: seq<Var>, l: seq<Var>) {
    forall v :: v in l ==> v in l2
  }

  /** Whether some entry of `locals` has this name. */
  ghost predicate Declared(locals: seq<Var>, name: string) {
    exists i :: 0 <= i < |locals| && locals[i].name == name
  }

  /** `find_var`: the first (most recent) entry with this name, if any. */
  function FindVar(locals: seq<Var>, name: string): (r: Option<Var>)
    ensures r.None? <==> !Declared(locals, name)
    ensures r.Some? ==> r.value.name == name && r.value in locals
  {
    if |locals| == 0 then None
    else if locals[0].name == name then Some(locals[0])
    else FindVar(locals[1..], name)
  }

  /** The offset a new local receives: one slot past the most recent entry,
      or one slot if the list is empty. */
  function NextOffset(locals: seq<Var>): (r: int)
    ensures LocalsWF(locals) ==> r == SlotWidth * (|locals| + 1)
    ensures LocalsWF(locals) ==> forall v :: v in locals ==> 0 < v.offset < r
  {
    OffsetsBelow(locals);
    if |locals| == 0 then SlotWidth else locals[0].offset + SlotWidth
  }

  /** Every offset of a well-formed list lies strictly between 0 and one
      slot past the length. */
  lemma {:induction false} OffsetsBelow(locals: seq<Var>)
    ensures LocalsWF(locals) ==> forall v :: v in locals ==> 0 < v.offset < SlotWidth * (|locals| + 1)
  {
    if LocalsWF(locals) {
      LocalsShape(locals);
    }
  }

  /** `expect_ident`: the current token names a local. A name already in the
      list yields its existing offset and leaves the list alone; a new name is
      prepended at the next offset. The cursor moves on by one token. */
  function ExpectIdent(toks: seq<Token>, st: State): (r: Result<(Node, State)>)
    requires st.pos < |toks|
    ensures r.Ok? <==> st.pos + 1 < |toks|
    ensures r.Ok? ==> r.value.0.LVar? && r.value.0.name == toks[st.pos].text && r.value.0.ty == None
    ensures r.Ok? ==> r.value.1.pos == st.pos + 1
    ensures r.Ok? ==> Var(toks[st.pos].text, r.value.0.offset) in r.value.1.locals
    ensures r.Ok? && Declared(st.locals, toks[st.pos].text) ==>
              r.value.1.locals == st.locals
    ensures r.Ok? && !Declared(st.locals, toks[st.pos].text) ==>
              r.value.1.locals == [Var(toks[st.pos].text, NextOffset(st.locals))] + st.locals
    ensures r.Ok? && LocalsWF(st.locals) ==> LocalsWF(r.value.1.locals)
  {
    var name := toks[st.pos].text;
    match FindVar(st.locals, name)
    case Some(v) =>
      var s :- Next(toks, st);
      Ok((LVar(name, v.offset, None), s))
    case None =>
      var v := Var(name, NextOffset(st.locals));
      assert ([v] + st.locals)[1..] == st.locals;
      var s :- Next(toks, State(st.pos, [v] + st.locals));
      Ok((LVar(name, v.offset, None), s))
  }

  /** In a well-formed list the next offset is one slot past the length, every
      offset is a positive multiple of the slot width, and no two entries share
      an offset. */
  lemma {:induction false} LocalsOffsets(locals: seq<Var>)
    requires LocalsWF(locals)
    ensures NextOffset(locals) == SlotWidth * (|locals| + 1)
    ensures forall i :: 0 <= i < |locals| ==> locals[i].offset > 0 && locals[i].offset % SlotWidth == 0
    ensures forall i, j :: 0 <= i < j < |locals| ==> locals[i].offset != locals[j].offset
  {
    LocalsShape(locals);
  }

  /** Names are unique in a well-formed list, so the lookup finds exactly the
      entry carrying the name. */
  lemma {:induction false} FindVarUnique(locals: seq<Var>, v: Var)
    requires LocalsWF(locals) && v in locals
    ensures FindVar(locals, v.name) == Some(v)
    decreases |locals|
  {
    if locals[0] != v {
      var tl := locals[1..];
      assert v in tl;
      assert v.name != locals[0].name by {
        var k :| 0 <= k < |tl| && tl[k] == v;
        assert tl[k].name == v.name;
      }
      FindVarUnique(tl, v);
    }
  }

}
