/** Type parsing of parser.c: `gettk` and `gettype`.

    A type is only recognised where two identifier tokens follow each other
    (a type name and the declared name). A `*` identifier consumes itself and
    the rest is parsed again as the pointee; any other name must be `int`.
 */
module TypeParser {
  import opened Results
  import opened Ast
  import opened Cursor

  /** `gettk`: the tag of a base-type name; only "int" is known. */
  function GetTk(name: string, at: nat): (r: Result<Ty>)
    ensures r.Ok? <==> name == "int"
    ensures r.Ok? ==> r.value == TyInt
    ensures r.Fail? ==> r.error == UnknownType(at)
  {
    if name == "int" then Ok(TyInt) else Fail(UnknownType(at))
  }

  /** The token texts a type is written with: one `*` per pointer level, then
      `int`; a pointer with no target is the `*` alone. */
  function Spelling(t: Type): seq<string> {
    match t
    case Int => ["int"]
    case Ptr(None) => ["*"]
    case Ptr(Some(u)) => ["*"] + Spelling(u)
  }

  /** Types every level of which has a target. */
  predicate Complete(t: Type) {
    match t
    case Int => true
    case Ptr(None) => false
    case Ptr(Some(u)) => Complete(u)
  }

  /** Where `gettype` finds a type: the current and the next token are both
      identifiers. */
  predicate TypeAhead(toks: seq<Token>, pos: nat)
    requires pos < |toks|
  {
    toks[pos].kind == TkIdent && pos + 1 < |toks| && toks[pos + 1].kind == TkIdent
  }

  /** Every token from `from` up to `j` is a `*` with a type ahead. */
  predicate StarsUpTo(toks: seq<Token>, from: nat, j: nat)
    requires j < |toks|
  {
    forall k :: from <= k < j ==> TypeAhead(toks, k) && Equal(toks[k], "*")
  }

  /** The tokens from `pos` on are identifiers whose texts are `sp`. */
  ghost predicate SpelledAt(toks: seq<Token>, pos: nat, sp: seq<string>)
    decreases |sp|
  {
    if sp == [] then pos <= |toks|
    else pos < |toks| && toks[pos].kind == TkIdent && toks[pos].text == sp[0] && SpelledAt(toks, pos + 1, sp[1..])
  }

  /** A spelled type fits in the tokens and names them one by one. */
  lemma {:induction false} SpelledAtIndex(toks: seq<Token>, pos: nat, sp: seq<string>, j: nat)
    requires SpelledAt(toks, pos, sp) && j < |sp|
    ensures pos + |sp| <= |toks|
    ensures toks[pos + j].kind == TkIdent && toks[pos + j].text == sp[j]
    decreases |sp|
  {
    if |sp| > 1 {
      SpelledAtIndex(toks, pos + 1, sp[1..], if j == 0 then 0 else j - 1);
    }
  }

  /** `gettype`. Without a type ahead it returns nothing and leaves the cursor
      alone. Otherwise it either fails on an unknown base name or returns a
      type whose spelling is exactly the identifier tokens it consumed, and
      the cursor then sits on an identifier. `GetTypeIncomplete` says where
      a pointer with no target ends and `GetTypeFails` when the call fails. */
  function GetType(toks: seq<Token>, st: State): (r: Result<(Option<Type>, State)>)
    requires WellFormed(toks) && st.pos < |toks|
    ensures r.Ok? && r.value.0.None? <==> !TypeAhead(toks, st.pos)
    ensures r.Ok? && r.value.0.None? ==> r.value.1 == st
    ensures r.Fail? ==> r.error.UnknownType?
    ensures r.Ok? && r.value.0.Some? ==>
              var t := r.value.0.value;
              && r.value.1 == State(st.pos + |Spelling(t)|, st.locals)
              && r.value.1.pos < |toks|
              && toks[r.value.1.pos].kind == TkIdent
              && SpelledAt(toks, st.pos, Spelling(t))
    decreases |toks| - st.pos
  {
    var t := toks[st.pos];
    if t.kind != TkIdent || toks[st.pos + 1].kind != TkIdent then
      Ok((None, st))
    else if Equal(t, "*") then
      var p :- GetType(toks, State(st.pos + 1, st.locals));
      assert p.0.Some? ==> (["*"] + Spelling(p.0.value))[1..] == Spelling(p.0.value);
      Ok((Some(Ptr(p.0)), p.1))
    else
      var tag :- GetTk(t.text, st.pos);
      Ok((Some(Int), State(st.pos + 1, st.locals)))
  }

  /** A pointer with no target (`* x`) is read only where the recursion after
      its last `*` finds no type ahead, and the cursor stays there. */
  lemma {:induction false} GetTypeIncomplete(toks: seq<Token>, st: State)
    requires WellFormed(toks) && st.pos < |toks|
    ensures var r := GetType(toks, st);
            r.Ok? && r.value.0.Some? && !Complete(r.value.0.value) ==> !TypeAhead(toks, r.value.1.pos)
    decreases |toks| - st.pos
  {
    if TypeAhead(toks, st.pos) && Equal(toks[st.pos], "*") {
      GetTypeIncomplete(toks, State(st.pos + 1, st.locals));
    }
  }

  /** A type that `gettk` rejects lies ahead: `*`s, each with a type ahead,
      then a name other than `int` with a type ahead. */
  predicate BadType(toks: seq<Token>, pos: nat)
    requires pos < |toks|
    decreases |toks| - pos
  {
    && TypeAhead(toks, pos)
    && if Equal(toks[pos], "*") then BadType(toks, pos + 1) else toks[pos].text != "int"
  }

  /** `gettype` fails exactly when a rejected type lies ahead. */
  lemma {:induction false} GetTypeFailsAhead(toks: seq<Token>, st: State)
    requires WellFormed(toks) && st.pos < |toks|
    ensures GetType(toks, st).Fail? <==> BadType(toks, st.pos)
    decreases |toks| - st.pos
  {
    if TypeAhead(toks, st.pos) && Equal(toks[st.pos], "*") {
      GetTypeFailsAhead(toks, State(st.pos + 1, st.locals));
    }
  }

  /** A rejected type ahead has a position `j` where the `*`s end on the
      rejected name. */
  lemma {:induction false} BadTypeWitness(toks: seq<Token>, pos: nat) returns (j: nat)
    requires pos < |toks| && BadType(toks, pos)
    ensures pos <= j < |toks| && StarsUpTo(toks, pos, j) && TypeAhead(toks, j)
    ensures toks[j].text != "int" && !Equal(toks[j], "*")
    decreases |toks| - pos
  {
    if Equal(toks[pos], "*") {
      j := BadTypeWitness(toks, pos + 1);
    } else {
      j := pos;
    }
  }

  /** Conversely, `*`s up to a rejected name make a rejected type. */
  lemma {:induction false} WitnessBadType(toks: seq<Token>, pos: nat, j: nat)
    requires pos <= j < |toks| && StarsUpTo(toks, pos, j) && TypeAhead(toks, j)
    requires toks[j].text != "int" && !Equal(toks[j], "*")
    ensures BadType(toks, pos)
    decreases j - pos
  {
    if pos < j {
      assert TypeAhead(toks, pos) && Equal(toks[pos], "*");
      WitnessBadType(toks, pos + 1, j);
    }
  }

  /** `gettype` fails exactly when a run of `*`s, each with a type ahead,
      leads to a type name other than `int` (the name `gettk` rejects). */
  lemma {:induction false} GetTypeFails(toks: seq<Token>, st: State)
    requires WellFormed(toks) && st.pos < |toks|
    ensures GetType(toks, st).Fail? <==>
              exists j :: st.pos <= j < |toks| && StarsUpTo(toks, st.pos, j) && TypeAhead(toks, j)
                          && toks[j].text != "int" && !Equal(toks[j], "*")
  {
    GetTypeFailsAhead(toks, st);
    if BadType(toks, st.pos) {
      var j := BadTypeWitness(toks, st.pos);
    }
    forall j | st.pos <= j < |toks| && StarsUpTo(toks, st.pos, j) && TypeAhead(toks, j)
               && toks[j].text != "int" && !Equal(toks[j], "*")
      ensures BadType(toks, st.pos)
    {
      WitnessBadType(toks, st.pos, j);
    }
  }

  /** The inverse direction: the spelling of a complete type, written as
      identifier tokens and followed by an identifier, is parsed back to that
      very type, consuming exactly the spelling. */
  lemma {:induction false} SpellingRoundTrip(toks: seq<Token>, st: State, t: Type)
    requires WellFormed(toks) && Complete(t)
    requires SpelledAt(toks, st.pos, Spelling(t))
    requires st.pos + |Spelling(t)| < |toks| && toks[st.pos + |Spelling(t)|].kind == TkIdent
    ensures GetType(toks, st) == Ok((Some(t), State(st.pos + |Spelling(t)|, st.locals)))
    decreases t
  {
    assert toks[st.pos].text == Spelling(t)[0];
    match t
    case Int =>
    case Ptr(Some(u)) =>
      assert Spelling(t)[1..] == Spelling(u);
      SpellingRoundTrip(toks, State(st.pos + 1, st.locals), u);
  }
}
