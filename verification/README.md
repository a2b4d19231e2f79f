# A verified model of the ccc parser

This project models the recursive-descent parser of the small C compiler
ccc (`parser.c`, with the records of `ccc.h`). The parser turns a token
list into a list of segments, one per top-level declaration: a function
definition or a variable declaration.

Every C routine that advances the `Token **` cursor becomes a pure function.
It takes the token list and a state (cursor index, active local-variable
list) and returns `Ok((value, state))` or `Fail(error)`. The C code calls
`error`/`error_at` and terminates instead of returning such an error.

The modules follow the source:

- `Results`: the `Option`/`Result` wrappers and the error kinds.
- `Ast`: the records of `ccc.h`.
- `Cursor`: `next`, `expect`, `expect_number`, `equal`, `at_eof`.
- `Symbols`: `find_var`, `expect_ident` and the local-variable list.
- `TypeParser`: `gettk`, `gettype`.
- `Parser`: the mutually recursive expression and statement functions.
- `TopLevel`: `function_def`, `declaration`, `program`, `parse`.
- `Render`: a printer for expression trees and the proof that the
  expression parser reads every printed tree back to that very tree.
- `Examples`: the source's notable behaviours stated on concrete token
  lists:
  - right-nested subtraction;
  - a product that binds tighter than a sum;
  - comparisons that do not chain;
  - `+` that does not nest;
  - definitions that need a return type;
  - top-level variables that leak into the next function;
  - the parameter limit.

The properties proved are:

- **Local-variable invariant.** The active list always reads offsets
  8n, ..., 8 with distinct names. Every step of `Parser` preserves this and
  never drops or changes an entry (`Parser.Step`); `function_def` alone
  empties the list once the function has captured it.
- **Type round trip.** The spelling of a complete type (one whose every
  pointer has a target) parses back to the same type
  (`TypeParser.SpellingRoundTrip`). A pointer with no target is spelled `*`
  alone, so it is excluded: `*` followed by `int y` parses as a pointer to
  `int`. Such a pointer is read only where no type is ahead after the `*`
  (`TypeParser.GetTypeIncomplete`),
  and `gettype` fails exactly on a run of `*`s that ends on a name other
  than `int` (`TypeParser.GetTypeFails`).
- **Lookup.** The lookup of a name finds exactly its entry.
- **Expression round trip.** Every fully parenthesised expression tree,
  printed as tokens, parses back to the same tree (`Render.ParsePrinted`).
- **Segments.** `parse` succeeds exactly on the inputs that `program` can
  read declaration by declaration from the first token up to the end token.
  It then holds those declarations, in order, one segment each
  (`TopLevel.ParseTrace`, `TopLevel.ParseReadsDecls`), and every function's
  captured locals keep the invariant.
- **Parameters.** A function records its first and its last parameter, in
  that order, named by the first and the last parameter's identifier
  (`TopLevel.FunctionDef`, `Examples.FirstAndLastParams`).

### The parameter limit

The argument counter starts at 6 (`parser.c:438`) and is incremented for
the first parameter (`parser.c:456`). A comma is rejected once `++argc`
exceeds 128 (`parser.c:459`). So the 122nd comma fails, and a function takes
at most 122 parameters, not 128 (`Examples.ParameterLimit`).

## Model

| member | source | states |
|---|---|---|
| Ast.WithType | parser.c:326 | setting the type of an expression node keeps it an expression node, gives it exactly that type and leaves every other field as it was |
| Cursor.Next | parser.c:40-47 | moving on succeeds exactly when a token follows, and then advances the cursor by one, keeping the locals |
| Cursor.Equal | parser.c:78-84 | a token equals a text exactly when its text is that text: the length test adds nothing and the token kind plays no part |
| Cursor.Lookahead | parser.c:186 | the token after the cursor is available exactly when one exists, and is that token |
| Cursor.Expect | parser.c:51-62 | succeeds iff the current token is a reserved symbol with exactly the expected text; then advances by one token (still inside the list), else reports the expected symbol at the current position |
| Cursor.ExpectNumber | parser.c:64-76 | succeeds iff the current token is a number, returning its value and advancing by one; otherwise reports "not a number" at the current position |
| Symbols.FindVar | parser.c:111-125 | finds nothing iff no entry has the name; a found entry has the name and is in the list |
| Symbols.NextOffset | parser.c:164-169 | in a well-formed list a new local goes one slot (8) past the newest entry, that is at 8 times (length + 1), above every offset in use |
| Symbols.FindVarUnique | parser.c:111-116 | in a well-formed list the lookup of any entry's name returns exactly that entry |
| Symbols.LocalsShape | parser.c:161-172 | a list built by prepending each new local one slot past the newest holds the entry at index i at offset 8 times (length - i), and no two of its entries share a name |
| Symbols.OffsetsBelow | parser.c:164-169 | in such a list every offset is positive and below 8 times (length + 1), the offset the next new local gets |
| Symbols.LocalsOffsets | parser.c:161-169 | in a well-formed list the next offset is 8 times (length + 1), and all offsets are positive, multiples of 8 and pairwise distinct |
| Symbols.ExpectIdent | parser.c:148-175 | yields a variable node named by the token, whose entry is in the resulting list; a known name leaves the list unchanged, a new name is prepended at the next offset; the list invariant is preserved |
| TypeParser.GetTk | parser.c:12-18 | only `int` is a known type name; any other name is an unknown-type error |
| TypeParser.GetType | parser.c:20-38 | no type is read (cursor unchanged) exactly when the current and next tokens are not both identifiers; a type read consumes exactly its spelling and leaves the cursor on an identifier; the only error is an unknown type |
| TypeParser.GetTypeIncomplete | parser.c:20-38 | a pointer with no target (`* x ;`) is returned only where no type is ahead after its `*`s, and the cursor stops there |
| TypeParser.GetTypeFailsAhead | parser.c:12-38 | `gettype` fails exactly when a rejected type lies ahead: `*`s, each with a type ahead, ending on a name other than `int` that has a type ahead |
| TypeParser.GetTypeFails | parser.c:12-38 | the same in index form: the call fails iff some position `j` has a type ahead and a name other than `int` or `*`, and every token from the start to `j` is a `*` with a type ahead |
| TypeParser.SpellingRoundTrip | parser.c:20-38 | the spelling of any complete type, followed by an identifier, is parsed back to that type, consuming exactly the spelling |
| Parser.OpAt | parser.c:246-265 | the chain of `equal` tests yields nothing iff no table entry matches the token, else the kind of a matching entry |
| Parser.Funcall | parser.c:127-146 | a call node named by the first token, with `(` after the name; no arguments exactly when `)` follows the `(` at once (then the call ends just after it), otherwise the arguments and locals are those the argument loop reads after the `(`, and the call ends one token after them; progress and the locals invariant |
| Parser.Args | parser.c:135-142 | a non-empty list of expression nodes; progress and the locals invariant |
| Parser.ArgsParts | parser.c:135-142 | the first argument is the assignment read first; there is one argument exactly when no comma follows it (and the loop ends there), otherwise the rest are the arguments read after that comma, ending where they end |
| Parser.Primary | parser.c:177-193 | a successful parse consumes at least one token, yields an expression node and keeps the locals invariant |
| Parser.Unary | parser.c:195-217 | as for `primary`; the tree of each prefix form is stated by `Render.UnaryPlus`, `Render.UnaryMinus` and `Render.UnaryPrefix` |
| Parser.Mul | parser.c:219-230 | as for `primary` |
| Parser.Add | parser.c:232-244 | as for `primary` |
| Parser.Relational | parser.c:246-265 | as for `primary` |
| Parser.Equality | parser.c:267-279 | as for `primary` |
| Parser.Assign | parser.c:281-290 | as for `primary` |
| Parser.Expr | parser.c:292-294 | as for `primary` |
| Parser.OptExpr | parser.c:403-410 | the optional expression is absent iff the current token is the separator, and then nothing is consumed; when present it is the expression read there, with its end state |
| Parser.ForInit | parser.c:398-401 | the initialiser is absent iff the header starts with `;`, and then nothing is consumed; when present it is what `init_declarator` reads there, with its end state |
| Parser.InitDeclarator | parser.c:310-328 | an expression node, progress and the locals invariant; when the token after the cursor is no identifier no type is read and the node has no type, otherwise the node carries the type `gettype` reads; after the type the node is the assignment read there when `=` comes next, else the variable named there, with only its type field replaced, and the state is the one that read leaves |
| Parser.Stmt | parser.c:337-422 | a successful statement parse consumes at least one token and keeps the locals invariant |
| Parser.StmtLeadingType | parser.c:337-422 | `stmt` reads a type first: a type error is the statement's error, and when no statement keyword follows, the statement is the expression statement with the type read |
| Parser.StmtDispatch | parser.c:337-388 | after the leading type, `return` gives the return statement read there, `{` the block read after it (an error when `{` is the last token), and `if`, `while` and `for` the statement of that form read there |
| Parser.ExprStmt | parser.c:418-421 | the expression statement is the expression read, with its type field set to the leading type and nothing else changed, and ends on `;`; an expression error is passed on, and a missing `;` is reported where it was expected |
| Parser.ReturnStmt | parser.c:341-352 | a return node ending at `;`, with no value exactly when `;` directly follows `return` (then the node ends one token later, locals unchanged); otherwise the value is the expression read after `return`, and the statement ends one token after it with its locals |
| Parser.IfStmt | parser.c:359-376 | an `if` node whose condition is the expression read after `(`; with no else branch the token after the statement is not `else` |
| Parser.IfStmtBranches | parser.c:359-376 | the branches of an `if` node are those read after the `)` that closes the condition, and the statement ends where they end |
| Parser.IfTail | parser.c:368-373 | the else branch is present exactly when `else` follows the then statement; without it the statement ends after the then statement |
| Parser.IfTailStatements | parser.c:368-373 | the then branch is the statement read first, and the else branch the statement read after the `else` that follows it |
| Parser.WhileStmt | parser.c:378-390 | a `for` node with no initialiser and no increment; `(` follows `while`, the condition is the expression read after it, `)` follows that expression, and the body and end state are the statement read after the `)` |
| Parser.ForStmt | parser.c:392-416 | a `for` node whose initialiser is absent exactly when `;` follows the `(` |
| Parser.ForStmtIsLoop | parser.c:392-394 | after `for (` the statement is the loop read from there |
| Parser.ForStmtHeader | parser.c:392-416 | the `for` node's initialiser, condition and increment are the header's; the condition is absent exactly when `;` comes where it would start, and the increment exactly when `)` does; the body and end state are the statement read after the header |
| Parser.ForLoop | parser.c:398-415 | a `for` node after the `(`, with the initialiser absent exactly when the header starts with `;` |
| Parser.ForLoopHeader | parser.c:398-415 | the loop node carries the header's three parts, each absent exactly when its separator comes where it would start, and its body and end state are the statement read after the header |
| Parser.ForClauses | parser.c:398-412 | the header consumes at least its three separators; the initialiser is absent iff it starts with `;`, the condition iff the next `;` comes at once after the first, and the increment iff `)` comes at once after the second `;`; the initialiser is what the initialiser parse reads, `;` follows it, and the condition and increment are the rest of the header read after that `;`, with its end state |
| Parser.ForTail | parser.c:403-412 | the condition is absent iff `;` comes at once, and the increment iff `)` comes at once after that `;`; the header ends with `)`; the condition is the part read up to the `;`, and the increment and end state the part read from there up to `)` |
| Parser.ForPart | parser.c:403-410 | an optional part is absent exactly when its separator comes at once (then only the separator is consumed); otherwise it is the expression read there, and the separator follows it and is consumed |
| Parser.Stmts | parser.c:301-303 | the loop stops at `}`; a `}` at the start gives no statement and consumes nothing, and no statement is read exactly when nothing is consumed |
| Parser.StmtsCons | parser.c:301-303 | before a token other than `}` the loop reads one statement and then the rest |
| Parser.CompoundStmt | parser.c:297-308 | a block ending with `}`, empty exactly when `}` comes at once; its statements are those the statement loop reads, and the block ends one token after them with their locals |
| TopLevel.Kept | parser.c:451-470 | the recorded parameters are the first and the last of those parsed (all of them if fewer than two) |
| TopLevel.Param | parser.c:444-450 | a parameter without a type is rejected at its position; a parsed parameter is a typed local of the resulting list, named by the identifier just read |
| TopLevel.MoreParams | parser.c:458-471 | the loop stops at a token that is no comma; it reads no parameter exactly when no comma comes first, and then consumes nothing; the counter grows by one per parameter and stays within 128; a comma when the counter is full is rejected; the last parameter read is named by the identifier before the stop |
| TopLevel.CommaTurn | parser.c:462-470 | the turn after a comma reads at least one parameter and consumes at least one token, stops at a token that is no comma, counts one per parameter beyond the bump already made, keeps each parameter a typed local, and its last parameter is named by the identifier before the stop |
| TopLevel.CommaStep | parser.c:458-470 | one turn of the comma loop puts the parameter after the comma in front of the rest |
| TopLevel.Params | parser.c:443-471 | a non-empty list whose first parameter is the one read first and whose last is named by the identifier before the stop; the counter is 6 plus the number of parameters and at most 128; each parameter is a typed local |
| TopLevel.ParamsOfParts | parser.c:443-471 | the first parameter followed by the comma loop is the parameter list |
| TopLevel.ParamClause | parser.c:441-473 | the parenthesised list, which ends just after a reserved `)`: empty exactly when `)` follows `(` at once; otherwise the first parameter is the one read after `(` and the last is named by the identifier just before the closing `)`; counter 6 plus the parameter count, at most 128, each parameter a typed local |
| TopLevel.FunctionBody | parser.c:474-477 | a body that does not start with a reserved `{` is rejected there; otherwise the body is the block `compound_stmt` reads after the `{`, with its end state |
| TopLevel.FunctionDef | parser.c:425-481 | a non-identifier name is rejected; the function keeps its name and return type, captures a superset of the active locals (keeping the invariant), resets the active list, counts 6 to 128, and records the first and the last parameter of the clause, in that order (with `Kept` and `ParamClause`): the first is named by the identifier of the first parameter and the last by the identifier just before the `)` that closes the list; the body, the captured locals and the end position are those of the body read after the clause |
| TopLevel.Declaration | parser.c:486-502 | a function exactly when the token two places on is `(`; a function resets the locals, a variable declaration keeps them; a type error is the declaration's error, and otherwise the declaration is the function definition or the variable declaration read after the type, with that type |
| TopLevel.GlobalDecl | parser.c:497-501 | a variable declaration with the given type and an expression body, ending at `;`; the body is what `init_declarator` reads, and `;` follows it |
| TopLevel.Program | parser.c:505 | one declaration; the locals invariant holds for the active and the captured list |
| TopLevel.Segments | parser.c:514-520 | one non-empty segment per declaration, each function's locals well-formed |
| TopLevel.TraceSegments | parser.c:514-520 | a run of the loop that reads declarations one after another up to the end token makes the loop succeed with one segment per declaration, in order |
| TopLevel.SegmentsTrace | parser.c:514-520 | a successful loop is such a run: its segments are the declarations `program` reads, in order, the last one ending at the end token |
| TopLevel.TraceCons | parser.c:514-520 | a declaration `program` reads in front of a run of the loop extends that run by one step |
| TopLevel.Parse | parser.c:507-521 | an input that is only the end token gives one empty segment; otherwise every segment holds a declaration, and every function's captured locals read 8n, ..., 8 with distinct names |
| TopLevel.ParseReadsDecls | parser.c:507-521 | an input that `program` reads declaration by declaration from the first token up to the end token parses, into those declarations in order (one empty segment if there are none) |
| TopLevel.ParseTrace | parser.c:507-521 | every successful parse of an input that does not start at the end token holds exactly the declarations `program` reads in turn, in order, up to the end token |
| Render.ParsePrinted | parser.c:292-294 | the full round trip: any printable expression tree, printed and followed by the end token, parses back to the same tree, consuming exactly its tokens |
| Render.ExprPrint | parser.c:195-294 | every level from `unary` to `expr` reads a printed tree back when a token that ends an expression follows |
| Render.AssignPrint | parser.c:281-290 | `assign` reads a printed tree back |
| Render.UnaryPrint | parser.c:195-217 | `unary` reads a printed tree back, since printed trees never start with a unary operator |
| Render.PrimaryPrint | parser.c:177-193 | `primary` reads any printed tree back when no `(` follows |
| Render.LeafPrint | parser.c:185-192 | a number or variable token is read back as its node |
| Render.CallPrint | parser.c:185-188 | an identifier followed by `(` is read back as the printed call |
| Render.CallArgsPrint | parser.c:127-146 | `funcall` reads back a printed call with arguments |
| Render.CallArgsClose | parser.c:133-145 | name, `(`, printed arguments and `)` give the call |
| Render.ArgsPrint | parser.c:135-142 | the argument loop reads printed arguments back up to `)` |
| Render.MoreArgsPrint | parser.c:138-141 | two or more printed arguments: the first, a comma, and the rest |
| Render.MoreArgsClose | parser.c:138-141 | a printed argument, a comma and the printed rest are read as one list |
| Render.PrefixPrint | parser.c:206-214 | a parenthesised `*` or `&` node is read back with its `0` right child |
| Render.InfixPrint | parser.c:178-183 | a parenthesised binary node is read back by `primary` |
| Render.InfixNodePrint | parser.c:178-183 | the node inside the parentheses is read at its operator's level and lifted to `expr`, which the `)` ends |
| Render.InfixLevel | parser.c:219-290 | the operator's own level reads the whole binary node (left operand one level tighter, right operand at the level the C function recurses into) |
| Render.LeftOperand | parser.c:219-290 | the left operand of a binary node is read back at the level just below the operator's |
| Render.InfixStep | parser.c:219-290 | one binary step at a level: left operand, operator found at that level, right operand, giving the binary node; each operand may add locals, and the step ends with the right operand's |
| Render.Lift | parser.c:246-290 | a level whose operator does not follow returns the tighter level's result unchanged, up through any number of levels |
| Render.StopLift | parser.c:219-294 | a token that ends an expression lets a result pass every looser level unchanged |
| Render.OpFound | parser.c:219-290 | each operator's text is recognised at its own level as its own node kind |
| Render.OpNotTighter | parser.c:219-290 | an operator's text is not recognised at any tighter level |
| Render.UnaryOfPrimary | parser.c:195-217 | `unary` is `primary` on a token that is `(` or a word |
| Render.FreshName | parser.c:148-175 | an unknown name read as an expression becomes a new local one slot past the newest |
| Render.UnaryPrefix | parser.c:206-214 | `*` and `&` become a node with the unary operand and a `0` right child, ending with the operand's state, whatever locals it adds |
| Render.UnaryMinus | parser.c:201-204 | `-` followed by a primary is the node `0 - primary`; a primary error is passed on |
| Render.UnaryPlus | parser.c:196-199 | `+` is dropped: the result is the primary that follows it |
| Render.PrimaryParen | parser.c:178-183 | a parenthesised expression is the inner node itself, with the locals the inner expression leaves |
| Render.PrimaryCall | parser.c:185-188 | an identifier followed by `(` is a call |
| Render.FuncallNoArgs | parser.c:128-146 | name `(` `)` is a call without arguments |
| Render.FuncallArgs | parser.c:128-146 | name `(` arguments `)` is a call with those arguments, with the locals the arguments leave |
| Render.ArgsLast | parser.c:135-142 | an argument followed by `)` ends the list, with the locals the argument leaves |
| Render.ArgsMore | parser.c:138-141 | an argument followed by a comma is followed by the rest of the list; each part may add locals |
| Examples.SubtractionGroupsRight | parser.c:232-244 | `1-2-3` is read as `1-(2-3)`, because `add` takes its right operand from `add` |
| Examples.OuterSubtraction | parser.c:238-241 | the outer `-` at the additive level, its right operand read by `add` |
| Examples.InnerSubtraction | parser.c:238-241 | the inner `-` at the additive level |
| Examples.SubtractionOperands | parser.c:219-244 | the numbers and minus signs of `1-2-3` as the additive level sees them |
| Examples.ProductBindsTighter | parser.c:219-244 | `1+2*3` is read as `1+(2*3)`, because `add` reads its operands with `mul` |
| Examples.ProductOperand | parser.c:219-230 | the right operand of `+` in `1+2*3` is the whole product `2*3`, read at the multiplicative level |
| Examples.RightNested | parser.c:281-294 | an additive expression ending at the end of input is the whole expression |
| Examples.ComparisonsDoNotChain | parser.c:246-265 | `a < b < c` as an expression stops after `a < b`, since `relational` takes its right operand from `add` and does not loop |
| Examples.ChainPrefix | parser.c:246-265 | `x < y <` is read as `x < y` for any locals that know both names |
| Examples.LessStep | parser.c:257-259 | `<` at the relational level with both operands from `add` |
| Examples.ComparisonStops | parser.c:267-294 | no looser level takes `<`, so the comparison is the whole expression |
| Examples.LessIsRelational | parser.c:257 | the text `<` is the relational operator `<` |
| Examples.LessNotLooser | parser.c:267-290 | the text `<` is no operator of equality or assignment |
| Examples.ChainedComparisonRejected | parser.c:418-421 | the statement `a < b < c ;` fails where it expects `;` |
| Examples.UnaryDoesNotNest | parser.c:195-199 | `+ - 1` fails on the `-`, which is no number, because `+` takes a primary |
| Examples.DeclStmt | parser.c:337-339 | `int x ;` as a statement is the variable node of a new local `x` carrying the type `int` |
| Examples.BlockDeclarations | parser.c:297-308 | `{ int a ; int b ; }` declares `a` at 8 and `b` at 16, both of type `int`, newest first in the locals |
| Examples.FunctionNeedsReturnType | parser.c:486-495 | `f ( ) { }` is read as a variable declaration and fails on the missing `;`, while `int f ( ) { }` is a function |
| Examples.UntypedDeclaration | parser.c:486-498 | the untyped definition fails as a declaration |
| Examples.TypedDeclaration | parser.c:486-495 | the typed definition is a function with no parameters, counter 6 and an empty body |
| Examples.EmptyFunction | parser.c:425-481 | `f ( ) { }` captures exactly the active locals and leaves the active list empty |
| Examples.GlobalBecomesLocal | parser.c:477-479 | in `int x ; int f ( ) { }` the variable `x` stays active and is captured as a local of `f` |
| Examples.GlobalX | parser.c:497-501 | `int x ;` makes `x` the local at offset 8 |
| Examples.TopVariable | parser.c:486-501 | a first top-level `int x ;` is a variable declaration that leaves `x` active |
| Examples.FirstLocal | parser.c:311-328 | a fresh name read by `init_declarator` becomes the local at offset 8 |
| Examples.LeakedFunction | parser.c:478-479 | the function after `int x ;` captures `x` and resets the active list |
| Examples.FirstParam | parser.c:444-456 | the first parameter `int a` becomes the local at offset 8 |
| Examples.FreshParam | parser.c:444-456 | a typed parameter with a new name becomes the local one slot past the newest |
| Examples.KnownParam | parser.c:463-470 | a later `int a` reuses the known local |
| Examples.LastComma | parser.c:458-470 | in `( int a , int b , int c )` the comma loop after `b` reads `c` at 24 and ends with the counter at 9 |
| Examples.CommasAfterFirst | parser.c:458-470 | in `( int a , int b , int c )` the comma loop after `a` reads `b` at 16 and `c` at 24 and ends with the counter at 9 |
| Examples.ThreeParamList | parser.c:443-471 | `int a , int b , int c` is the list `a`, `b`, `c` at 8, 16, 24, counter 9 |
| Examples.ClauseParsed | parser.c:441-474 | a non-empty list between `(` and `)` is a parameter clause |
| Examples.ClauseList | parser.c:443-471 | a non-empty clause holds the list read after `(` |
| Examples.ClauseEnd | parser.c:472-474 | a non-empty clause ends one token after its list |
| Examples.ThreeParamClause | parser.c:441-474 | `( int a , int b , int c )` holds all three parameters and the counter 9 |
| Examples.ThreeParamFunction | parser.c:425-481 | `f ( int a , int b , int c ) { }` records `a` at 8 and `c` at 24 only, counts 9, and captures `c`, `b`, `a` |
| Examples.ThreeParamDecl | parser.c:486-495 | `int f ( int a , int b , int c ) { }` is a function declaration with those parameters |
| Examples.FirstAndLastParams | parser.c:451-470 | parsing `int f ( int a , int b , int c ) { }` gives one function that keeps only `a` at 8 and `c` at 24 |
| Examples.CommaKept | parser.c:458-471 | one turn of the comma loop with room in the counter keeps the parameter in front |
| Examples.CommaFails | parser.c:458-471 | one turn of the comma loop passes on a later failure |
| Examples.CommaEnd | parser.c:458 | the comma loop stops at `)` |
| Examples.CommaFull | parser.c:459-461 | a comma once the counter is 128 is rejected where it stands |
| Examples.CommaLoopKept | parser.c:458-471 | `n` copies of `, int a` within the counter's room are all kept, the counter ending at its start plus `n` |
| Examples.CommaLoopRejected | parser.c:458-471 | when the copies would take the counter past 128 the loop fails at the comma that does so |
| Examples.ParameterLimit | parser.c:438-461 | `int a` plus `n` copies of `, int a` is accepted iff there are at most 122 parameters, and is otherwise rejected at the 122nd comma |

## Left out

- Diagnostics: the messages printed by `error`, `error_at` and the `fprintf` calls are not modelled. Each error becomes an error kind and a token index.
- Memory: `calloc` and its failure are not modelled. Nodes are values.
- Tokenizer and code generator: `tokenize`, `codegen`, `strtk`, `strndk` and the `input`/`linenum` fields of `Program` are outside the parser.
- `globals`: declared but never assigned, so its lookup in `find_var` always misses. Only the active local list is searched.
- Reading past the end: `next` on the last token makes the cursor NULL, and the next read dereferences it. The model fails at that step with `PastEnd` instead.
- TypeParser.GetTk: compares the whole token text with `int`. The C calls `strcmp` on `tok->str` (`parser.c:13`, `parser.c:33`), while `equal` and `find_var` compare only `len` bytes (`parser.c:79`, `parser.c:113`). The two agree only if the token's text ends where the token ends. The tokenizer is not part of this model, so the model takes that as given.
- Token comparison: the C compares token text with `strlen`/`memcmp` against C strings. The model compares text sequences, so there are no NUL terminators and no encodings.
- Integer width: the `int` token value and the `size_t` argument counter are unbounded here. The counter never passes 128, and token values are copied unchanged.
- `ND_WHILE` and `ND_FN` exist in `ccc.h` but the parser never creates them, so they are not node kinds here.
- Node fields: node fields the parser does not set for a kind (for instance `str` on operator nodes) are not represented. The `next`/`nextp` link lists are sequences.
- Uninitialised values: the uninitialised `ty` in `init_declarator` (no type parsed) is modelled as no type.
- Parser.Stmt: states progress and the locals invariant only. Which form it reads is stated by `Parser.StmtLeadingType` (the type error and the expression statement) and `Parser.StmtDispatch` (the keyword forms).
- Parser.IfStmt: its own contract states the else branch's absence one way only. Both directions are stated by `Parser.IfTail`, which `Parser.IfStmtBranches` ties to the node.
- Parser.ForStmt: its own contract states only the initialiser. The condition, the increment and the body are stated by `Parser.ForStmtHeader`.
- Parser.ForLoop: its own contract states only the initialiser. The condition, the increment and the body are stated by `Parser.ForLoopHeader`.
- Parser.Args: its own contract states a non-empty list of expressions. Which assignments it reads is stated by `Parser.ArgsParts`.
- Parser.Primary: states progress, an expression result and the locals invariant. The exact tree is given by the round trip lemmas of `Render` for printed input, not for every input.
- Parser.Unary: states progress, an expression result and the locals invariant, as for `primary`. The tree of each prefix form is stated by `Render.UnaryPlus`, `Render.UnaryMinus` and `Render.UnaryPrefix` (for `+` and `-` on every input; for `*` and `&` from the operand's result, whatever locals it adds), and `Render.UnaryOfPrimary` states that a token `(` or a word leads straight to `primary`.
- Parser.Mul: states progress, an expression result and the locals invariant, as for `primary`. Its tree is stated by the round trip lemmas of `Render` for printed input.
- Parser.Add: states progress, an expression result and the locals invariant, as for `primary`. Its tree is stated by the round trip lemmas of `Render` for printed input.
- Parser.Relational: states progress, an expression result and the locals invariant, as for `primary`. Its tree is stated by the round trip lemmas of `Render` for printed input.
- Parser.Equality: states progress, an expression result and the locals invariant, as for `primary`. Its tree is stated by the round trip lemmas of `Render` for printed input.
- Parser.Assign: states progress, an expression result and the locals invariant, as for `primary`. Its tree is stated by the round trip lemmas of `Render` for printed input.
- Parser.Expr: states progress, an expression result and the locals invariant, as for `primary`. Its tree is stated by the round trip lemmas of `Render` for printed input.
- Render.ParsePrinted: covers fully parenthesised trees without type annotations, with natural literals and variables already in the active list. Trees whose printed form would need the parser's precedence without parentheses are not covered.
