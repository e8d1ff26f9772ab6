/**
 * What the statement routines of frontend/parser.ts:103-234 compute.
 * `StmtTokens` writes a statement back as tokens, as `Flatten` does for
 * expressions; `WellFormed` says which statements the parser builds. Every
 * well-formed statement is read back by `program()` from its tokens
 * (`StmtRoundTrip`), a block by `bodyStmt()` and a whole program by
 * `parse()`, so the tokens of a program determine it.
 */
module StatementProperties {
  import opened Wrappers
  import opened Tokens
  import opened Helper
  import opened Parsing
  import opened ParserProperties

  /** The tokens of an optional `: T`; none for the implicit type. */
  function AnnotationTokens(t: TypeAnn): seq<Token> {
    if t == ImplicitType then [] else [OperatorToken(Colon)] + TypeTokens(t)
  }

  /** The tokens of an optional `= e`; none for the `UndefinedExpr`
      placeholder. */
  function InitializerTokens(x: Expr): seq<Token> {
    if x == UndefinedExpr then [] else [OperatorToken(Equals)] + Flatten(x)
  }

  /** The tokens that spell a statement, keywords and punctuation by their
      usual spelling. A function's body is spelled as the block it is. */
  function StmtTokens(s: Stmt): seq<Token> {
    match s
    case CompoundStmt(body) => [OperatorToken(Lcb)] + (BlockTokens(body) + [OperatorToken(Rcb)])
    case VariableStmt(name, value, isConst, t) =>
      [OperatorToken(if isConst then KConst else KLet)]
      + ([Token(Identifier, Some(name))] + (AnnotationTokens(t) + (InitializerTokens(value) + [OperatorToken(Semi)])))
    case EmptyStmt => [OperatorToken(Semi)]
    case ReturnStmt(x) => [OperatorToken(KReturn)] + (Flatten(x) + [OperatorToken(Semi)])
    case ExprStmt(x) => Flatten(x) + [OperatorToken(Semi)]
    case FunctionStmt(name, ps, t, body) =>
      [OperatorToken(KDef)]
      + ([Token(Identifier, Some(name))]
         + ([OperatorToken(LParen)]
            + ((ParamTokens(ps) + [OperatorToken(RParen)]) + (AnnotationTokens(t) + StmtTokens(body)))))
  }

  /** The tokens of a statement list: each statement's, one after the other. */
  function BlockTokens(ss: seq<Stmt>): seq<Token> {
    if ss == [] then [] else StmtTokens(ss[0]) + BlockTokens(ss[1..])
  }

  /** An annotation `Type()` can build, or none. */
  predicate IsAnnotation(t: TypeAnn) {
    t == ImplicitType || IsWrittenType(t)
  }

  /**
   * The statements `program()` builds: expressions are canonical trees, a
   * declaration's initialiser is one or the placeholder, annotations are
   * written ones or implicit, and a function's body is a block.
   */
  predicate WellFormed(s: Stmt) {
    match s
    case CompoundStmt(body) => AllWellFormed(body)
    case VariableStmt(_, value, _, t) => IsAnnotation(t) && (value == UndefinedExpr || Canonical(value, Lowest))
    case EmptyStmt => true
    case ReturnStmt(x) => Canonical(x, Lowest)
    case ExprStmt(x) => Canonical(x, Lowest)
    case FunctionStmt(_, ps, t, body) => AllWritten(ps) && IsAnnotation(t) && body.CompoundStmt? && WellFormed(body)
  }

  predicate AllWellFormed(ss: seq<Stmt>) {
    ss == [] || (WellFormed(ss[0]) && AllWellFormed(ss[1..]))
  }

  // ---------------------------------------------------------------------
  // First tokens.
  // ---------------------------------------------------------------------

  /** A canonical tree is spelled starting with a number, an identifier or
      `(`, the tokens `nud` accepts. */
  lemma {:induction false} FlattenStart(e: Expr, bp: nat)
    requires Canonical(e, bp)
    ensures Flatten(e) != [] && Flatten(e)[0].kind in {Number, Identifier, LParen}
  {
    if e.BinaryExpr? {
      FlattenStart(e.left, bp);
      assert Flatten(e) == Flatten(e.left) + ([OperatorToken(e.op)] + Flatten(e.right));
    }
  }

  /** A statement's tokens are never empty and start with neither `}` nor
      EOF, so neither `bodyStmt()` nor `parse()` stops in front of it. */
  lemma StmtStart(s: Stmt)
    requires WellFormed(s)
    ensures StmtTokens(s) != [] && StmtTokens(s)[0].kind != Rcb && StmtTokens(s)[0].kind != Eof
  {
    if s.ExprStmt? {
      FlattenStart(s.expression, Lowest);
    }
  }

  /** The first token of a sequence found at `i`, and the rest after it. */
  lemma SpellsCons(ts: seq<Token>, i: nat, x: Token, rest: seq<Token>)
    requires Spells(ts, i, [x] + rest)
    ensures i < |ts| && ts[i] == x && Spells(ts, i + 1, rest)
  {
    assert ([x] + rest)[1..] == rest;
  }

  /** A sequence with its first element split off, after `acc`. */
  lemma ConsJoin<T>(acc: seq<T>, xs: seq<T>)
    requires xs != []
    ensures acc + [xs[0]] + xs[1..] == acc + xs
  {
    AppendAssoc(acc, [xs[0]], xs[1..]);
    assert [xs[0]] + xs[1..] == xs;
  }

  // ---------------------------------------------------------------------
  // Single steps of the statement routines, stated on indices and kinds
  // only, so that their proofs never meet a token sequence.
  // ---------------------------------------------------------------------

  /** `program()` at a token that starts an expression: `stmt()`. */
  lemma ProgramExprStmt(ts: seq<Token>, i: nat, x: Expr, j: nat)
    requires i <= |ts| && KindAt(ts, i) in {Number, Identifier, LParen}
    requires ExprAt(ts, i, Lowest) == Parsed(x, j) && KindAt(ts, j) == Semi
    ensures ProgramAt(ts, i) == Parsed(ExprStmt(x), j + 1)
  {
    assert ProgramAt(ts, i) == StmtAt(ts, i);
  }

  /** `program()` at `return`. */
  lemma ProgramReturn(ts: seq<Token>, i: nat, x: Expr, j: nat)
    requires i < |ts| && KindAt(ts, i) == KReturn
    requires ExprAt(ts, i + 1, Lowest) == Parsed(x, j) && KindAt(ts, j) == Semi
    ensures ProgramAt(ts, i) == Parsed(ReturnStmt(x), j + 1)
  {
    assert ProgramAt(ts, i) == ReturnAt(ts, i + 1);
  }

  /** `program()` at `let` or `const`. */
  lemma ProgramDecl(ts: seq<Token>, i: nat, isConst: bool, t: TypeAnn, j: nat, x: Expr, k: nat)
    requires i + 1 < |ts| && KindAt(ts, i) == (if isConst then KConst else KLet) && KindAt(ts, i + 1) == Identifier
    requires OptionalTypeAt(ts, i + 2) == Parsed(t, j)
    requires InitializerAt(ts, j) == Parsed(x, k) && KindAt(ts, k) == Semi
    ensures ProgramAt(ts, i) == Parsed(VariableStmt(TextAt(ts, i + 1), x, isConst, t), k + 1)
  {
    assert ProgramAt(ts, i) == VariableDeclAt(ts, i + 1, isConst);
    assert VariableDeclAt(ts, i + 1, isConst) == VariableDeclRestAt(ts, j, TextAt(ts, i + 1), isConst, t);
  }

  /** `program()` at `{`: `bodyStmt()`. */
  lemma ProgramBlock(ts: seq<Token>, i: nat, b: Stmt, k: nat)
    requires i < |ts| && KindAt(ts, i) == Lcb && BodyAt(ts, i + 1, []) == Parsed(b, k)
    ensures ProgramAt(ts, i) == Parsed(b, k)
  {
  }

  /** `program()` at `def`, up to the end of the parameter list. */
  lemma ProgramFunction(ts: seq<Token>, i: nat, ps: seq<ParamEntry>, j: nat, r: ParseResult<Stmt>)
    requires i + 2 < |ts| && KindAt(ts, i) == KDef && KindAt(ts, i + 1) == Identifier && KindAt(ts, i + 2) == LParen
    requires ParametersAt(ts, i + 3, []) == Parsed(ps, j)
    requires FunctionDeclRestAt(ts, j, TextAt(ts, i + 1), ps) == r
    ensures ProgramAt(ts, i) == r
  {
    assert ProgramAt(ts, i) == FunctionDeclAt(ts, i + 1);
  }

  /** The rest of a function: the return type, `{` and the body. */
  lemma FunctionRestStep(ts: seq<Token>, j: nat, name: string, ps: seq<ParamEntry>, t: TypeAnn, k: nat, b: Stmt, m: nat)
    requires j <= |ts| && OptionalTypeAt(ts, j) == Parsed(t, k)
    requires KindAt(ts, k) == Lcb && k < |ts| && BodyAt(ts, k + 1, []) == Parsed(b, m)
    ensures FunctionDeclRestAt(ts, j, name, ps) == Parsed(FunctionStmt(name, ps, t, b), m)
  {
  }

  /** The `}` ends a block with the statements read so far. */
  lemma BodyEnd(acc: seq<Stmt>, ts: seq<Token>, i: nat)
    requires Spells(ts, i, [OperatorToken(Rcb)])
    ensures BodyAt(ts, i, acc) == Parsed(CompoundStmt(acc), i + 1)
  {
    assert KindAt(ts, i) == Rcb;
  }

  /** The end marker ends a program with the statements read so far. */
  lemma ParseEnd(acc: seq<Stmt>, ts: seq<Token>, i: nat)
    requires Spells(ts, i, [EofToken])
    ensures ParseAt(ts, i, acc) == Parsed(CompoundStmt(acc), i)
  {
    assert KindAt(ts, i) == Eof;
  }

  /** One statement of a block, then whatever the rest reads back to. */
  lemma BodyCons(ts: seq<Token>, i: nat, acc: seq<Stmt>, s: Stmt, j: nat, r: ParseResult<Stmt>)
    requires i <= |ts| && KindAt(ts, i) != Rcb
    requires ProgramAt(ts, i) == Parsed(s, j) && BodyAt(ts, j, acc + [s]) == r
    ensures BodyAt(ts, i, acc) == r
  {
  }

  /** One statement of a program, then whatever the rest reads back to. */
  lemma ParseCons(ts: seq<Token>, i: nat, acc: seq<Stmt>, s: Stmt, j: nat, r: ParseResult<Stmt>)
    requires i <= |ts| && KindAt(ts, i) != Eof
    requires ProgramAt(ts, i) == Parsed(s, j) && ParseAt(ts, j, acc + [s]) == r
    ensures ParseAt(ts, i, acc) == r
  {
  }

  /** The first statement of a block read back up to `j`, then the rest
      as the recursive call read it, up to `e`. */
  lemma BodyJoin(ss: seq<Stmt>, acc: seq<Stmt>, ts: seq<Token>, i: nat, j: nat, e: nat)
    requires ss != [] && i <= |ts| && KindAt(ts, i) != Rcb
    requires ProgramAt(ts, i) == Parsed(ss[0], j)
    requires BodyAt(ts, j, acc + [ss[0]]) == Parsed(CompoundStmt(acc + [ss[0]] + ss[1..]), e)
    ensures BodyAt(ts, i, acc) == Parsed(CompoundStmt(acc + ss), e)
  {
    ConsJoin(acc, ss);
    BodyCons(ts, i, acc, ss[0], j, Parsed(CompoundStmt(acc + ss), e));
  }

  /** The first statement of a program read back up to `j`, then the rest
      as the recursive call read it, up to `e`. */
  lemma ParseJoin(ss: seq<Stmt>, acc: seq<Stmt>, ts: seq<Token>, i: nat, j: nat, e: nat)
    requires ss != [] && i <= |ts| && KindAt(ts, i) != Eof
    requires ProgramAt(ts, i) == Parsed(ss[0], j)
    requires ParseAt(ts, j, acc + [ss[0]]) == Parsed(CompoundStmt(acc + [ss[0]] + ss[1..]), e)
    ensures ParseAt(ts, i, acc) == Parsed(CompoundStmt(acc + ss), e)
  {
    ConsJoin(acc, ss);
    ParseCons(ts, i, acc, ss[0], j, Parsed(CompoundStmt(acc + ss), e));
  }

  /** An empty block: only its `}`. */
  lemma BodyEmpty(ss: seq<Stmt>, acc: seq<Stmt>, ts: seq<Token>, i: nat)
    requires ss == [] && Spells(ts, i, BlockTokens(ss) + [OperatorToken(Rcb)])
    ensures BodyAt(ts, i, acc) == Parsed(CompoundStmt(acc + ss), i + |BlockTokens(ss)| + 1)
  {
    assert BlockTokens(ss) + [OperatorToken(Rcb)] == [OperatorToken(Rcb)];
    BodyEnd(acc, ts, i);
    assert acc + ss == acc;
  }

  /** An empty program: only the end marker. */
  lemma ParseEmpty(ss: seq<Stmt>, acc: seq<Stmt>, ts: seq<Token>, i: nat)
    requires ss == [] && Spells(ts, i, BlockTokens(ss) + [EofToken])
    ensures ParseAt(ts, i, acc) == Parsed(CompoundStmt(acc + ss), i + |BlockTokens(ss)|)
  {
    assert BlockTokens(ss) + [EofToken] == [EofToken];
    ParseEnd(acc, ts, i);
    assert acc + ss == acc;
  }

  // ---------------------------------------------------------------------
  // Where the parts of a statement's tokens are found.
  // ---------------------------------------------------------------------

  /** The tokens of a declaration found at `i`. */
  lemma DeclSpelling(s: Stmt, ts: seq<Token>, i: nat)
    requires s.VariableStmt? && Spells(ts, i, StmtTokens(s))
    ensures i + 1 < |ts| && KindAt(ts, i) == (if s.isConst then KConst else KLet)
    ensures KindAt(ts, i + 1) == Identifier && TextAt(ts, i + 1) == s.name
    ensures Spells(ts, i + 2, AnnotationTokens(s.varType) + (InitializerTokens(s.value) + [OperatorToken(Semi)]))
    ensures |StmtTokens(s)| == 2 + |AnnotationTokens(s.varType)| + |InitializerTokens(s.value)| + 1
  {
    var kw := if s.isConst then KConst else KLet;
    var tail := AnnotationTokens(s.varType) + (InitializerTokens(s.value) + [OperatorToken(Semi)]);
    SpellsCons(ts, i, OperatorToken(kw), [Token(Identifier, Some(s.name))] + tail);
    SpellsCons(ts, i + 1, Token(Identifier, Some(s.name)), tail);
  }

  /** The tokens of a function found at `i`. */
  lemma FunctionSpelling(s: Stmt, ts: seq<Token>, i: nat)
    requires s.FunctionStmt? && Spells(ts, i, StmtTokens(s))
    ensures i + 2 < |ts| && KindAt(ts, i) == KDef && KindAt(ts, i + 1) == Identifier && KindAt(ts, i + 2) == LParen
    ensures TextAt(ts, i + 1) == s.name
    ensures Spells(ts, i + 3, ParamTokens(s.params) + [Token(RParen, Some(")"))])
    ensures Spells(ts, i + 3 + |ParamTokens(s.params)| + 1, AnnotationTokens(s.returnType) + StmtTokens(s.functionBody))
    ensures |StmtTokens(s)|
         == 3 + |ParamTokens(s.params)| + 1 + |AnnotationTokens(s.returnType)| + |StmtTokens(s.functionBody)|
  {
    var params := ParamTokens(s.params) + [OperatorToken(RParen)];
    var after := AnnotationTokens(s.returnType) + StmtTokens(s.functionBody);
    FunctionTokens(s);
    SpellsCons(ts, i, OperatorToken(KDef), [Token(Identifier, Some(s.name))] + ([OperatorToken(LParen)] + (params + after)));
    SpellsCons(ts, i + 1, Token(Identifier, Some(s.name)), [OperatorToken(LParen)] + (params + after));
    SpellsCons(ts, i + 2, OperatorToken(LParen), params + after);
    SpellsSplit(ts, i + 3, params, after);
  }

  /** The tokens of a function, unfolded once. */
  lemma FunctionTokens(s: Stmt)
    requires s.FunctionStmt?
    ensures StmtTokens(s)
         == [OperatorToken(KDef)] + ([Token(Identifier, Some(s.name))] + ([OperatorToken(LParen)]
            + ((ParamTokens(s.params) + [OperatorToken(RParen)])
               + (AnnotationTokens(s.returnType) + StmtTokens(s.functionBody)))))
  {
  }

  /** The tokens of a non-empty statement list, followed by `rest`, split
      after the first statement, which starts with neither `}` nor EOF. */
  lemma BlockSpelling(ss: seq<Stmt>, rest: seq<Token>, ts: seq<Token>, i: nat)
    requires ss != [] && WellFormed(ss[0]) && Spells(ts, i, BlockTokens(ss) + rest)
    ensures Spells(ts, i, StmtTokens(ss[0]))
    ensures Spells(ts, i + |StmtTokens(ss[0])|, BlockTokens(ss[1..]) + rest)
    ensures |BlockTokens(ss)| == |StmtTokens(ss[0])| + |BlockTokens(ss[1..])|
    ensures KindAt(ts, i) != Rcb && KindAt(ts, i) != Eof
  {
    var first := StmtTokens(ss[0]);
    assert BlockTokens(ss) == first + BlockTokens(ss[1..]);
    AppendAssoc(first, BlockTokens(ss[1..]), rest);
    SpellsSplit(ts, i, first, BlockTokens(ss[1..]) + rest);
    StmtStart(ss[0]);
    assert ts[i] == first[0];
  }

  // ---------------------------------------------------------------------
  // Declarations.
  // ---------------------------------------------------------------------

  /** The optional `: T` is read back, and the cursor stops in front of
      what follows, which does not start with `:`. */
  lemma AnnotationRoundTrip(t: TypeAnn, ts: seq<Token>, i: nat, rest: seq<Token>)
    requires IsAnnotation(t) && rest != [] && rest[0].kind != Colon
    requires Spells(ts, i, AnnotationTokens(t) + rest)
    ensures OptionalTypeAt(ts, i) == Parsed(t, i + |AnnotationTokens(t)|)
    ensures Spells(ts, i + |AnnotationTokens(t)|, rest)
  {
    SpellsSplit(ts, i, AnnotationTokens(t), rest);
    if t == ImplicitType {
      assert ts[i] == rest[0];
    } else {
      SpellsCons(ts, i, OperatorToken(Colon), TypeTokens(t));
      TypeRoundTrip(t, ts, i + 1);
    }
  }

  /** The optional `= e` is read back, and the `;` follows it. */
  lemma InitializerRoundTrip(x: Expr, ts: seq<Token>, j: nat)
    requires x == UndefinedExpr || Canonical(x, Lowest)
    requires Spells(ts, j, InitializerTokens(x) + [OperatorToken(Semi)])
    ensures InitializerAt(ts, j) == Parsed(x, j + |InitializerTokens(x)|)
    ensures KindAt(ts, j + |InitializerTokens(x)|) == Semi
  {
    SpellsSplit(ts, j, InitializerTokens(x), [OperatorToken(Semi)]);
    var k := j + |InitializerTokens(x)|;
    assert ts[k] == OperatorToken(Semi);
    if x != UndefinedExpr {
      SpellsCons(ts, j, OperatorToken(Equals), Flatten(x));
      ExprRoundTrip(x, Lowest, ts, j + 1);
    }
  }

  /** `let`/`const`, the name, the optional `: T`, the optional `= e` and
      `;` are read back as the declaration they spell. */
  lemma DeclRoundTrip(s: Stmt, ts: seq<Token>, i: nat)
    requires s.VariableStmt? && WellFormed(s) && Spells(ts, i, StmtTokens(s))
    ensures ProgramAt(ts, i) == Parsed(s, i + |StmtTokens(s)|)
  {
    DeclSpelling(s, ts, i);
    var j := i + 2 + |AnnotationTokens(s.varType)|;
    var k := j + |InitializerTokens(s.value)|;
    DeclParts(s, ts, i, j, k);
    ProgramDecl(ts, i, s.isConst, s.varType, j, s.value, k);
  }

  /** The optional `: T` and `= e` of a declaration read back, and the `;`
      after them. */
  lemma DeclParts(s: Stmt, ts: seq<Token>, i: nat, j: nat, k: nat)
    requires s.VariableStmt? && WellFormed(s)
    requires Spells(ts, i + 2, AnnotationTokens(s.varType) + (InitializerTokens(s.value) + [OperatorToken(Semi)]))
    requires j == i + 2 + |AnnotationTokens(s.varType)| && k == j + |InitializerTokens(s.value)|
    ensures OptionalTypeAt(ts, i + 2) == Parsed(s.varType, j)
    ensures InitializerAt(ts, j) == Parsed(s.value, k) && KindAt(ts, k) == Semi
  {
    AnnotationRoundTrip(s.varType, ts, i + 2, InitializerTokens(s.value) + [OperatorToken(Semi)]);
    InitializerRoundTrip(s.value, ts, j);
  }

  // ---------------------------------------------------------------------
  // Expression statements and `return`.
  // ---------------------------------------------------------------------

  /** An expression and `;`, at index `i`. */
  lemma TerminatedExpr(x: Expr, ts: seq<Token>, i: nat)
    requires Canonical(x, Lowest) && Spells(ts, i, Flatten(x) + [OperatorToken(Semi)])
    ensures ExprAt(ts, i, Lowest) == Parsed(x, i + |Flatten(x)|)
    ensures KindAt(ts, i + |Flatten(x)|) == Semi
  {
    SemiAfter(Flatten(x), ts, i);
    ExprRoundTrip(x, Lowest, ts, i);
  }

  /** Tokens followed by `;`, at index `i`. */
  lemma SemiAfter(xs: seq<Token>, ts: seq<Token>, i: nat)
    requires Spells(ts, i, xs + [OperatorToken(Semi)])
    ensures Spells(ts, i, xs) && KindAt(ts, i + |xs|) == Semi
  {
    SpellsSplit(ts, i, xs, [OperatorToken(Semi)]);
    assert ts[i + |xs|] == OperatorToken(Semi);
  }

  /** `e;` is read back as an expression statement. */
  lemma ExprStmtRoundTrip(s: Stmt, ts: seq<Token>, i: nat)
    requires s.ExprStmt? && WellFormed(s) && Spells(ts, i, StmtTokens(s))
    ensures ProgramAt(ts, i) == Parsed(s, i + |StmtTokens(s)|)
  {
    var x := s.expression;
    FlattenStart(x, Lowest);
    assert ts[i] == Flatten(x)[0];
    TerminatedExpr(x, ts, i);
    ProgramExprStmt(ts, i, x, i + |Flatten(x)|);
  }

  /** `return e;` is read back as a return statement. */
  lemma ReturnRoundTrip(s: Stmt, ts: seq<Token>, i: nat)
    requires s.ReturnStmt? && WellFormed(s) && Spells(ts, i, StmtTokens(s))
    ensures ProgramAt(ts, i) == Parsed(s, i + |StmtTokens(s)|)
  {
    SpellsCons(ts, i, OperatorToken(KReturn), Flatten(s.value) + [OperatorToken(Semi)]);
    TerminatedExpr(s.value, ts, i + 1);
    ProgramReturn(ts, i, s.value, i + 1 + |Flatten(s.value)|);
  }

  // ---------------------------------------------------------------------
  // Blocks, functions and whole statements, by mutual induction.
  // ---------------------------------------------------------------------

  /** `program()` reads every well-formed statement back from its tokens. */
  lemma {:induction false} StmtRoundTrip(s: Stmt, ts: seq<Token>, i: nat)
    requires WellFormed(s) && Spells(ts, i, StmtTokens(s))
    ensures ProgramAt(ts, i) == Parsed(s, i + |StmtTokens(s)|)
    decreases s, 2
  {
    match s
    case CompoundStmt(_) =>
      SpellsCons(ts, i, OperatorToken(Lcb), BlockTokens(s.body) + [OperatorToken(Rcb)]);
      BlockRoundTrip(s, ts, i + 1);
      ProgramBlock(ts, i, s, i + 1 + |BlockTokens(s.body)| + 1);
    case VariableStmt(_, _, _, _) => DeclRoundTrip(s, ts, i);
    case EmptyStmt =>
      assert ts[i] == OperatorToken(Semi);
    case ReturnStmt(_) => ReturnRoundTrip(s, ts, i);
    case ExprStmt(_) => ExprStmtRoundTrip(s, ts, i);
    case FunctionStmt(_, _, _, _) => FunctionRoundTrip(s, ts, i);
  }

  /** After `{`, `bodyStmt()` reads a block's statements and its `}` back. */
  lemma {:induction false} BlockRoundTrip(s: Stmt, ts: seq<Token>, i: nat)
    requires s.CompoundStmt? && WellFormed(s)
    requires Spells(ts, i, BlockTokens(s.body) + [OperatorToken(Rcb)])
    ensures BodyAt(ts, i, []) == Parsed(s, i + |BlockTokens(s.body)| + 1)
    decreases s, 1
  {
    BodyRoundTrip(s.body, [], ts, i);
    assert [] + s.body == s.body;
  }

  /** `bodyStmt()` reads statements back until the `}` that follows them,
      appending them in order after those already read. */
  lemma {:induction false} BodyRoundTrip(ss: seq<Stmt>, acc: seq<Stmt>, ts: seq<Token>, i: nat)
    requires AllWellFormed(ss) && Spells(ts, i, BlockTokens(ss) + [OperatorToken(Rcb)])
    ensures BodyAt(ts, i, acc) == Parsed(CompoundStmt(acc + ss), i + |BlockTokens(ss)| + 1)
    decreases ss, 0
  {
    if ss == [] {
      BodyEmpty(ss, acc, ts, i);
    } else {
      BlockSpelling(ss, [OperatorToken(Rcb)], ts, i);
      var j := i + |StmtTokens(ss[0])|;
      var e := i + |BlockTokens(ss)| + 1;
      BodyRoundTrip(ss[1..], acc + [ss[0]], ts, j);
      StmtRoundTrip(ss[0], ts, i);
      BodyJoin(ss, acc, ts, i, j, e);
    }
  }

  /** `def`, the name, `(` and the parameters, the optional return type and
      the body are read back as the function they spell. */
  lemma {:induction false} FunctionRoundTrip(s: Stmt, ts: seq<Token>, i: nat)
    requires s.FunctionStmt? && WellFormed(s) && Spells(ts, i, StmtTokens(s))
    ensures ProgramAt(ts, i) == Parsed(s, i + |StmtTokens(s)|)
    decreases s, 1
  {
    FunctionSpelling(s, ts, i);
    var j := i + 3 + |ParamTokens(s.params)| + 1;
    FunctionBody(s, ts, j);
    FunctionHead(s, ts, i, j, Parsed(s, i + |StmtTokens(s)|));
  }

  /** `def`, the name and the parameter list read back, then whatever the
      rest of the function reads back to. */
  lemma FunctionHead(s: Stmt, ts: seq<Token>, i: nat, j: nat, r: ParseResult<Stmt>)
    requires s.FunctionStmt? && AllWritten(s.params)
    requires i + 2 < |ts| && KindAt(ts, i) == KDef && KindAt(ts, i + 1) == Identifier && KindAt(ts, i + 2) == LParen
    requires TextAt(ts, i + 1) == s.name
    requires Spells(ts, i + 3, ParamTokens(s.params) + [Token(RParen, Some(")"))])
    requires j == i + 3 + |ParamTokens(s.params)| + 1
    requires FunctionDeclRestAt(ts, j, s.name, s.params) == r
    ensures ProgramAt(ts, i) == r
  {
    ParametersRoundTrip(s.params, [], ts, i + 3);
    assert [] + s.params == s.params;
    ProgramFunction(ts, i, s.params, j, r);
  }

  /** The part of a function after its parameter list: the optional `: T`,
      `{`, and the body's statements and `}`. */
  lemma {:induction false} FunctionBody(s: Stmt, ts: seq<Token>, j: nat)
    requires s.FunctionStmt? && WellFormed(s)
    requires Spells(ts, j, AnnotationTokens(s.returnType) + StmtTokens(s.functionBody))
    ensures FunctionDeclRestAt(ts, j, s.name, s.params)
         == Parsed(s, j + |AnnotationTokens(s.returnType)| + |StmtTokens(s.functionBody)|)
    decreases s, 0
  {
    var body := s.functionBody;
    var inner := BlockTokens(body.body) + [OperatorToken(Rcb)];
    AnnotationRoundTrip(s.returnType, ts, j, StmtTokens(body));
    var k := j + |AnnotationTokens(s.returnType)|;
    SpellsCons(ts, k, OperatorToken(Lcb), inner);
    BlockRoundTrip(body, ts, k + 1);
    FunctionRestStep(ts, j, s.name, s.params, s.returnType, k, body, k + 1 + |inner|);
  }

  // ---------------------------------------------------------------------
  // Whole programs.
  // ---------------------------------------------------------------------

  /** `parse()` reads statements back until the EOF that follows them. */
  lemma {:induction false} ParseRoundTrip(ss: seq<Stmt>, acc: seq<Stmt>, ts: seq<Token>, i: nat)
    requires AllWellFormed(ss) && Spells(ts, i, BlockTokens(ss) + [EofToken])
    ensures ParseAt(ts, i, acc) == Parsed(CompoundStmt(acc + ss), i + |BlockTokens(ss)|)
    decreases ss
  {
    if ss == [] {
      ParseEmpty(ss, acc, ts, i);
    } else {
      BlockSpelling(ss, [EofToken], ts, i);
      var j := i + |StmtTokens(ss[0])|;
      var e := i + |BlockTokens(ss)|;
      ParseRoundTrip(ss[1..], acc + [ss[0]], ts, j);
      StmtRoundTrip(ss[0], ts, i);
      ParseJoin(ss, acc, ts, i, j, e);
    }
  }

  /** The tokens of a program of well-formed statements, followed by the
      end marker, parse back to that program. */
  lemma ParseOfProgram(ss: seq<Stmt>)
    requires AllWellFormed(ss)
    ensures ParseAt(BlockTokens(ss) + [EofToken], 0, []) == Parsed(CompoundStmt(ss), |BlockTokens(ss)|)
  {
    var ts := BlockTokens(ss) + [EofToken];
    SpellsSuffix(ts, 0);
    assert ts[0..] == ts;
    ParseRoundTrip(ss, [], ts, 0);
    assert [] + ss == ss;
  }

  /** Two well-formed programs are never spelled by the same tokens. */
  lemma ProgramTokensInjective(ss1: seq<Stmt>, ss2: seq<Stmt>)
    requires AllWellFormed(ss1) && AllWellFormed(ss2) && BlockTokens(ss1) == BlockTokens(ss2)
    ensures ss1 == ss2
  {
    ParseOfProgram(ss1);
    ParseOfProgram(ss2);
  }

  // ---------------------------------------------------------------------
  // What a function declaration is, for any tokens.
  // ---------------------------------------------------------------------

  /**
   * After `def`, what `program()` returns is a function named by the token
   * after `def`, whose parameters are those `parameters()` reads after the
   * `(`, whose return type is the one read after a `:` that follows the
   * `)` and implicit without one, and
   * whose body is a block ending with the `}` the statement ends on.
   */
  lemma FunctionShape(ts: seq<Token>, i: nat)
    requires i <= |ts| && KindAt(ts, i) == KDef
    ensures ProgramAt(ts, i).Parsed? ==>
      var f := ProgramAt(ts, i).value;
      && i + 3 <= |ts|
      && f.FunctionStmt?
      && f.name == TextAt(ts, i + 1)
      && ParametersAt(ts, i + 3, []).Parsed?
      && f.params == ParametersAt(ts, i + 3, []).value
      && (var j := ParametersAt(ts, i + 3, []).next;
          && (KindAt(ts, j) != Colon ==> f.returnType == ImplicitType)
          && (KindAt(ts, j) == Colon ==> j + 1 <= |ts| && TypeAt(ts, j + 1).Parsed? && f.returnType == TypeAt(ts, j + 1).value))
      && f.functionBody.CompoundStmt?
      && KindAt(ts, ProgramAt(ts, i).next - 1) == Rcb
  {
    assert ProgramAt(ts, i) == FunctionDeclAt(ts, i + 1);
    if ProgramAt(ts, i).Parsed? {
      var ps := ParametersAt(ts, i + 3, []);
      assert ps.Parsed?;
      FunctionRest(ts, ps.next, TextAt(ts, i + 1), ps.value);
      assert FunctionDeclAt(ts, i + 1) == FunctionDeclRestAt(ts, ps.next, TextAt(ts, i + 1), ps.value);
    }
  }

  /** The part of `FunctionShape` after the parameter list. */
  lemma FunctionRest(ts: seq<Token>, j: nat, name: string, ps: seq<ParamEntry>)
    requires j <= |ts|
    ensures FunctionDeclRestAt(ts, j, name, ps).Parsed? ==>
      var f := FunctionDeclRestAt(ts, j, name, ps).value;
      && f.FunctionStmt? && f.name == name && f.params == ps
      && (KindAt(ts, j) != Colon ==> f.returnType == ImplicitType)
      && (KindAt(ts, j) == Colon ==> j + 1 <= |ts| && TypeAt(ts, j + 1).Parsed? && f.returnType == TypeAt(ts, j + 1).value)
      && f.functionBody.CompoundStmt?
      && KindAt(ts, FunctionDeclRestAt(ts, j, name, ps).next - 1) == Rcb
  {
    var t := OptionalTypeAt(ts, j);
    if t.Parsed? && KindAt(ts, t.next) == Lcb {
      var b := BodyAt(ts, t.next + 1, []);
      BodyEndsWithBrace(ts, t.next + 1, []);
      if b.Parsed? {
        FunctionRestStep(ts, j, name, ps, t.value, t.next, b.value, b.next);
      }
    }
  }
}
