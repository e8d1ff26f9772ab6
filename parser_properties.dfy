/**
 * What `expr(bp)` of frontend/parser.ts:95-101 computes. `Flatten` writes
 * an expression tree back as tokens; `Canonical(e, bp)` says which trees
 * `expr(bp)` builds. The parser returns exactly the canonical trees
 * (`ExprSound`), and reads every canonical tree back from its tokens
 * (`ExprRoundTrip`), so the two together pin down operator grouping.
 */
module ParserProperties {
  import opened Wrappers
  import opened JsText
  import opened Tokens
  import opened Helper
  import opened Parsing

  /** The tokens that spell an expression: numbers in decimal, parentheses
      and operators by their usual spelling. */
  function Flatten(e: Expr): seq<Token> {
    match e
    case NumericExpr(v) => [Token(Number, Some(NumberText(v)))]
    case StringExpr(s) => [Token(Identifier, Some(s))]
    case ParenthesizedExpr(inner) => [Token(LParen, Some("("))] + Flatten(inner) + [Token(RParen, Some(")"))]
    case BinaryExpr(l, r, op) => Flatten(l) + [OperatorToken(op)] + Flatten(r)
    case UndefinedExpr => []
  }

  /** An operator token as the lexer's default handler makes it. */
  function OperatorToken(op: TokenKind): Token {
    Token(op, Some(Spelling(op)))
  }

  /** The nodes `nud` builds. */
  predicate IsPrimary(e: Expr) {
    e.NumericExpr? || e.StringExpr? || e.ParenthesizedExpr?
  }

  /**
   * The trees `expr(bp)` can return. A binary node's operator binds more
   * tightly than `bp` (or `led` would not have run), its right operand was
   * parsed at the operator's own power, and an operator on the left spine
   * binds at least as tightly as the one above it (a looser operator would
   * have ended that operand's parse). So equal powers group to the left.
   */
  predicate Canonical(e: Expr, bp: nat) {
    match e
    case NumericExpr(_) => true
    case StringExpr(_) => true
    case ParenthesizedExpr(inner) => Canonical(inner, Lowest)
    case UndefinedExpr => false
    case BinaryExpr(l, r, op) =>
      && BindingPower(op) > bp
      && Canonical(l, bp)
      && (l.BinaryExpr? ==> BindingPower(op) <= BindingPower(l.op))
      && Canonical(r, BindingPower(op))
  }

  /** `xs` is found in `ts` at index `i`. */
  predicate Spells(ts: seq<Token>, i: nat, xs: seq<Token>)
    decreases |xs|
  {
    && i + |xs| <= |ts|
    && (xs != [] ==> ts[i] == xs[0] && Spells(ts, i + 1, xs[1..]))
  }

  /** The kinds of `xs` are found in `ts` at index `i` (the texts may differ:
      `007` reads back as `7`). */
  predicate MatchesKinds(ts: seq<Token>, i: nat, xs: seq<Token>) {
    i + |xs| <= |ts| && forall k :: 0 <= k < |xs| ==> ts[i + k].kind == xs[k].kind
  }

  /** Tokens found at `i` split where their spelling does. */
  lemma {:induction false} SpellsSplit(ts: seq<Token>, i: nat, a: seq<Token>, b: seq<Token>)
    requires Spells(ts, i, a + b)
    ensures Spells(ts, i, a) && Spells(ts, i + |a|, b)
    decreases |a|
  {
    if a == [] {
      assert a + b == b;
    } else {
      assert (a + b)[0] == a[0];
      assert (a + b)[1..] == a[1..] + b;
      SpellsSplit(ts, i + 1, a[1..], b);
    }
  }

  /** Every suffix of a sequence is found where it starts. */
  lemma {:induction false} SpellsSuffix(ts: seq<Token>, i: nat)
    requires i <= |ts|
    ensures Spells(ts, i, ts[i..])
    decreases |ts| - i
  {
    if i < |ts| {
      assert ts[i..][1..] == ts[i + 1..];
      SpellsSuffix(ts, i + 1);
    }
  }

  /** Tokens found at `i` split around one token. */
  lemma SpellsAround(ts: seq<Token>, i: nat, a: seq<Token>, x: Token, b: seq<Token>)
    requires Spells(ts, i, a + [x] + b)
    ensures Spells(ts, i, a) && i + |a| < |ts| && ts[i + |a|] == x && Spells(ts, i + |a| + 1, b)
  {
    assert a + [x] + b == a + ([x] + b);
    SpellsSplit(ts, i, a, [x] + b);
    assert ([x] + b)[1..] == b;
  }

  /** Tokens found at `i` between an opening and a closing token. */
  lemma SpellsEnclosed(ts: seq<Token>, i: nat, open: Token, xs: seq<Token>, close: Token)
    requires Spells(ts, i, [open] + xs + [close])
    ensures i + 1 + |xs| < |ts| && ts[i] == open && ts[i + 1 + |xs|] == close
    ensures Spells(ts, i + 1, xs)
  {
    assert ([open] + xs + [close])[1..] == xs + [close];
    SpellsSplit(ts, i + 1, xs, [close]);
  }

  /** A token sequence followed by the end marker spells it at index 0. */
  lemma SpellsBeforeEof(xs: seq<Token>)
    ensures Spells(xs + [EofToken], 0, xs)
    ensures KindAt(xs + [EofToken], |xs|) == Eof
  {
    var ts := xs + [EofToken];
    SpellsSuffix(ts, 0);
    assert ts[0..] == xs + [EofToken];
    SpellsSplit(ts, 0, xs, [EofToken]);
  }

  // ---------------------------------------------------------------------
  // Single steps of `expr`, each unfolding one specification function.
  // ---------------------------------------------------------------------

  /** `expr` runs `nud`, then its loop on what `nud` built. */
  lemma ExprStep(ts: seq<Token>, i: nat, bp: nat, e: Expr, j: nat)
    requires i <= |ts| && NudAt(ts, i) == Parsed(e, j)
    ensures j <= |ts| && ExprAt(ts, i, bp) == ExprLoopAt(ts, j, bp, e)
  {
  }

  /** One more turn of the loop after `left` has been read from `i`: the
      operator at `p` binds more tightly than `bp`, and its right operand
      is parsed at its own power. */
  lemma LoopStep(ts: seq<Token>, i: nat, p: nat, bp: nat, left: Expr, op: TokenKind, right: Expr, end: nat)
    requires i <= p < |ts| && ExprAt(ts, i, bp) == ExprLoopAt(ts, p, bp, left)
    requires KindAt(ts, p) == op && BindingPower(op) > bp
    requires ExprAt(ts, p + 1, BindingPower(op)) == Parsed(right, end)
    ensures end <= |ts|
    ensures ExprAt(ts, i, bp) == ExprLoopAt(ts, end, bp, BinaryExpr(left, right, op))
  {
  }

  // ---------------------------------------------------------------------
  // Round trip: every canonical tree is read back from its tokens.
  // ---------------------------------------------------------------------

  /** `nud` reads a primary back. */
  lemma {:induction false} NudRoundTrip(e: Expr, ts: seq<Token>, i: nat)
    requires IsPrimary(e) && Canonical(e, Lowest) && Spells(ts, i, Flatten(e))
    ensures NudAt(ts, i) == Parsed(e, i + |Flatten(e)|)
    decreases e, 0
  {
    if e.ParenthesizedExpr? {
      var inner := e.inner;
      var open, close := Token(LParen, Some("(")), Token(RParen, Some(")"));
      SpellsEnclosed(ts, i, open, Flatten(inner), close);
      ExprRoundTrip(inner, Lowest, ts, i + 1);
    } else {
      if e.NumericExpr? {
        ParseIntNumberText(e.number);
      }
    }
  }

  /** Parsing the tokens of `e`, a tree on the left spine of what is being
      parsed, reaches the `expr` loop with `e` as the left operand. */
  lemma {:induction false} LeftSpine(e: Expr, bp: nat, ts: seq<Token>, i: nat)
    requires Canonical(e, bp) && Spells(ts, i, Flatten(e))
    requires e.BinaryExpr? ==> BindingPower(KindAt(ts, i + |Flatten(e)|)) <= BindingPower(e.op)
    ensures ExprAt(ts, i, bp) == ExprLoopAt(ts, i + |Flatten(e)|, bp, e)
    decreases e, 1
  {
    if e.BinaryExpr? {
      LeftSpineBinary(e, bp, ts, i);
    } else {
      NudRoundTrip(e, ts, i);
      ExprStep(ts, i, bp, e, i + |Flatten(e)|);
    }
  }

  /** The binary case of `LeftSpine`: the left operand's tokens bring the
      loop to the operator, where `led` reads the right operand back. */
  lemma {:induction false} LeftSpineBinary(e: Expr, bp: nat, ts: seq<Token>, i: nat)
    requires e.BinaryExpr? && Canonical(e, bp) && Spells(ts, i, Flatten(e))
    requires BindingPower(KindAt(ts, i + |Flatten(e)|)) <= BindingPower(e.op)
    ensures ExprAt(ts, i, bp) == ExprLoopAt(ts, i + |Flatten(e)|, bp, e)
    decreases e, 0
  {
    var l, r, op := e.left, e.right, e.op;
    assert Flatten(e) == Flatten(l) + [OperatorToken(op)] + Flatten(r);
    SpellsAround(ts, i, Flatten(l), OperatorToken(op), Flatten(r));
    var p := i + |Flatten(l)|;
    assert KindAt(ts, p) == op;
    var end := p + 1 + |Flatten(r)|;
    assert end == i + |Flatten(e)|;
    LeftSpine(l, bp, ts, i);
    assert A: ExprAt(ts, i, bp) == ExprLoopAt(ts, p, bp, l);
    ExprRoundTrip(r, BindingPower(op), ts, p + 1);
    assert B: ExprAt(ts, p + 1, BindingPower(op)) == Parsed(r, end);
    assert C: i <= p < |ts|;
    assert D: BindingPower(op) > bp;
    LoopStep(ts, i, p, bp, l, op, r, end);
  }

  /** `expr(bp)` reads a tree canonical at `bp` back from its tokens when the
      token after them binds no more tightly than `bp`. */
  lemma {:induction false} ExprRoundTrip(e: Expr, bp: nat, ts: seq<Token>, i: nat)
    requires Canonical(e, bp) && Spells(ts, i, Flatten(e))
    requires BindingPower(KindAt(ts, i + |Flatten(e)|)) <= bp
    ensures ExprAt(ts, i, bp) == Parsed(e, i + |Flatten(e)|)
    decreases e, 2
  {
    LeftSpine(e, bp, ts, i);
  }

  /** A whole token array: the tree's tokens and the end marker. */
  lemma ParseOfFlatten(e: Expr, bp: nat)
    requires Canonical(e, bp)
    ensures ExprAt(Flatten(e) + [EofToken], 0, bp) == Parsed(e, |Flatten(e)|)
  {
    SpellsBeforeEof(Flatten(e));
    ExprRoundTrip(e, bp, Flatten(e) + [EofToken], 0);
  }

  /** Two canonical trees are never spelled by the same tokens: the token
      sequence of an expression determines its grouping. */
  lemma FlattenInjective(e1: Expr, e2: Expr, bp: nat)
    requires Canonical(e1, bp) && Canonical(e2, bp) && Flatten(e1) == Flatten(e2)
    ensures e1 == e2
  {
    ParseOfFlatten(e1, bp);
    ParseOfFlatten(e2, bp);
  }

  // ---------------------------------------------------------------------
  // Soundness: every tree `expr(bp)` returns is canonical and spelled, kind
  // for kind, by the tokens it consumed, and parsing stops at a token that
  // binds no more tightly than `bp`.
  // ---------------------------------------------------------------------

  lemma MatchesAppend(ts: seq<Token>, i: nat, a: seq<Token>, b: seq<Token>)
    requires MatchesKinds(ts, i, a) && MatchesKinds(ts, i + |a|, b)
    ensures MatchesKinds(ts, i, a + b)
  {
    forall k | 0 <= k < |a + b|
      ensures ts[i + k].kind == (a + b)[k].kind
    {
      if k >= |a| {
        assert ts[i + |a| + (k - |a|)].kind == b[k - |a|].kind;
      }
    }
  }

  /** What is proved of a parse result `r` of `expr(bp)` started at `i`. */
  predicate SoundAt(ts: seq<Token>, i: nat, bp: nat, r: ParseResult<Expr>) {
    r.Parsed? ==>
      && Canonical(r.value, bp)
      && r.next == i + |Flatten(r.value)|
      && MatchesKinds(ts, i, Flatten(r.value))
      && BindingPower(KindAt(ts, r.next)) <= bp
  }

  lemma {:induction false} NudSound(ts: seq<Token>, i: nat)
    requires i <= |ts|
    ensures NudAt(ts, i).Parsed? ==>
      var e := NudAt(ts, i).value;
      && IsPrimary(e) && Canonical(e, Lowest)
      && NudAt(ts, i).next == i + |Flatten(e)|
      && MatchesKinds(ts, i, Flatten(e))
    decreases |ts| - i, 2
  {
    var k := KindAt(ts, i);
    if k == LParen {
      ExprSound(ts, i + 1, Lowest);
      var inner := ExprAt(ts, i + 1, Lowest);
      if inner.Parsed? && KindAt(ts, inner.next) == RParen {
        var f := Flatten(inner.value);
        var open := [Token(LParen, Some("("))];
        var close := [Token(RParen, Some(")"))];
        MatchesAppend(ts, i, open, f);
        MatchesAppend(ts, i, open + f, close);
      }
    }
  }

  /** One `led` step keeps what is proved of the tree built so far. */
  lemma LedSound(ts: seq<Token>, i: nat, j: nat, bp: nat, left: Expr, op: TokenKind, right: Expr, next: nat)
    requires j < |ts| && KindAt(ts, j) == op && BindingPower(op) > bp
    requires Canonical(left, bp) && j == i + |Flatten(left)| && MatchesKinds(ts, i, Flatten(left))
    requires left.BinaryExpr? ==> BindingPower(op) <= BindingPower(left.op)
    requires Canonical(right, BindingPower(op)) && next == j + 1 + |Flatten(right)|
    requires MatchesKinds(ts, j + 1, Flatten(right))
    ensures Canonical(BinaryExpr(left, right, op), bp)
    ensures next == i + |Flatten(BinaryExpr(left, right, op))|
    ensures MatchesKinds(ts, i, Flatten(BinaryExpr(left, right, op)))
  {
    var opToken := [OperatorToken(op)];
    assert MatchesKinds(ts, j, opToken);
    MatchesAppend(ts, i, Flatten(left), opToken);
    MatchesAppend(ts, i, Flatten(left) + opToken, Flatten(right));
  }

  lemma {:induction false} LoopSound(ts: seq<Token>, j: nat, bp: nat, left: Expr, i: nat)
    requires j <= |ts|
    requires Canonical(left, bp) && j == i + |Flatten(left)| && MatchesKinds(ts, i, Flatten(left))
    requires left.BinaryExpr? ==> BindingPower(KindAt(ts, j)) <= BindingPower(left.op)
    ensures SoundAt(ts, i, bp, ExprLoopAt(ts, j, bp, left))
    decreases |ts| - j, 1
  {
    var op := KindAt(ts, j);
    if BindingPower(op) > bp {
      ExprSound(ts, j + 1, BindingPower(op));
      var right := ExprAt(ts, j + 1, BindingPower(op));
      if right.Parsed? {
        var e := BinaryExpr(left, right.value, op);
        assert LedAt(ts, j, left) == Parsed(e, right.next);
        assert ExprLoopAt(ts, j, bp, left) == ExprLoopAt(ts, right.next, bp, e);
        LedSound(ts, i, j, bp, left, op, right.value, right.next);
        LoopSound(ts, right.next, bp, e, i);
      }
    }
  }

  lemma {:induction false} ExprSound(ts: seq<Token>, i: nat, bp: nat)
    requires i <= |ts|
    ensures SoundAt(ts, i, bp, ExprAt(ts, i, bp))
    decreases |ts| - i, 3
  {
    NudSound(ts, i);
    if NudAt(ts, i).Parsed? {
      LoopSound(ts, NudAt(ts, i).next, bp, NudAt(ts, i).value, i);
    }
  }

  // ---------------------------------------------------------------------
  // Grouping of two operators.
  // ---------------------------------------------------------------------

  /** A primary is canonical at every binding power. */
  lemma PrimaryCanonical(p: Expr, bp: nat)
    requires IsPrimary(p) && Canonical(p, Lowest)
    ensures Canonical(p, bp)
  {
  }

  /**
   * `a o1 b o2 c` with primaries `a`, `b`, `c`: the second operator takes
   * `b` exactly when it binds strictly more tightly than the first;
   * otherwise the first operator's node becomes the left operand, so equal
   * powers group to the left.
   */
  lemma Grouping(a: Expr, o1: TokenKind, b: Expr, o2: TokenKind, c: Expr)
    requires IsPrimary(a) && IsPrimary(b) && IsPrimary(c)
    requires Canonical(a, Lowest) && Canonical(b, Lowest) && Canonical(c, Lowest)
    requires IsInfixOperator(o1) && IsInfixOperator(o2)
    ensures
      var ts := Flatten(a) + [OperatorToken(o1)] + Flatten(b) + [OperatorToken(o2)] + Flatten(c) + [EofToken];
      ExprAt(ts, 0, Lowest)
        == Parsed(if BindingPower(o2) > BindingPower(o1) then BinaryExpr(a, BinaryExpr(b, c, o2), o1)
                  else BinaryExpr(BinaryExpr(a, b, o1), c, o2),
                  |ts| - 1)
  {
    if BindingPower(o2) > BindingPower(o1) {
      GroupRight(a, o1, b, o2, c);
    } else {
      GroupLeft(a, o1, b, o2, c);
    }
  }

  /** The case of `Grouping` where `o2` takes `b`. */
  lemma GroupRight(a: Expr, o1: TokenKind, b: Expr, o2: TokenKind, c: Expr)
    requires IsPrimary(a) && IsPrimary(b) && IsPrimary(c)
    requires Canonical(a, Lowest) && Canonical(b, Lowest) && Canonical(c, Lowest)
    requires IsInfixOperator(o1) && IsInfixOperator(o2) && BindingPower(o2) > BindingPower(o1)
    ensures
      var ts := Flatten(a) + [OperatorToken(o1)] + Flatten(b) + [OperatorToken(o2)] + Flatten(c) + [EofToken];
      ExprAt(ts, 0, Lowest) == Parsed(BinaryExpr(a, BinaryExpr(b, c, o2), o1), |ts| - 1)
  {
    PrimaryCanonical(b, BindingPower(o1));
    PrimaryCanonical(c, BindingPower(o2));
    var e := BinaryExpr(a, BinaryExpr(b, c, o2), o1);
    assert Canonical(e, Lowest);
    var x := Flatten(a) + [OperatorToken(o1)];
    AppendAssoc(x, Flatten(b) + [OperatorToken(o2)], Flatten(c));
    AppendAssoc(x, Flatten(b), [OperatorToken(o2)]);
    assert Flatten(e) == x + Flatten(b) + [OperatorToken(o2)] + Flatten(c);
    ParseOfFlatten(e, Lowest);
  }

  /** The case of `Grouping` where `o1`'s node becomes the left operand. */
  lemma GroupLeft(a: Expr, o1: TokenKind, b: Expr, o2: TokenKind, c: Expr)
    requires IsPrimary(a) && IsPrimary(b) && IsPrimary(c)
    requires Canonical(a, Lowest) && Canonical(b, Lowest) && Canonical(c, Lowest)
    requires IsInfixOperator(o1) && IsInfixOperator(o2) && BindingPower(o2) <= BindingPower(o1)
    ensures
      var ts := Flatten(a) + [OperatorToken(o1)] + Flatten(b) + [OperatorToken(o2)] + Flatten(c) + [EofToken];
      ExprAt(ts, 0, Lowest) == Parsed(BinaryExpr(BinaryExpr(a, b, o1), c, o2), |ts| - 1)
  {
    PrimaryCanonical(b, BindingPower(o1));
    PrimaryCanonical(c, BindingPower(o2));
    var e := BinaryExpr(BinaryExpr(a, b, o1), c, o2);
    assert Canonical(e, Lowest);
    assert Flatten(e) == Flatten(a) + [OperatorToken(o1)] + Flatten(b) + [OperatorToken(o2)] + Flatten(c);
    ParseOfFlatten(e, Lowest);
  }

  // ---------------------------------------------------------------------
  // Type annotations and parameter lists.
  // ---------------------------------------------------------------------

  /** The tokens that spell a type annotation. */
  function TypeTokens(t: TypeAnn): seq<Token> {
    match t
    case ImplicitType => []
    case CustomType(name) => [Token(Identifier, Some(name))]
    case ArrayType(element) => [Token(Lsb, Some("["))] + TypeTokens(element) + [Token(Rsb, Some("]"))]
  }

  /** The annotations `Type()` can build: no implicit type inside. */
  predicate IsWrittenType(t: TypeAnn) {
    match t
    case ImplicitType => false
    case CustomType(_) => true
    case ArrayType(element) => IsWrittenType(element)
  }

  /** `Type()` reads every written annotation back from its tokens. */
  lemma {:induction false} TypeRoundTrip(t: TypeAnn, ts: seq<Token>, i: nat)
    requires IsWrittenType(t) && Spells(ts, i, TypeTokens(t))
    ensures TypeAt(ts, i) == Parsed(t, i + |TypeTokens(t)|)
  {
    match t
    case CustomType(name) =>
    case ArrayType(element) =>
      SpellsEnclosed(ts, i, Token(Lsb, Some("[")), TypeTokens(element), Token(Rsb, Some("]")));
      TypeRoundTrip(element, ts, i + 1);
  }

  /** Everything `Type()` returns is a written annotation, and it consumes
      exactly that annotation's tokens, kind for kind. */
  lemma {:induction false} TypeSound(ts: seq<Token>, i: nat)
    requires i <= |ts|
    ensures KindAt(ts, i) != Lsb && KindAt(ts, i) != Identifier ==>
      TypeAt(ts, i) == Failed(UnknownType(KindAt(ts, i)))
    ensures TypeAt(ts, i).Parsed? ==>
      && IsWrittenType(TypeAt(ts, i).value)
      && TypeAt(ts, i).next == i + |TypeTokens(TypeAt(ts, i).value)|
      && MatchesKinds(ts, i, TypeTokens(TypeAt(ts, i).value))
    decreases |ts| - i
  {
    if KindAt(ts, i) == Lsb {
      TypeSound(ts, i + 1);
      var inner := TypeAt(ts, i + 1);
      if inner.Parsed? && KindAt(ts, inner.next) == Rsb {
        var open := [Token(Lsb, Some("["))];
        var close := [Token(Rsb, Some("]"))];
        MatchesAppend(ts, i, open, TypeTokens(inner.value));
        MatchesAppend(ts, i, open + TypeTokens(inner.value), close);
        assert TypeTokens(ArrayType(inner.value)) == open + TypeTokens(inner.value) + close;
      }
    }
  }

  /** The tokens of one parameter entry, `name : T`. */
  function EntryTokens(p: ParamEntry): seq<Token> {
    [Token(Identifier, Some(p.name)), Token(Colon, Some(":"))] + TypeTokens(p.paramType)
  }

  /** The tokens of a parameter list without its parentheses: the entries
      one after the other, with nothing between them. */
  function ParamTokens(ps: seq<ParamEntry>): seq<Token> {
    if ps == [] then [] else EntryTokens(ps[0]) + ParamTokens(ps[1..])
  }

  /** One turn of `parameters()` reads one entry back. */
  lemma EntryRoundTrip(p: ParamEntry, acc: seq<ParamEntry>, ts: seq<Token>, i: nat)
    requires IsWrittenType(p.paramType) && Spells(ts, i, EntryTokens(p))
    ensures ParametersAt(ts, i, acc) == ParametersAt(ts, i + |EntryTokens(p)|, acc + [p])
  {
    var head := [Token(Identifier, Some(p.name)), Token(Colon, Some(":"))];
    SpellsSplit(ts, i, head, TypeTokens(p.paramType));
    assert head[1..] == [Token(Colon, Some(":"))];
    TypeRoundTrip(p.paramType, ts, i + 2);
    ParametersStep(ts, i, acc, p.paramType, i + 2 + |TypeTokens(p.paramType)|);
  }

  /** Every entry's annotation is a written one. */
  predicate AllWritten(ps: seq<ParamEntry>) {
    ps == [] || (IsWrittenType(ps[0].paramType) && AllWritten(ps[1..]))
  }

  /** The closing `)` ends the list with the entries read so far. */
  lemma ParametersEnd(acc: seq<ParamEntry>, ts: seq<Token>, i: nat)
    requires Spells(ts, i, [Token(RParen, Some(")"))])
    ensures ParametersAt(ts, i, acc) == Parsed(acc, i + 1)
  {
    assert KindAt(ts, i) == RParen;
  }

  lemma AppendAssoc<T>(a: seq<T>, b: seq<T>, c: seq<T>)
    ensures (a + b) + c == a + (b + c)
  {
  }

  /** The tokens of a non-empty list: its first entry's, then the rest's. */
  lemma ParamTokensCons(ps: seq<ParamEntry>, close: seq<Token>, acc: seq<ParamEntry>)
    requires ps != []
    ensures ParamTokens(ps) + close == EntryTokens(ps[0]) + (ParamTokens(ps[1..]) + close)
    ensures |ParamTokens(ps)| == |EntryTokens(ps[0])| + |ParamTokens(ps[1..])|
    ensures acc + [ps[0]] + ps[1..] == acc + ps
  {
    assert ParamTokens(ps) == EntryTokens(ps[0]) + ParamTokens(ps[1..]);
    AppendAssoc(EntryTokens(ps[0]), ParamTokens(ps[1..]), close);
    AppendAssoc(acc, [ps[0]], ps[1..]);
    assert [ps[0]] + ps[1..] == ps;
  }

  /** The tokens of a non-empty list, split after its first entry. */
  lemma ParametersSplit(ps: seq<ParamEntry>, ts: seq<Token>, i: nat)
    requires ps != [] && AllWritten(ps)
    requires Spells(ts, i, ParamTokens(ps) + [Token(RParen, Some(")"))])
    ensures IsWrittenType(ps[0].paramType) && AllWritten(ps[1..])
    ensures Spells(ts, i, EntryTokens(ps[0]))
    ensures Spells(ts, i + |EntryTokens(ps[0])|, ParamTokens(ps[1..]) + [Token(RParen, Some(")"))])
  {
    var close := [Token(RParen, Some(")"))];
    ParamTokensCons(ps, close, []);
    SpellsSplit(ts, i, EntryTokens(ps[0]), ParamTokens(ps[1..]) + close);
  }

  /** One entry `p`, then whatever the rest of the list reads back to. */
  lemma ParametersCons(p: ParamEntry, acc: seq<ParamEntry>, ts: seq<Token>, i: nat, r: ParseResult<seq<ParamEntry>>)
    requires IsWrittenType(p.paramType) && Spells(ts, i, EntryTokens(p))
    requires ParametersAt(ts, i + |EntryTokens(p)|, acc + [p]) == r
    ensures ParametersAt(ts, i, acc) == r
  {
    EntryRoundTrip(p, acc, ts, i);
  }

  /** The first entry read back, then the rest as the recursive call read it. */
  lemma ParametersJoin(ps: seq<ParamEntry>, acc: seq<ParamEntry>, ts: seq<Token>, i: nat)
    requires ps != [] && IsWrittenType(ps[0].paramType) && Spells(ts, i, EntryTokens(ps[0]))
    requires ParametersAt(ts, i + |EntryTokens(ps[0])|, acc + [ps[0]])
             == Parsed(acc + [ps[0]] + ps[1..], i + |EntryTokens(ps[0])| + |ParamTokens(ps[1..])| + 1)
    ensures ParametersAt(ts, i, acc) == Parsed(acc + ps, i + |ParamTokens(ps)| + 1)
  {
    ParamTokensCons(ps, [], acc);
    ParametersCons(ps[0], acc, ts, i, Parsed(acc + ps, i + |ParamTokens(ps)| + 1));
  }

  /** `parameters()` reads back every list of written entries followed by
      `)`, appending them in order after the entries already read. */
  lemma {:induction false} ParametersRoundTrip(ps: seq<ParamEntry>, acc: seq<ParamEntry>, ts: seq<Token>, i: nat)
    requires AllWritten(ps)
    requires Spells(ts, i, ParamTokens(ps) + [Token(RParen, Some(")"))])
    ensures ParametersAt(ts, i, acc) == Parsed(acc + ps, i + |ParamTokens(ps)| + 1)
    decreases |ps|
  {
    if ps == [] {
      assert ParamTokens(ps) + [Token(RParen, Some(")"))] == [Token(RParen, Some(")"))];
      ParametersEnd(acc, ts, i);
      assert acc + ps == acc;
    } else {
      ParametersSplit(ps, ts, i);
      ParametersRoundTrip(ps[1..], acc + [ps[0]], ts, i + |EntryTokens(ps[0])|);
      ParametersJoin(ps, acc, ts, i);
    }
  }

  /** A comma after a parameter entry is an error: `parameters()` wants
      the next name or `)` there. */
  lemma CommaBetweenParameters(p: ParamEntry, acc: seq<ParamEntry>, ts: seq<Token>, i: nat)
    requires IsWrittenType(p.paramType) && Spells(ts, i, EntryTokens(p) + [Token(Comma, Some(","))])
    ensures ParametersAt(ts, i, acc) == Failed(Expected(Identifier, Comma))
  {
    SpellsSplit(ts, i, EntryTokens(p), [Token(Comma, Some(","))]);
    EntryRoundTrip(p, acc, ts, i);
  }

  // ---------------------------------------------------------------------
  // Declarations.
  // ---------------------------------------------------------------------

  /** A declaration after `let` or `const`: the statement is a variable
      declaration of the name that follows, constant exactly after `const`;
      its type is the one read after a `:` that follows the name, and the
      implicit type without one; its value is the expression read after an
      `=` that follows the optional type, and `UndefinedExpr` without one,
      the `;` coming straight after; and it ends with the `;` it consumed. */
  lemma DeclarationShape(ts: seq<Token>, i: nat)
    requires i <= |ts| && (KindAt(ts, i) == KLet || KindAt(ts, i) == KConst)
    ensures ProgramAt(ts, i).Parsed? ==>
      var d := ProgramAt(ts, i).value;
      var end := ProgramAt(ts, i).next;
      && d.VariableStmt?
      && d.name == TextAt(ts, i + 1)
      && d.isConst == (KindAt(ts, i) == KConst)
      && i + 2 <= |ts| && OptionalTypeAt(ts, i + 2).Parsed?
      && (KindAt(ts, i + 2) != Colon ==> d.varType == ImplicitType)
      && (KindAt(ts, i + 2) == Colon ==>
            i + 3 <= |ts| && TypeAt(ts, i + 3) == Parsed(d.varType, OptionalTypeAt(ts, i + 2).next))
      && (var j := OptionalTypeAt(ts, i + 2).next;
          && (KindAt(ts, j) != Equals ==> d.value == UndefinedExpr && end == j + 1)
          && (KindAt(ts, j) == Equals ==> j + 1 <= |ts| && ExprAt(ts, j + 1, Lowest) == Parsed(d.value, end - 1)))
      && KindAt(ts, end - 1) == Semi
  {
    var isConst := KindAt(ts, i) == KConst;
    assert ProgramAt(ts, i) == VariableDeclAt(ts, i + 1, isConst);
    if KindAt(ts, i + 1) == Identifier && OptionalTypeAt(ts, i + 2).Parsed? {
      var j := OptionalTypeAt(ts, i + 2).next;
      var t := OptionalTypeAt(ts, i + 2).value;
      assert VariableDeclAt(ts, i + 1, isConst) == VariableDeclRestAt(ts, j, TextAt(ts, i + 1), isConst, t);
    }
  }

  // ---------------------------------------------------------------------
  // Where the statement loops stop.
  // ---------------------------------------------------------------------

  /** `parse()` stops at the first EOF token it reaches between statements
      and does not consume it. */
  lemma {:induction false} ParseStopsAtEof(ts: seq<Token>, i: nat, acc: seq<Stmt>)
    requires i <= |ts|
    ensures ParseAt(ts, i, acc).Parsed? ==>
      KindAt(ts, ParseAt(ts, i, acc).next) == Eof && ParseAt(ts, i, acc).value.CompoundStmt?
    decreases |ts| - i
  {
    if KindAt(ts, i) != Eof {
      var p := ProgramAt(ts, i);
      if p.Parsed? {
        ParseStopsAtEof(ts, p.next, acc + [p.value]);
        assert ParseAt(ts, i, acc) == ParseAt(ts, p.next, acc + [p.value]);
      } else {
        assert ParseAt(ts, i, acc) == Failed(p.error);
      }
    }
  }

  /** A block ends just after the `}` that closes it. */
  lemma {:induction false} BodyEndsWithBrace(ts: seq<Token>, i: nat, acc: seq<Stmt>)
    requires i <= |ts|
    ensures BodyAt(ts, i, acc).Parsed? ==>
      KindAt(ts, BodyAt(ts, i, acc).next - 1) == Rcb && BodyAt(ts, i, acc).value.CompoundStmt?
    decreases |ts| - i
  {
    if KindAt(ts, i) == Rcb {
      assert BodyAt(ts, i, acc) == Parsed(CompoundStmt(acc), i + 1);
    } else {
      var p := ProgramAt(ts, i);
      if p.Parsed? {
        BodyEndsWithBrace(ts, p.next, acc + [p.value]);
        assert BodyAt(ts, i, acc) == BodyAt(ts, p.next, acc + [p.value]);
      } else {
        assert BodyAt(ts, i, acc) == Failed(p.error);
      }
    }
  }
}
