/**
 * The lexer's token handlers and the expression nodes with their
 * `evaluate` (frontend/helper.ts).
 */
module Helper {
  import opened Wrappers
  import opened Tokens
  import opened JsText

  /** The cursor object `{ value: number }` that the lexer shares with its
      handlers, which advance it in place. */
  class Position {
    var value: nat

    constructor(value: nat)
      ensures this.value == value
    {
      this.value := value;
    }
  }

  /** The four handlers; `Default(k)` is the closure `defaultHandler(k)`.
      `KeywordSymbol` is not in the source: it is `symbolHandler` with the
      keyword lookup the parser's keyword branches presuppose, used only by
      the corrected rule table. */
  datatype TokenHandler = Skip | Default(kind: TokenKind) | NumberLiteral | Symbol | KeywordSymbol

  /** The reserved words and the token kinds they stand for. */
  function KeywordKind(s: string): TokenKind {
    if s == "let" then KLet
    else if s == "const" then KConst
    else if s == "def" then KDef
    else if s == "return" then KReturn
    else Identifier
  }

  /** Each keyword kind comes from exactly its own word, and every other
      word is an identifier. */
  lemma KeywordKindIsLookup(s: string)
    ensures KeywordKind(s) == KLet <==> s == "let"
    ensures KeywordKind(s) == KConst <==> s == "const"
    ensures KeywordKind(s) == KDef <==> s == "def"
    ensures KeywordKind(s) == KReturn <==> s == "return"
    ensures !IsKeyword(KeywordKind(s)) ==> KeywordKind(s) == Identifier
  {
  }

  /** The token a handler returns for the matched text `s`, `None` for
      `null`. Only the skip handler returns nothing; every other handler
      returns a token carrying exactly the matched text, of its own kind:
      `NUMBER` for the number handler, `IDENTIFIER` for the symbol handler
      whatever the word (no keyword is recognised), and the looked-up kind
      for the corrected handler. No handler but `Default(Eof)` returns the
      end marker. */
  function Emitted(h: TokenHandler, s: string): (t: Option<Token>)
    ensures t.None? <==> h == Skip
    ensures t.Some? ==> t.value.text == Some(s)
    ensures h.Default? ==> t.value.kind == h.kind
    ensures h == NumberLiteral ==> t.value.kind == Number
    ensures h == Symbol ==> t.value.kind == Identifier
    ensures h == KeywordSymbol ==> t.value.kind == KeywordKind(s)
    ensures t.Some? && t.value.kind == Eof ==> h == Default(Eof)
  {
    match h
    case Skip => None
    case Default(k) => Some(MakeToken(k, s))
    case NumberLiteral => Some(MakeToken(Number, s))
    case Symbol => Some(MakeToken(Identifier, s))
    case KeywordSymbol => Some(MakeToken(KeywordKind(s), s))
  }

  /** `skipHandler`: consume the text, produce nothing. */
  method SkipHandler(s: string, pos: Position) returns (t: Option<Token>)
    modifies pos
    ensures pos.value == old(pos.value) + |s|
    ensures t == None
  {
    pos.value := pos.value + |s|;
    t := None;
  }

  /** `defaultHandler(kind)`: consume the text, produce a `kind` token carrying it. */
  method DefaultHandler(kind: TokenKind, s: string, pos: Position) returns (t: Option<Token>)
    modifies pos
    ensures pos.value == old(pos.value) + |s|
    ensures t == Some(Token(kind, Some(s)))
  {
    pos.value := pos.value + |s|;
    t := Some(MakeToken(kind, s));
  }

  /** `numberHandler`: a NUMBER token carrying the digits. */
  method NumberHandler(s: string, pos: Position) returns (t: Option<Token>)
    modifies pos
    ensures pos.value == old(pos.value) + |s|
    ensures t == Some(Token(Number, Some(s)))
  {
    pos.value := pos.value + |s|;
    t := Some(MakeToken(Number, s));
  }

  /** `symbolHandler`: an IDENTIFIER token carrying the text, whatever it
      spells; there is no keyword lookup. */
  method SymbolHandler(s: string, pos: Position) returns (t: Option<Token>)
    modifies pos
    ensures pos.value == old(pos.value) + |s|
    ensures t == Some(Token(Identifier, Some(s)))
  {
    pos.value := pos.value + |s|;
    t := Some(MakeToken(Identifier, s));
  }

  /** Calling the handler stored in a rule. */
  method Invoke(h: TokenHandler, s: string, pos: Position) returns (t: Option<Token>)
    modifies pos
    ensures pos.value == old(pos.value) + |s|
    ensures t == Emitted(h, s)
  {
    match h
    case Skip => t := SkipHandler(s, pos);
    case Default(k) => t := DefaultHandler(k, s, pos);
    case NumberLiteral => t := NumberHandler(s, pos);
    case Symbol => t := SymbolHandler(s, pos);
    case KeywordSymbol =>
      pos.value := pos.value + |s|;
      t := Some(MakeToken(KeywordKind(s), s));
  }

  /** The expression node classes; `UndefinedExpr` is the placeholder
      initialiser of a declaration without `= e`. */
  datatype Expr =
    | BinaryExpr(left: Expr, right: Expr, op: TokenKind)
    | NumericExpr(number: IntOrNaN)
    | StringExpr(text: string)
    | ParenthesizedExpr(inner: Expr)
    | UndefinedExpr

  /** What `evaluate()` returns, as far as the model follows JavaScript:
      integers, strings, `undefined`, and `NotModelled` for every value that
      needs floating point, NaN or JavaScript's mixed-type coercions. */
  datatype Value = IntValue(n: int) | StringValue(s: string) | UndefinedValue | NotModelled

  predicate IsArithmetic(op: TokenKind) {
    op == Plus || op == Dash || op == Star
  }

  /** `evaluate()` of each node class. A number comes out only of integer
      arithmetic over literals; a string node gives its string; an
      operator outside the `switch` gives `undefined` without evaluating
      its operands. */
  function Evaluate(e: Expr): (v: Value)
    ensures v.IntValue? ==> IsIntegerArithmetic(e)
    ensures e.StringExpr? ==> v == StringValue(e.text)
    ensures e.BinaryExpr? && !IsArithmetic(e.op) && e.op != Slash ==> v == UndefinedValue
  {
    match e
    case NumericExpr(v) => if v.Int? then IntValue(v.value) else NotModelled
    case StringExpr(s) => StringValue(s)
    case ParenthesizedExpr(inner) => Evaluate(inner)
    case UndefinedExpr => NotModelled
    case BinaryExpr(l, r, op) =>
      if IsArithmetic(op) then
        match (Evaluate(l), Evaluate(r))
        case (IntValue(a), IntValue(b)) =>
          IntValue(if op == Plus then a + b else if op == Dash then a - b else a * b)
        case _ => NotModelled
      else if op == Slash then NotModelled
      else UndefinedValue
  }

  /** Integer arithmetic over literals: the expressions on which the model
      of `evaluate` is exact. */
  predicate IsIntegerArithmetic(e: Expr) {
    match e
    case NumericExpr(v) => v.Int?
    case ParenthesizedExpr(inner) => IsIntegerArithmetic(inner)
    case BinaryExpr(l, r, op) => IsArithmetic(op) && IsIntegerArithmetic(l) && IsIntegerArithmetic(r)
    case _ => false
  }

  /** `evaluate` yields a number exactly on integer arithmetic. */
  lemma {:induction false} EvaluateIntegerExactly(e: Expr)
    ensures Evaluate(e).IntValue? <==> IsIntegerArithmetic(e)
  {
    match e
    case ParenthesizedExpr(inner) => EvaluateIntegerExactly(inner);
    case BinaryExpr(l, r, op) =>
      EvaluateIntegerExactly(l);
      EvaluateIntegerExactly(r);
    case _ =>
  }

  /** The tree with every parenthesis node removed. */
  function StripParentheses(e: Expr): Expr {
    match e
    case ParenthesizedExpr(inner) => StripParentheses(inner)
    case BinaryExpr(l, r, op) => BinaryExpr(StripParentheses(l), StripParentheses(r), op)
    case _ => e
  }

  /** A parenthesis node evaluates as its contents, so parentheses never
      change a value; only the tree shape they force does. */
  lemma {:induction false} EvaluateIgnoresParentheses(e: Expr)
    ensures Evaluate(StripParentheses(e)) == Evaluate(e)
  {
    match e
    case ParenthesizedExpr(inner) => EvaluateIgnoresParentheses(inner);
    case BinaryExpr(l, r, op) =>
      EvaluateIgnoresParentheses(l);
      EvaluateIgnoresParentheses(r);
    case _ =>
  }
}
