/**
 * The Pratt parser of frontend/parser.ts over an arbitrary token sequence.
 *
 * Each parsing routine has a specification function `XAt(ts, i, ...)`: the
 * outcome of running the routine with the cursor at index `i` of `ts`,
 * either the value built and the index the cursor ends at, or the error
 * that stops the parse. The methods of `class Parser` run the routines on
 * the object's cursor and are proved to compute those functions.
 *
 * Every routine advances the cursor only past a token that is not EOF, and
 * a token that is not EOF sits inside the array, so the number of tokens
 * left after the cursor decreases at each step.
 */
module Parsing {
  import opened Wrappers
  import opened JsText
  import opened Tokens
  import opened Helper

  // The `Bp` enum. Higher numbers bind tighter.
  const Lowest: nat := 0
  const Multiplicative: nat := 10
  const Additive: nat := 20
  const Xor: nat := 30
  const Xand: nat := 40
  const Equality: nat := 50
  const LogicalAnd: nat := 60
  const LogicalOr: nat := 70
  const Assignment: nat := 60

  /** The kinds `getBindingPower` gives a power above `LOWEST`. */
  predicate IsInfixOperator(k: TokenKind) {
    k in {Plus, Dash, Slash, Star, PlusEquals, MinusEquals, Equals, EqualsEquals, BangEquals, BitOr, BitAnd, And, Or}
  }

  /** `getBindingPower(type)`. */
  function BindingPower(k: TokenKind): (bp: nat)
    ensures bp != Lowest <==> IsInfixOperator(k)
    ensures bp <= LogicalOr
  {
    match k
    case Plus => Additive
    case Dash => Additive
    case Slash => Multiplicative
    case Star => Multiplicative
    case PlusEquals => Assignment
    case MinusEquals => Assignment
    case Equals => Assignment
    case EqualsEquals => Equality
    case BangEquals => Equality
    case BitOr => Xor
    case BitAnd => Xand
    case And => LogicalAnd
    case Or => LogicalOr
    case _ => Lowest
  }

  /** The type annotation nodes. */
  datatype TypeAnn = ImplicitType | CustomType(name: string) | ArrayType(element: TypeAnn)

  /** One `Param.add(type, name)` entry; a parameter list keeps them in order. */
  datatype ParamEntry = ParamEntry(paramType: TypeAnn, name: string)

  /** The statement nodes, with the fields their constructors receive. */
  datatype Stmt =
    | CompoundStmt(body: seq<Stmt>)
    | VariableStmt(name: string, value: Expr, isConst: bool, varType: TypeAnn)
    | EmptyStmt
    | ReturnStmt(value: Expr)
    | ExprStmt(expression: Expr)
    | FunctionStmt(name: string, params: seq<ParamEntry>, returnType: TypeAnn, functionBody: Stmt)

  /** Why a `ParserError` is thrown: `consume` met another kind, `nud` met a
      token that starts no expression, or `Type` met a token that starts no
      type. */
  datatype ParseError =
    | Expected(expected: TokenKind, found: TokenKind)
    | UnexpectedToken(found: TokenKind)
    | UnknownType(found: TokenKind)

  /** A routine's outcome: what it built and where it left the cursor, or
      the error it threw. */
  datatype ParseResult<+T> = Parsed(value: T, next: nat) | Failed(error: ParseError)

  /** The token at index `i`: past the end of the array `advance` supplies
      an EOF token with empty text. */
  function At(ts: seq<Token>, i: nat): Token {
    if i < |ts| then ts[i] else Token(Eof, Some(""))
  }

  function KindAt(ts: seq<Token>, i: nat): TokenKind {
    At(ts, i).kind
  }

  /** `currentToken.value ?? ""`. */
  function TextAt(ts: seq<Token>, i: nat): string {
    At(ts, i).text.GetOr("")
  }

  // ---------------------------------------------------------------------
  // Specification functions. The second component of `decreases` orders
  // the routines that can call each other without consuming a token.
  // ---------------------------------------------------------------------

  /** `Type()`: `[T]` is an array type, an identifier a named type. */
  function TypeAt(ts: seq<Token>, i: nat): (r: ParseResult<TypeAnn>)
    requires i <= |ts|
    ensures r.Parsed? ==> i < r.next <= |ts|
    decreases |ts| - i
  {
    match KindAt(ts, i)
    case Lsb =>
      (match TypeAt(ts, i + 1)
       case Failed(e) => Failed(e)
       case Parsed(t, j) =>
         if KindAt(ts, j) != Rsb then Failed(Expected(Rsb, KindAt(ts, j)))
         else Parsed(ArrayType(t), j + 1))
    case Identifier => Parsed(CustomType(TextAt(ts, i)), i + 1)
    case _ => Failed(UnknownType(KindAt(ts, i)))
  }

  /** An optional `: T`, the implicit type when there is no colon. */
  function OptionalTypeAt(ts: seq<Token>, i: nat): (r: ParseResult<TypeAnn>)
    requires i <= |ts|
    ensures r.Parsed? ==> i <= r.next <= |ts|
  {
    if KindAt(ts, i) == Colon then TypeAt(ts, i + 1) else Parsed(ImplicitType, i)
  }

  /** `parameters()`, after `(`: `name : T` entries, with no separator,
      until `)`, with `acc` the entries already read. */
  function ParametersAt(ts: seq<Token>, i: nat, acc: seq<ParamEntry>): (r: ParseResult<seq<ParamEntry>>)
    requires i <= |ts|
    ensures r.Parsed? ==> i < r.next <= |ts|
    decreases |ts| - i
  {
    if KindAt(ts, i) == RParen then Parsed(acc, i + 1)
    else if KindAt(ts, i) != Identifier then Failed(Expected(Identifier, KindAt(ts, i)))
    else if KindAt(ts, i + 1) != Colon then Failed(Expected(Colon, KindAt(ts, i + 1)))
    else match TypeAt(ts, i + 2)
      case Failed(e) => Failed(e)
      case Parsed(t, j) => ParametersAt(ts, j, acc + [ParamEntry(t, TextAt(ts, i))])
  }

  /** `expr(bp)`: a primary, then the loop of `ExprLoopAt`. */
  function ExprAt(ts: seq<Token>, i: nat, bp: nat): (r: ParseResult<Expr>)
    requires i <= |ts|
    ensures r.Parsed? ==> i < r.next <= |ts|
    decreases |ts| - i, 3
  {
    match NudAt(ts, i)
    case Failed(e) => Failed(e)
    case Parsed(left, j) => ExprLoopAt(ts, j, bp, left)
  }

  /** The `while` loop of `expr(bp)` with `left` built so far: `led` runs
      while the current token binds strictly tighter than `bp`. */
  function ExprLoopAt(ts: seq<Token>, j: nat, bp: nat, left: Expr): (r: ParseResult<Expr>)
    requires j <= |ts|
    ensures r.Parsed? ==> j <= r.next <= |ts|
    decreases |ts| - j, 2
  {
    if BindingPower(KindAt(ts, j)) > bp then
      match LedAt(ts, j, left)
      case Failed(e) => Failed(e)
      case Parsed(combined, k) => ExprLoopAt(ts, k, bp, combined)
    else Parsed(left, j)
  }

  /** `nud()`: a parenthesised expression, an identifier or a number. */
  function NudAt(ts: seq<Token>, i: nat): (r: ParseResult<Expr>)
    requires i <= |ts|
    ensures r.Parsed? ==> i < r.next <= |ts|
    decreases |ts| - i, 2
  {
    match KindAt(ts, i)
    case LParen =>
      (match ExprAt(ts, i + 1, Lowest)
       case Failed(e) => Failed(e)
       case Parsed(inner, j) =>
         if KindAt(ts, j) != RParen then Failed(Expected(RParen, KindAt(ts, j)))
         else Parsed(ParenthesizedExpr(inner), j + 1))
    case Identifier => Parsed(StringExpr(TextAt(ts, i)), i + 1)
    case Number => Parsed(NumericExpr(ParseInt(TextAt(ts, i))), i + 1)
    case _ => Failed(UnexpectedToken(KindAt(ts, i)))
  }

  /** `led(left)`: the operator at `j`, then a right operand parsed at the
      operator's own binding power. */
  function LedAt(ts: seq<Token>, j: nat, left: Expr): (r: ParseResult<Expr>)
    requires j < |ts|
    ensures r.Parsed? ==> j < r.next <= |ts|
    decreases |ts| - j, 1
  {
    var op := KindAt(ts, j);
    match ExprAt(ts, j + 1, BindingPower(op))
    case Failed(e) => Failed(e)
    case Parsed(right, k) => Parsed(BinaryExpr(left, right, op), k)
  }

  /** `stmt()`: an expression and a `;`. */
  function StmtAt(ts: seq<Token>, i: nat): (r: ParseResult<Stmt>)
    requires i <= |ts|
    ensures r.Parsed? ==> i < r.next <= |ts|
    decreases |ts| - i, 4
  {
    match ExprAt(ts, i, Lowest)
    case Failed(e) => Failed(e)
    case Parsed(x, j) =>
      if KindAt(ts, j) != Semi then Failed(Expected(Semi, KindAt(ts, j)))
      else Parsed(ExprStmt(x), j + 1)
  }

  /** `variableDecl(isConst)`, after `let` or `const`: a name, an optional
      `: T`, then the rest. */
  function VariableDeclAt(ts: seq<Token>, i: nat, isConst: bool): (r: ParseResult<Stmt>)
    requires i <= |ts|
    ensures r.Parsed? ==> i < r.next <= |ts|
    decreases |ts| - i, 6
  {
    if KindAt(ts, i) != Identifier then Failed(Expected(Identifier, KindAt(ts, i)))
    else match OptionalTypeAt(ts, i + 1)
      case Failed(e) => Failed(e)
      case Parsed(t, j) => VariableDeclRestAt(ts, j, TextAt(ts, i), isConst, t)
  }

  /** The rest of a declaration: an optional `= e` and a `;`. */
  function VariableDeclRestAt(ts: seq<Token>, j: nat, name: string, isConst: bool, t: TypeAnn): (r: ParseResult<Stmt>)
    requires j <= |ts|
    ensures r.Parsed? ==> j < r.next <= |ts|
    decreases |ts| - j, 5
  {
    match InitializerAt(ts, j)
    case Failed(e) => Failed(e)
    case Parsed(x, k) =>
      if KindAt(ts, k) != Semi then Failed(Expected(Semi, KindAt(ts, k)))
      else Parsed(VariableStmt(name, x, isConst, t), k + 1)
  }

  /** The optional `= e` of a declaration, `UndefinedExpr` when there is
      no `=`. */
  function InitializerAt(ts: seq<Token>, j: nat): (r: ParseResult<Expr>)
    requires j <= |ts|
    ensures r.Parsed? ==> j <= r.next <= |ts|
    decreases |ts| - j, 4
  {
    if KindAt(ts, j) == Equals then ExprAt(ts, j + 1, Lowest) else Parsed(UndefinedExpr, j)
  }

  /** `functionDecl()`, after `def`: a name, `(` and the parameters, then
      the rest. */
  function FunctionDeclAt(ts: seq<Token>, i: nat): (r: ParseResult<Stmt>)
    requires i <= |ts|
    ensures r.Parsed? ==> i < r.next <= |ts|
    decreases |ts| - i, 6
  {
    if KindAt(ts, i) != Identifier then Failed(Expected(Identifier, KindAt(ts, i)))
    else if KindAt(ts, i + 1) != LParen then Failed(Expected(LParen, KindAt(ts, i + 1)))
    else match ParametersAt(ts, i + 2, [])
      case Failed(e) => Failed(e)
      case Parsed(ps, j) => FunctionDeclRestAt(ts, j, TextAt(ts, i), ps)
  }

  /** The rest of a function declaration: an optional `: T`, `{` and the
      body. */
  function FunctionDeclRestAt(ts: seq<Token>, j: nat, name: string, ps: seq<ParamEntry>): (r: ParseResult<Stmt>)
    requires j <= |ts|
    ensures r.Parsed? ==> j < r.next <= |ts|
    decreases |ts| - j, 5
  {
    match OptionalTypeAt(ts, j)
    case Failed(e) => Failed(e)
    case Parsed(t, k) =>
      if KindAt(ts, k) != Lcb then Failed(Expected(Lcb, KindAt(ts, k)))
      else match BodyAt(ts, k + 1, [])
        case Failed(e) => Failed(e)
        case Parsed(body, m) => Parsed(FunctionStmt(name, ps, t, body), m)
  }

  /** `program()`: dispatch on the current token. */
  function ProgramAt(ts: seq<Token>, i: nat): (r: ParseResult<Stmt>)
    requires i <= |ts|
    ensures r.Parsed? ==> i < r.next <= |ts|
    decreases |ts| - i, 7
  {
    var k := KindAt(ts, i);
    if k == KLet then VariableDeclAt(ts, i + 1, false)
    else if k == KConst then VariableDeclAt(ts, i + 1, true)
    else if k == Semi then Parsed(EmptyStmt, i + 1)
    else if k == Lcb then BodyAt(ts, i + 1, [])
    else if k == KDef then FunctionDeclAt(ts, i + 1)
    else if k == KReturn then ReturnAt(ts, i + 1)
    else StmtAt(ts, i)
  }

  /** The `return` branch of `program()`, after `return`: an expression and
      a `;`. */
  function ReturnAt(ts: seq<Token>, i: nat): (r: ParseResult<Stmt>)
    requires i <= |ts|
    ensures r.Parsed? ==> i < r.next <= |ts|
    decreases |ts| - i, 4
  {
    match ExprAt(ts, i, Lowest)
    case Failed(e) => Failed(e)
    case Parsed(x, j) =>
      if KindAt(ts, j) != Semi then Failed(Expected(Semi, KindAt(ts, j)))
      else Parsed(ReturnStmt(x), j + 1)
  }

  /** `bodyStmt()`, after `{`: statements until `}`, with `acc` the
      statements already read. Its second check for `}` can never fail: the
      loop only ends on `}`. */
  function BodyAt(ts: seq<Token>, i: nat, acc: seq<Stmt>): (r: ParseResult<Stmt>)
    requires i <= |ts|
    ensures r.Parsed? ==> i < r.next <= |ts|
    decreases |ts| - i, 8
  {
    if KindAt(ts, i) == Rcb then Parsed(CompoundStmt(acc), i + 1)
    else match ProgramAt(ts, i)
      case Failed(e) => Failed(e)
      case Parsed(s, j) => BodyAt(ts, j, acc + [s])
  }

  /** `parse()`: statements until the current token is EOF, which is not
      consumed, with `acc` the statements already read. */
  function ParseAt(ts: seq<Token>, i: nat, acc: seq<Stmt>): (r: ParseResult<Stmt>)
    requires i <= |ts|
    ensures r.Parsed? ==> i <= r.next <= |ts|
    decreases |ts| - i
  {
    if KindAt(ts, i) == Eof then Parsed(CompoundStmt(acc), i)
    else match ProgramAt(ts, i)
      case Failed(e) => Failed(e)
      case Parsed(s, j) => ParseAt(ts, j, acc + [s])
  }

  // ---------------------------------------------------------------------
  // Single steps of the specification functions, as the methods below
  // take them.
  // ---------------------------------------------------------------------

  /** One `name : T` entry of a parameter list. */
  lemma ParametersStep(ts: seq<Token>, i: nat, acc: seq<ParamEntry>, t: TypeAnn, j: nat)
    requires i + 1 < |ts| && KindAt(ts, i) == Identifier && KindAt(ts, i + 1) == Colon
    requires TypeAt(ts, i + 2) == Parsed(t, j)
    ensures ParametersAt(ts, i, acc) == ParametersAt(ts, j, acc + [ParamEntry(t, TextAt(ts, i))])
  {
  }

  /** A function declaration up to its parameter list. */
  lemma FunctionDeclStep(ts: seq<Token>, i: nat, ps: seq<ParamEntry>, j: nat)
    requires i + 1 < |ts| && KindAt(ts, i) == Identifier && KindAt(ts, i + 1) == LParen
    requires ParametersAt(ts, i + 2, []) == Parsed(ps, j)
    ensures FunctionDeclAt(ts, i) == FunctionDeclRestAt(ts, j, TextAt(ts, i), ps)
  {
  }

  // ---------------------------------------------------------------------
  // The parser object.
  // ---------------------------------------------------------------------

  /** The `Parser` class: the token array, the cursor and the current token.
      The array is never written, so it is a constant sequence here. */
  class Parser {
    const tokens: seq<Token>
    var pos: nat
    var current: Token

    /** The current token is the one at the cursor. */
    ghost predicate Valid()
      reads this
    {
      current == At(tokens, pos)
    }

    /** The source reads `tokens[0]` without a check; on an empty array the
        current token is `undefined` and the first use of it throws. */
    constructor(tokens: seq<Token>)
      requires |tokens| > 0
      ensures this.tokens == tokens && pos == 0 && Valid()
    {
      this.tokens := tokens;
      current := tokens[0];
      pos := 0;
    }

    /** `advance()`: one step forward; past the end, an EOF token with
        empty text. */
    method Advance()
      requires Valid()
      modifies this
      ensures pos == old(pos) + 1 && Valid()
      ensures pos < |tokens| ==> current == tokens[pos]
      ensures pos >= |tokens| ==> current == Token(Eof, Some(""))
    {
      pos := pos + 1;
      if pos < |tokens| {
        current := tokens[pos];
      } else {
        current := Token(Eof, Some(""));
      }
    }

    /** `consume(expected)`: an error exactly when the current token has
        another kind, and otherwise one `advance`. */
    method Consume(expected: TokenKind) returns (err: Option<ParseError>)
      requires Valid()
      modifies this
      ensures Valid()
      ensures err.None? <==> old(current).kind == expected
      ensures err.None? ==> pos == old(pos) + 1
      ensures err.Some? ==> err.value == Expected(expected, old(current).kind) && pos == old(pos)
    {
      if current.kind != expected {
        return Some(Expected(expected, current.kind));
      }
      Advance();
      return None;
    }

    /** `Type()`. */
    method Type() returns (r: ParseResult<TypeAnn>)
      requires Valid() && pos <= |tokens|
      modifies this
      ensures Valid() && pos <= |tokens|
      ensures r == TypeAt(tokens, old(pos)) && (r.Parsed? ==> pos == r.next)
      decreases |tokens| - pos
    {
      if current.kind == Lsb {
        Advance();
        var element := Type();
        if element.Failed? {
          return Failed(element.error);
        }
        var err := Consume(Rsb);
        if err.Some? {
          return Failed(err.value);
        }
        return Parsed(ArrayType(element.value), pos);
      } else if current.kind == Identifier {
        var typeName := current.text.GetOr("");
        Advance();
        return Parsed(CustomType(typeName), pos);
      } else {
        return Failed(UnknownType(current.kind));
      }
    }

    /** The optional `: T` of a declaration. */
    method OptionalType() returns (r: ParseResult<TypeAnn>)
      requires Valid() && pos <= |tokens|
      modifies this
      ensures Valid() && pos <= |tokens|
      ensures r == OptionalTypeAt(tokens, old(pos)) && (r.Parsed? ==> pos == r.next)
    {
      if current.kind == Colon {
        Advance();
        r := Type();
      } else {
        r := Parsed(ImplicitType, pos);
      }
    }

    /** `parameters()`: the entries are added in source order. */
    method Parameters() returns (r: ParseResult<seq<ParamEntry>>)
      requires Valid() && pos <= |tokens|
      modifies this
      ensures Valid() && pos <= |tokens|
      ensures r == ParametersAt(tokens, old(pos), []) && (r.Parsed? ==> pos == r.next)
    {
      var parameters: seq<ParamEntry> := [];
      while current.kind != RParen
        invariant Valid() && pos <= |tokens|
        invariant ParametersAt(tokens, pos, parameters) == ParametersAt(tokens, old(pos), [])
        decreases |tokens| - pos
      {
        ghost var start := pos;
        var paramName := current.text.GetOr("");
        var err := Consume(Identifier);
        if err.Some? {
          assert ParametersAt(tokens, start, parameters) == Failed(err.value);
          return Failed(err.value);
        }
        err := Consume(Colon);
        if err.Some? {
          assert ParametersAt(tokens, start, parameters) == Failed(err.value);
          return Failed(err.value);
        }
        var paramType := Type();
        if paramType.Failed? {
          assert ParametersAt(tokens, start, parameters) == Failed(paramType.error);
          return Failed(paramType.error);
        }
        ParametersStep(tokens, start, parameters, paramType.value, pos);
        parameters := parameters + [ParamEntry(paramType.value, paramName)];
      }
      var err := Consume(RParen);
      assert err.None?;
      return Parsed(parameters, pos);
    }

    /** `expr(bp)`. */
    method Expression(bp: nat) returns (r: ParseResult<Expr>)
      requires Valid() && pos <= |tokens|
      modifies this
      ensures Valid() && pos <= |tokens|
      ensures r == ExprAt(tokens, old(pos), bp) && (r.Parsed? ==> pos == r.next)
      decreases |tokens| - pos, 3
    {
      var nud := Nud();
      if nud.Failed? {
        return Failed(nud.error);
      }
      var left := nud.value;
      while BindingPower(current.kind) > bp
        invariant Valid() && old(pos) < pos <= |tokens|
        invariant ExprLoopAt(tokens, pos, bp, left) == ExprAt(tokens, old(pos), bp)
        decreases |tokens| - pos
      {
        var led := Led(left);
        if led.Failed? {
          return Failed(led.error);
        }
        left := led.value;
      }
      return Parsed(left, pos);
    }

    /** `nud()`. */
    method Nud() returns (r: ParseResult<Expr>)
      requires Valid() && pos <= |tokens|
      modifies this
      ensures Valid() && pos <= |tokens|
      ensures r == NudAt(tokens, old(pos)) && (r.Parsed? ==> pos == r.next)
      decreases |tokens| - pos, 2
    {
      if current.kind == LParen {
        Advance();
        var inner := Expression(Lowest);
        if inner.Failed? {
          return Failed(inner.error);
        }
        var err := Consume(RParen);
        if err.Some? {
          return Failed(err.value);
        }
        return Parsed(ParenthesizedExpr(inner.value), pos);
      } else if current.kind == Identifier {
        var exprIdent := StringExpr(current.text.GetOr(""));
        Advance();
        return Parsed(exprIdent, pos);
      } else if current.kind == Number {
        var value := ParseInt(current.text.GetOr(""));
        Advance();
        return Parsed(NumericExpr(value), pos);
      } else {
        return Failed(UnexpectedToken(current.kind));
      }
    }

    /** `led(left)`. */
    method Led(left: Expr) returns (r: ParseResult<Expr>)
      requires Valid() && pos < |tokens|
      modifies this
      ensures Valid() && pos <= |tokens|
      ensures r == LedAt(tokens, old(pos), left) && (r.Parsed? ==> pos == r.next)
      decreases |tokens| - pos, 1
    {
      var operator := current.kind;
      Advance();
      var right := Expression(BindingPower(operator));
      if right.Failed? {
        return Failed(right.error);
      }
      return Parsed(BinaryExpr(left, right.value, operator), pos);
    }

    /** `stmt()`. */
    method Statement() returns (r: ParseResult<Stmt>)
      requires Valid() && pos <= |tokens|
      modifies this
      ensures Valid() && pos <= |tokens|
      ensures r == StmtAt(tokens, old(pos)) && (r.Parsed? ==> pos == r.next)
      decreases |tokens| - pos, 4
    {
      var expression := Expression(Lowest);
      if expression.Failed? {
        return Failed(expression.error);
      }
      var err := Consume(Semi);
      if err.Some? {
        return Failed(err.value);
      }
      return Parsed(ExprStmt(expression.value), pos);
    }

    /** `variableDecl(isConst)`. */
    method VariableDecl(isConst: bool) returns (r: ParseResult<Stmt>)
      requires Valid() && pos <= |tokens|
      modifies this
      ensures Valid() && pos <= |tokens|
      ensures r == VariableDeclAt(tokens, old(pos), isConst) && (r.Parsed? ==> pos == r.next)
      decreases |tokens| - pos, 6
    {
      var name := current.text.GetOr("");
      var err := Consume(Identifier);
      if err.Some? {
        return Failed(err.value);
      }
      var varType := OptionalType();
      if varType.Failed? {
        return Failed(varType.error);
      }
      r := VariableDeclRest(name, isConst, varType.value);
    }

    /** The rest of `variableDecl(isConst)`, after the type: the optional
        initializer and the `;`. */
    method VariableDeclRest(name: string, isConst: bool, varType: TypeAnn) returns (r: ParseResult<Stmt>)
      requires Valid() && pos <= |tokens|
      modifies this
      ensures Valid() && pos <= |tokens|
      ensures r == VariableDeclRestAt(tokens, old(pos), name, isConst, varType) && (r.Parsed? ==> pos == r.next)
      decreases |tokens| - pos, 5
    {
      var value := UndefinedExpr;
      if current.kind == Equals {
        Advance();
        var init := Expression(Lowest);
        if init.Failed? {
          return Failed(init.error);
        }
        value := init.value;
      }
      assert InitializerAt(tokens, old(pos)) == Parsed(value, pos);
      var err := Consume(Semi);
      if err.Some? {
        return Failed(err.value);
      }
      return Parsed(VariableStmt(name, value, isConst, varType), pos);
    }

    /** `functionDecl()`. */
    method FunctionDecl() returns (r: ParseResult<Stmt>)
      requires Valid() && pos <= |tokens|
      modifies this
      ensures Valid() && pos <= |tokens|
      ensures r == FunctionDeclAt(tokens, old(pos)) && (r.Parsed? ==> pos == r.next)
      decreases |tokens| - pos, 6
    {
      var name := current.text.GetOr("");
      var err := Consume(Identifier);
      if err.Some? {
        return Failed(err.value);
      }
      err := Consume(LParen);
      if err.Some? {
        return Failed(err.value);
      }
      var parameters := Parameters();
      if parameters.Failed? {
        return Failed(parameters.error);
      }
      FunctionDeclStep(tokens, old(pos), parameters.value, pos);
      r := FunctionDeclRest(name, parameters.value);
    }

    /** The rest of `functionDecl()`, after the parameter list: the return
        type, `{` and the body. */
    method FunctionDeclRest(name: string, parameters: seq<ParamEntry>) returns (r: ParseResult<Stmt>)
      requires Valid() && pos <= |tokens|
      modifies this
      ensures Valid() && pos <= |tokens|
      ensures r == FunctionDeclRestAt(tokens, old(pos), name, parameters) && (r.Parsed? ==> pos == r.next)
      decreases |tokens| - pos, 5
    {
      var returnType := OptionalType();
      if returnType.Failed? {
        return Failed(returnType.error);
      }
      var err := Consume(Lcb);
      if err.Some? {
        return Failed(err.value);
      }
      var body := BodyStmt();
      if body.Failed? {
        return Failed(body.error);
      }
      return Parsed(FunctionStmt(name, parameters, returnType.value, body.value), pos);
    }

    /** `program()`. */
    method Program() returns (r: ParseResult<Stmt>)
      requires Valid() && pos <= |tokens|
      modifies this
      ensures Valid() && pos <= |tokens|
      ensures r == ProgramAt(tokens, old(pos)) && (r.Parsed? ==> pos == r.next)
      decreases |tokens| - pos, 7
    {
      if current.kind == KLet {
        Advance();
        r := VariableDecl(false);
      } else if current.kind == KConst {
        Advance();
        r := VariableDecl(true);
      } else if current.kind == Semi {
        Advance();
        r := Parsed(EmptyStmt, pos);
      } else if current.kind == Lcb {
        Advance();
        r := BodyStmt();
      } else if current.kind == KDef {
        Advance();
        r := FunctionDecl();
      } else if current.kind == KReturn {
        Advance();
        r := ReturnTail();
      } else {
        r := Statement();
      }
    }

    /** The `return` branch of `program()`, after `return`: the value and
        the `;`. */
    method ReturnTail() returns (r: ParseResult<Stmt>)
      requires Valid() && pos <= |tokens|
      modifies this
      ensures Valid() && pos <= |tokens|
      ensures r == ReturnAt(tokens, old(pos)) && (r.Parsed? ==> pos == r.next)
      decreases |tokens| - pos, 4
    {
      var value := Expression(Lowest);
      if value.Failed? {
        return Failed(value.error);
      }
      var err := Consume(Semi);
      if err.Some? {
        return Failed(err.value);
      }
      return Parsed(ReturnStmt(value.value), pos);
    }

    /** `bodyStmt()`. */
    method BodyStmt() returns (r: ParseResult<Stmt>)
      requires Valid() && pos <= |tokens|
      modifies this
      ensures Valid() && pos <= |tokens|
      ensures r == BodyAt(tokens, old(pos), []) && (r.Parsed? ==> pos == r.next)
      decreases |tokens| - pos, 8
    {
      var body: seq<Stmt> := [];
      while current.kind != Rcb
        invariant Valid() && old(pos) <= pos <= |tokens|
        invariant BodyAt(tokens, pos, body) == BodyAt(tokens, old(pos), [])
        decreases |tokens| - pos
      {
        var s := Program();
        if s.Failed? {
          return Failed(s.error);
        }
        body := body + [s.value];
      }
      Advance();
      return Parsed(CompoundStmt(body), pos);
    }

    /** `parse()`. */
    method Parse() returns (r: ParseResult<Stmt>)
      requires Valid() && pos <= |tokens|
      modifies this
      ensures Valid() && pos <= |tokens|
      ensures r == ParseAt(tokens, old(pos), []) && (r.Parsed? ==> pos == r.next)
    {
      var ast: seq<Stmt> := [];
      while current.kind != Eof
        invariant Valid() && pos <= |tokens|
        invariant ParseAt(tokens, pos, ast) == ParseAt(tokens, old(pos), [])
        decreases |tokens| - pos
      {
        var s := Program();
        if s.Failed? {
          return Failed(s.error);
        }
        ast := ast + [s.value];
      }
      return Parsed(CompoundStmt(ast), pos);
    }
  }
}
