/**
 * The token vocabulary shared by the lexer and the parser
 * (frontend/lexer.ts:8-49).
 */
module Tokens {
  import opened Wrappers

  /** The `TokenType` enumeration, one constructor per member. */
  datatype TokenKind =
    | Eof | LParen | RParen | Number | Identifier
    | Plus | Equals | Semi | Dash | Slash | Star
    | BitOr | BitAnd | And | Or
    | PlusEquals | MinusEquals | EqualsEquals | BangEquals
    | Colon | Comma | Lsb | Rsb | Lcb | Rcb
    | KLet | KConst | KDef | KReturn

  /** The string each `TokenType` member stands for. */
  function Spelling(k: TokenKind): string {
    match k
    case Eof => "\0"
    case LParen => "("
    case RParen => ")"
    case Number => "number"
    case Identifier => "id"
    case Plus => "+"
    case Equals => "="
    case Semi => ";"
    case Dash => "-"
    case Slash => "/"
    case Star => "*"
    case BitOr => "|"
    case BitAnd => "&"
    case And => "&&"
    case Or => "||"
    case PlusEquals => "+="
    case MinusEquals => "-="
    case EqualsEquals => "=="
    case BangEquals => "!="
    case Colon => ":"
    case Comma => ","
    case Lsb => "["
    case Rsb => "]"
    case Lcb => "{"
    case Rcb => "}"
    case KLet => "let"
    case KConst => "const"
    case KDef => "def"
    case KReturn => "return"
  }

  predicate IsKeyword(k: TokenKind) {
    k == KLet || k == KConst || k == KDef || k == KReturn
  }

  /** A token: its kind and its optional text (`value?: string`). */
  datatype Token = Token(kind: TokenKind, text: Option<string>)

  /** `MakeToken(type, value)`. */
  function MakeToken(kind: TokenKind, text: string): Token {
    Token(kind, Some(text))
  }

  /** The end-of-input token the lexer appends, whose text is the NUL character. */
  const EofToken: Token := Token(Eof, Some("\0"))
}
