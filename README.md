# Front end of terno: lexer and Pratt parser, modelled in Dafny

The model covers the front end of a small experimental language. It has
three parts:

- **The lexer** (`frontend/lexer.ts`) turns source text into tokens using an
  ordered table of regular-expression rules. At each cursor position the
  first rule whose pattern matches at that position wins. The rule's
  handler (`frontend/helper.ts`) moves the shared cursor forward and
  returns a token or nothing. After the loop, an EOF token is appended.
- **The parser** (`frontend/parser.ts`) reads the token array with a cursor.
  It parses expressions by precedence climbing (Pratt parsing), driven by
  `getBindingPower`. It parses `let`/`const` declarations, `def` function
  declarations with parameter lists and type annotations, `return`,
  blocks and expression statements.
- **The expression nodes** (`frontend/helper.ts`) and their `evaluate`.

Modules, one per concern:

| file | module | what |
|---|---|---|
| `wrappers.dfy` | `Wrappers` | `Option` |
| `js_text.dfy` | `JsText` | the JavaScript character classes behind `\s`, `\d` and the identifier rule; the built-in `parseInt` |
| `tokens.dfy` | `Tokens` | the `TokenType` enumeration, `Token`, `MakeToken` |
| `helper.dfy` | `Helper` | the cursor object, the four handlers, the expression nodes and `evaluate` |
| `patterns.dfy` | `Patterns` | the six kinds of pattern in the rule table, as prefix matchers with their languages |
| `lexer.dfy` | `Lexing` | the rule table, the run of `MakeTokens` as a function (`LexFrom`), the class `Lexer` |
| `lexer_properties.dfy` | `LexerProperties` | what the table as written does, and what the corrected table does |
| `parser.dfy` | `Parsing` | the binding-power table, one specification function per parser routine (`ExprAt`, `ProgramAt`, ...), and the class `Parser` whose methods are proved equal to them |
| `parser_properties.dfy` | `ParserProperties` | expression round trip and soundness, types, parameters, declarations, loop ends |
| `statement_properties.dfy` | `StatementProperties` | statements spelled back as tokens; round trips of `program()`, `bodyStmt()` and `parse()`; the shape of a function declaration |
| `parser_examples.dfy` | `ParserExamples` | worked token arrays |
| `pipeline.dfy` | `Pipeline` | lexer and parser together |

How the model is built:

- **Lexer loop.** The source's loop in `MakeTokens` is a method with a
  loop. It is proved equal to the function `LexFrom`, which has three
  outcomes:
  - `Lexed(tokens)`;
  - `LexError(position, character, pushed)`, for the thrown "Unexpected
    character", with the tokens pushed before the throw;
  - `Diverges(position)`, for a turn whose winning match is empty, after
    which the source's loop would repeat forever.
- **Parser routines.** Each parser routine is a method of class `Parser`.
  Its `ensures` says the result and the new cursor equal a function over
  `(tokens, index)`. Every throw of `ParserError` becomes
  `Failed(error)`.
- **Source order.** The modules follow the source files: the handlers and
  nodes of `helper.ts`, the table and loop of `lexer.ts`, the routines of
  `parser.ts`.

## Where the code departs from its evident intent (the model follows the code)

- **Precedence.** The names in `Bp` (`frontend/parser.ts:24-34`) and the
  usual arithmetic precedence suggest that `*` and `/` bind tighter than
  `+` and `-`. But `Bp` gives `MULTIPLICATIVE = 10` and `ADDITIVE = 20`,
  and the loop climbs while the power is strictly greater, so `+` and `-`
  bind tighter. `2 + 2 / 2` builds `(2 + 2) / 2`, not `2 + (2 / 2)`. Proved in
  `ParserExamples.AdditionBindsTighter` and
  `ParserExamples.MultiplicationExample` (`2 * 3 + 4` is `2 * (3 + 4)`,
  which evaluates to 14). This is a decision of the table, not an
  evident slip, so it is not listed under Findings.
- **Keywords.** The token kinds `K_LET`, `K_CONST`, `K_DEF` and
  `K_RETURN` (`frontend/lexer.ts:35-38`) and the keyword branches of
  `program()` (`frontend/parser.ts:112-129`) expect reserved words to
  arrive as keyword tokens. The code's `symbolHandler` always yields
  IDENTIFIER. See Findings.
- **Lexical errors.** The loop throws "Unexpected character" when no rule
  matches (`frontend/lexer.ts:117-123`). As written that throw is
  unreachable, because rule 6 matches the empty string. See Findings.
- **Parameter lists** need no comma, and a comma is an error
  (`ParserProperties.CommaBetweenParameters`).
- **Dead check.** The second `}` check in `bodyStmt`
  (`frontend/parser.ts:142-144`) can never fail.
- **EOF text.** Past the end of the array, `advance` supplies an EOF
  token whose text is `""`. The lexer's own EOF token carries `"\0"`.
- **Node classes.** The statement and type node classes that `parser.ts`
  imports from `helper.ts` (`CompoundStmt`, `VariableStmt`, `Param`,
  `ArrayType`, ...) are not part of this model. They are modelled as
  datatypes holding exactly the fields their constructor calls in
  `parser.ts` pass.

## Model

| member | source | states |
|---|---|---|
| JsText.RunIsLongest | frontend/lexer.ts:76 | the run of class characters that `\s+` (and likewise `\d+` and `[a-zA-Z0-9_]*`) takes holds only characters of the class, and stops at the first character outside it |
| JsText.ParseInt | frontend/parser.ts:253 | `parseInt` of blank text is NaN, and of text starting with a digit other than `0` a non-negative number |
| JsText.ParseIntDecimal | frontend/parser.ts:253 | `parseInt` of a non-empty string of decimal digits (what the number rule hands over) is the decimal value of the digits |
| JsText.ParseIntNumberText | frontend/parser.ts:253 | `parseInt` reads back every value it can return from that value's spelling: `ParseInt(NumberText(v)) == v`, NaN included |
| Helper.KeywordKindIsLookup | frontend/lexer.ts:35-38 | the keyword kinds `K_LET`, `K_CONST`, `K_DEF`, `K_RETURN` come from exactly the words `let`, `const`, `def`, `return`; every other word is an identifier |
| Helper.Emitted | frontend/helper.ts:5-33 | only `skipHandler` returns null; every token a handler returns carries the matched text; `defaultHandler(k)` gives kind `k`, `numberHandler` NUMBER, `symbolHandler` IDENTIFIER; only `defaultHandler(EOF)` could give EOF |
| Helper.SkipHandler | frontend/helper.ts:5-11 | the cursor moves by the text's length and no token is returned |
| Helper.DefaultHandler | frontend/helper.ts:13-17 | the cursor moves by the text's length and a token of the given kind carrying the text is returned |
| Helper.NumberHandler | frontend/helper.ts:19-25 | the cursor moves by the text's length and a NUMBER token carrying the digits is returned |
| Helper.SymbolHandler | frontend/helper.ts:27-33 | the cursor moves by the text's length and an IDENTIFIER token carrying the text is returned, whatever the word |
| Helper.Invoke | frontend/lexer.ts:110 | calling a rule's handler moves the cursor by the match's length and returns that handler's token |
| Helper.Evaluate | frontend/helper.ts:40-91 | a number comes out only of integer `+`, `-`, `*` and parentheses over integer literals; a string node gives its string; an operator outside `+ - * /` gives `undefined`; the other cases are `NotModelled` |
| Helper.EvaluateIntegerExactly | frontend/helper.ts:40-67 | `evaluate` gives an integer exactly on trees of `+`, `-`, `*` and parentheses over integer literals |
| Helper.EvaluateIgnoresParentheses | frontend/helper.ts:85-91 | a parenthesis node evaluates as its contents: removing every parenthesis node never changes the value |
| Patterns.MatchLength | frontend/lexer.ts:108-109 | a match at index 0 of the rest of the text never runs past its end |
| Patterns.MatchIsLongestPrefix | frontend/lexer.ts:75-100 | the match the regular expression reports at the cursor is a prefix in the pattern's language and the longest such prefix; no match means no prefix is in the language |
| Patterns.CommentIsLongest | frontend/lexer.ts:75 | `//.*` matches from `//` up to, not including, the next line terminator or the end |
| Patterns.ClassRunIsLongest | frontend/lexer.ts:99 | `\d+` (and `\s+` at line 76) matches the whole run of its class at the cursor, and nothing when the run is empty |
| Patterns.WordIsLongest | frontend/lexer.ts:100 | the identifier pattern matches an identifier start followed by the longest run of identifier characters |
| Lexing.FirstMatchFrom | frontend/lexer.ts:107-115 | the winning rule is one of those tried, and its match lies inside the text |
| Lexing.FirstMatchIsFirst | frontend/lexer.ts:107-115 | the winner is the first rule, in table order, whose pattern matches at the cursor; no winner exactly when no rule matches |
| Lexing.LexFrom | frontend/lexer.ts:103-128 | the run from a cursor: a normal end keeps the tokens already pushed, adds at least one and ends with the EOF token; a throw names a cursor at or after the start, inside the text, with the character there, and keeps the tokens already pushed; an endless loop names a cursor inside the text |
| Lexing.TurnFrom | frontend/lexer.ts:103-124 | one turn of the loop before the end of the text, with the same three outcomes as `LexFrom` |
| Lexing.Tokenize | frontend/lexer.ts:73-129 | `MakeTokens` on a fresh lexer: a normal end gives at least the EOF token, last; a throw names a cursor inside the text and the character there; an endless loop names a cursor inside the text |
| Lexing.FindRule | frontend/lexer.ts:107-115 | the `for`/`break` loop over the table returns the first matching rule and its match length |
| Lexing.Lexer.constructor | frontend/lexer.ts:64-71 | a new lexer holds the text, no tokens, and a fresh cursor at 0 |
| Lexing.Lexer.MakeTokens | frontend/lexer.ts:73-129 | the loop's outcome is the run of the table from the cursor; a normal end leaves the token array as returned and the cursor at the end of the text; a throw or an endless loop leaves the cursor where it stopped; a throw leaves in the token array the tokens pushed before it |
| LexerProperties.TableShapes | frontend/lexer.ts:74-81 | the table as written starts with the comment and white-space rules, the four two-character operators and the bar-or-empty rule `\\\|\|` of kind `\|\|`; the corrected table shares the first six and does not have that seventh |
| LexerProperties.WinnerAmongFirstSeven | frontend/lexer.ts:81 | with entry 6 written `\\\|\|`, which matches the empty string, some rule among the first seven always wins |
| LexerProperties.LaterRulesUnreachable | frontend/lexer.ts:81-100 | with the table as written, entries 7 to 25 (`&&` through the identifier rule) never win |
| LexerProperties.NoLexErrorFrom | frontend/lexer.ts:117-123 | a table in which some rule matches at every cursor never throws "Unexpected character" |
| LexerProperties.AsWrittenNeverLexError | frontend/lexer.ts:117-123 | with the table as written, the "Unexpected character" throw is unreachable |
| LexerProperties.KindsFrom | frontend/lexer.ts:107-126 | if only rules producing kinds in a set can win, a normal run produces only tokens of those kinds and EOF |
| LexerProperties.AsWrittenKinds | frontend/lexer.ts:74-101 | with the table as written, a run that ends normally yields only `+=`, `-=`, `==`, `!=`, `\|\|` and EOF tokens |
| LexerProperties.EmptyOrWins | frontend/lexer.ts:81 | at a character that starts none of the first six patterns and is not a bar, entry 6 wins with an empty match |
| LexerProperties.AsWrittenDiverges | frontend/lexer.ts:103-124 | with the table as written, the loop never ends once the cursor reaches such a character |
| LexerProperties.AsWrittenDivergesOnDeclaration | frontend/lexer.ts:73-129 | lexing `let x = 5;` with the table as written never ends, stuck at cursor 0 |
| LexerProperties.LexErrorReport | frontend/lexer.ts:117-123 | a reported error names a cursor inside the text and the character there, and no rule matches at that cursor |
| LexerProperties.OneEofFrom | frontend/lexer.ts:103-128 | a normal run keeps the tokens already pushed, and ends with exactly one EOF token, the last one |
| LexerProperties.OneEof | frontend/lexer.ts:126-128 | the token array of a normal run ends with the EOF token, and no earlier token is EOF |
| LexerProperties.TablesHaveNoEofHandler | frontend/lexer.ts:74-101 | no rule of either table produces EOF |
| LexerProperties.SegmentsCoverInput | frontend/lexer.ts:103-124 | on a normal run the texts matched turn by turn are non-empty and, joined, give back the input: every character is consumed once, in order |
| LexerProperties.CommentSkipped | frontend/lexer.ts:75 | a `//` comment is skipped up to the next line terminator, and no token is produced |
| LexerProperties.WhiteSpaceSkipped | frontend/lexer.ts:76 | a run of white space is skipped whole, and no token is produced |
| LexerProperties.TwoCharOperatorWins | frontend/lexer.ts:77-80 | `+=`, `-=`, `==` and `!=` are lexed as single two-character tokens, not as their one-character prefixes |
| LexerProperties.NeverDivergesFrom | frontend/lexer.ts:103-124 | a table whose patterns never match the empty string moves the cursor on every turn, so the loop always ends |
| LexerProperties.IntendedNeverDiverges | frontend/lexer.ts:81 | with entry 6 matching `\|\|` only, lexing always ends, with tokens or with the "Unexpected character" error |
| Parsing.BindingPower | frontend/parser.ts:67-93 | the power is above LOWEST exactly for the infix operators, and never above LOGICAL_OR |
| Parsing.TypeAt | frontend/parser.ts:154-171 | a parsed type consumes at least one token |
| Parsing.ParametersAt | frontend/parser.ts:196-209 | a parsed parameter list consumes at least its `)` |
| Parsing.ExprAt | frontend/parser.ts:95-101 | a parsed expression consumes at least one token |
| Parsing.ProgramAt | frontend/parser.ts:111-134 | a parsed statement consumes at least one token |
| Parsing.Parser.constructor | frontend/parser.ts:43-47 | a new parser is at index 0 with the first token current |
| Parsing.Parser.Advance | frontend/parser.ts:49-56 | the cursor moves by one; the current token is the one there, or an EOF token with text `""` past the end |
| Parsing.Parser.Consume | frontend/parser.ts:58-65 | an error exactly when the current token has another kind, naming both kinds; otherwise one step forward |
| Parsing.Parser.Type | frontend/parser.ts:154-171 | the result and the new cursor are those of `TypeAt` |
| Parsing.Parser.OptionalType | frontend/parser.ts:180-184 | the optional `: T` of a declaration: the result and the new cursor are those of `OptionalTypeAt` |
| Parsing.Parser.Parameters | frontend/parser.ts:196-209 | the loop's result and the new cursor are those of `ParametersAt` |
| Parsing.Parser.Expression | frontend/parser.ts:95-101 | the climbing loop's result and the new cursor are those of `ExprAt` |
| Parsing.Parser.Nud | frontend/parser.ts:236-260 | the result and the new cursor are those of `NudAt` |
| Parsing.Parser.Led | frontend/parser.ts:262-267 | the result and the new cursor are those of `LedAt` |
| Parsing.Parser.Statement | frontend/parser.ts:230-234 | the result and the new cursor are those of `StmtAt` |
| Parsing.Parser.VariableDecl | frontend/parser.ts:173-194 | the result and the new cursor are those of `VariableDeclAt` |
| Parsing.Parser.VariableDeclRest | frontend/parser.ts:186-193 | the initialiser and `;` of a declaration: the result and the new cursor are those of `VariableDeclRestAt` |
| Parsing.Parser.FunctionDecl | frontend/parser.ts:211-228 | the result and the new cursor are those of `FunctionDeclAt`, whose results are described by `StatementProperties.FunctionShape` and `StatementProperties.FunctionRoundTrip` |
| Parsing.Parser.FunctionDeclRest | frontend/parser.ts:217-227 | the return type, `{` and body: the result and the new cursor are those of `FunctionDeclRestAt`, whose results are described by `StatementProperties.FunctionRest` and `StatementProperties.FunctionBody` |
| Parsing.Parser.Program | frontend/parser.ts:111-134 | the result and the new cursor are those of `ProgramAt` |
| Parsing.Parser.ReturnTail | frontend/parser.ts:127-131 | the `return` branch: the result and the new cursor are those of `ReturnAt` |
| Parsing.Parser.BodyStmt | frontend/parser.ts:136-148 | the result and the new cursor are those of `BodyAt` |
| Parsing.Parser.Parse | frontend/parser.ts:103-109 | the result and the new cursor are those of `ParseAt` |
| ParserProperties.NudRoundTrip | frontend/parser.ts:236-260 | `nud` reads a number, identifier or parenthesised expression back from its tokens |
| ParserProperties.LeftSpine | frontend/parser.ts:95-101 | the tokens of a tree on the left spine are read back as that tree, with the loop still running after it |
| ParserProperties.ExprRoundTrip | frontend/parser.ts:95-101 | `expr(bp)` reads every tree canonical at `bp` back from its tokens, when what follows binds no tighter than `bp` |
| ParserProperties.ParseOfFlatten | frontend/parser.ts:95-101 | the tokens of a canonical tree followed by EOF parse back to that tree |
| ParserProperties.FlattenInjective | frontend/parser.ts:95-101 | two canonical trees are never spelled by the same tokens |
| ParserProperties.NudSound | frontend/parser.ts:236-260 | what `nud` returns is a canonical primary, and it consumes exactly that primary's tokens, kind for kind |
| ParserProperties.LoopSound | frontend/parser.ts:97-99 | the climbing loop returns a canonical tree, consumes exactly its tokens and stops at a token that binds no tighter than `bp` |
| ParserProperties.ExprSound | frontend/parser.ts:95-101 | everything `expr(bp)` returns is canonical at `bp`, consumes exactly its tokens, and stops where the next token binds no tighter |
| ParserProperties.Grouping | frontend/parser.ts:95-101 | in `a o1 b o2 c`, `o2` takes `b` exactly when it binds strictly tighter than `o1`; otherwise the grouping is to the left |
| ParserProperties.TypeRoundTrip | frontend/parser.ts:154-171 | `Type()` reads every written annotation (`[T]`, a name) back from its tokens |
| ParserProperties.TypeSound | frontend/parser.ts:154-171 | `Type()` fails with "Unknown Type" exactly at a token that is neither `[` nor an identifier; what it returns is a written annotation, with exactly its tokens consumed |
| ParserProperties.EntryRoundTrip | frontend/parser.ts:198-205 | one loop turn reads one `name : T` entry back and appends it |
| ParserProperties.ParametersRoundTrip | frontend/parser.ts:196-209 | `parameters()` reads back every list of `name : T` entries followed by `)`, in order |
| ParserProperties.CommaBetweenParameters | frontend/parser.ts:198-201 | a comma after an entry is an error: an identifier was expected |
| ParserProperties.DeclarationShape | frontend/parser.ts:112-117 | after `let`/`const`: a variable declaration of the following name, constant exactly after `const`; its type is what `Type()` reads after a `:`, implicit without one; its value is what `expr()` reads after an `=`, and `UndefinedExpr` without one with the `;` straight after; it ends at the `;` |
| ParserProperties.ParseStopsAtEof | frontend/parser.ts:103-109 | `parse()` returns a block and stops at an EOF token without consuming it |
| ParserProperties.BodyEndsWithBrace | frontend/parser.ts:136-148 | `bodyStmt()` returns a block and ends just after the `}` that closes it |
| StatementProperties.AnnotationRoundTrip | frontend/parser.ts:180-184 | the optional `: T` is read back from its tokens, implicit when there is none, and the cursor stops in front of what follows |
| StatementProperties.InitializerRoundTrip | frontend/parser.ts:186-190 | the optional `= e` is read back from its tokens, `UndefinedExpr` when there is none, and the `;` follows |
| StatementProperties.DeclRoundTrip | frontend/parser.ts:173-194 | every declaration, with or without `: T` and `= e`, is read back by `program()` from its tokens, up to and including its `;` |
| StatementProperties.ExprStmtRoundTrip | frontend/parser.ts:230-234 | `e;` is read back as an expression statement of that canonical tree |
| StatementProperties.ReturnRoundTrip | frontend/parser.ts:127-131 | `return e;` is read back as a return statement of that canonical tree |
| StatementProperties.StmtRoundTrip | frontend/parser.ts:111-134 | `program()` reads every well-formed statement (block, declaration, `;`, `return`, expression, function) back from its tokens, consuming exactly them |
| StatementProperties.BlockRoundTrip | frontend/parser.ts:121-123 | after `{`, a block's statements and `}` are read back as that block |
| StatementProperties.BodyRoundTrip | frontend/parser.ts:136-148 | `bodyStmt()` reads statements back, in order after those already read, up to and including the `}` that follows them |
| StatementProperties.FunctionRoundTrip | frontend/parser.ts:211-228 | `def`, the name, the parameters in order, the optional return type (implicit without `:`) and the block body are read back as the function they spell |
| StatementProperties.FunctionHead | frontend/parser.ts:211-216 | after `def` and `(`, the written parameter list is read back in order and the function continues after its `)` |
| StatementProperties.FunctionBody | frontend/parser.ts:217-227 | after the `)`, the optional return type and the block body are read back, completing the function |
| StatementProperties.ParseRoundTrip | frontend/parser.ts:103-109 | `parse()` reads statements back, in order after those already read, up to the EOF token that follows them, which it does not consume |
| StatementProperties.ParseOfProgram | frontend/parser.ts:103-109 | the tokens of a program of well-formed statements, followed by the EOF token, parse back to that program |
| StatementProperties.ProgramTokensInjective | frontend/parser.ts:103-109 | two well-formed programs are never spelled by the same tokens |
| StatementProperties.FunctionShape | frontend/parser.ts:211-228 | after `def`, any function read is named by the token after `def`, has the parameters `parameters()` reads after `(`, the return type `Type()` reads after a `:` (implicit without one), and a block body ending at the `}` the statement ends on |
| StatementProperties.FunctionRest | frontend/parser.ts:217-227 | after the `)`, any function read keeps the name and parameters, takes the return type read after a `:` (implicit without one) and a block body ending at its `}` |
| ParserExamples.OneDigit | frontend/parser.ts:253 | a one-digit number token is read back by `parseInt` as its digit's value |
| ParserExamples.SubtractionGroupsLeft | frontend/parser.ts:95-101 | `a - b - c` groups as `(a - b) - c` |
| ParserExamples.AdditionBindsTighter | frontend/parser.ts:24-34 | with the table as written, `a * b + c` is `a * (b + c)` and `a + b / c` is `(a + b) / c` |
| ParserExamples.MultiplicationExample | frontend/parser.ts:24-34 | `2 * 3 + 4` parses to `2 * (3 + 4)`, which evaluates to 14 |
| ParserExamples.UnclosedParenthesis | frontend/parser.ts:239-243 | `( 1 + 2` then EOF fails, because `)` was expected where EOF stands |
| ParserExamples.LetExample | frontend/parser.ts:173-194 | the tokens of `let x = 5;` parse to one mutable declaration of `x`, of implicit type, with value 5 |
| Pipeline.TablesEndWithWords | frontend/lexer.ts:100 | entry 25 of both tables is the identifier rule, with `symbolHandler` as written and the keyword lookup when corrected |
| Pipeline.WordWins | frontend/lexer.ts:100 | where a word starts, the identifier rule wins, with the whole word as its match |
| Pipeline.WordLexedAsWritten | frontend/helper.ts:27-33 | with only the `\|\|` rule corrected (`BarFixedMatchToken`), every word, `let` included, is pushed as an IDENTIFIER token carrying the word |
| Pipeline.WordLexedIntended | frontend/lexer.ts:35-38 | with the keyword lookup, a word is pushed as the keyword token of the reserved word it is, and as IDENTIFIER otherwise |
| Pipeline.NoKeywordsFrom | frontend/lexer.ts:103-128 | a table whose handlers never produce keyword tokens lexes no keyword token |
| Pipeline.ProgramPlain | frontend/parser.ts:111-134 | on keyword-free tokens, `program()` only builds expression statements, empty statements and blocks of them |
| Pipeline.ParsePlain | frontend/parser.ts:103-109 | on keyword-free tokens, `parse()` builds no declaration, function or `return` |
| Pipeline.AsWrittenNoDeclarations | frontend/helper.ts:27-33 | with `symbolHandler` as written, nothing the lexer produces parses to a declaration, a function or a `return` |
| Pipeline.LetAsWritten | frontend/parser.ts:230-234 | with only the `\|\|` rule corrected (`BarFixedMatchToken`), `let x;` lexes to two IDENTIFIER tokens and `;`, and parsing fails because `;` was expected where `x` stands |
| Pipeline.LetIntended | frontend/parser.ts:112-114 | with the keyword lookup, `let x;` lexes to LET, IDENTIFIER, `;` and parses to a mutable `x` of implicit type with no initialiser |

## Left out

- Input and output: `Red` and the `console.error` calls of
  `UnexpectedTokenError` and `ParserError` (`frontend/helper.ts:93-123`).
  `Deno.exit(1)` is modelled as the routine failing with a `ParseError`
  that says why.
- `compare` (`frontend/parser.ts:150-152`) is not modelled. Nothing calls
  it, and its body is JavaScript loose equality over arbitrary values.
- `IdentifierExpr` (`frontend/helper.ts:69-75`) is not modelled. The
  parser never builds it; identifiers become `StringExpr`.
- Helper.Evaluate: only integer results of `+`, `-` and `*` are exact.
  The following give `NotModelled` rather than a JavaScript value:
  - division, because it is floating point;
  - NaN operands;
  - mixing numbers with strings (string concatenation and coercion);
  - `+`, `-` and `*` with an `undefined` operand, as in `(a == b) + 1`,
    which JavaScript evaluates to NaN;
  - the `UndefinedExpr` placeholder, whose class is not part of this
    model.
- JsText.ParseInt: the result is the exact integer. JavaScript's loss of
  precision above 2^53 and its `Infinity` on very long digit strings are
  not modelled.
- Helper.Evaluate: the results of `+`, `-` and `*` are exact integers.
  JavaScript numbers are doubles, so above 2^53 the source rounds them and
  the two can differ.
- The regular-expression engine is not modelled in general. Each of the
  26 patterns is a prefix matcher with a proved language
  (`Patterns.MatchIsLongestPrefix`).
  - For these patterns, `exec` finding its first match at index 0 is the
    same as matching a prefix.
  - A Dafny `char` is a Unicode scalar value, while JavaScript strings
    are sequences of UTF-16 code units. A character outside the Basic
    Multilingual Plane is one `char` here but two units there, in
    `.length`, `slice` and cursor positions. After such a character the
    model's cursors and error positions are smaller than the source's.
- Lexing.Lexer.MakeTokens: when the winning match is empty, the source's
  loop runs forever. The model stops and returns `Diverges(position)`
  instead. In that case the source keeps pushing the handler's token for
  each empty match; the model states nothing about the token array then.
- Parsing.Parser.constructor: requires a non-empty token array. The source
  reads `tokens[0]` without a check, and on an empty array its first
  routine dies with a `TypeError` on `undefined`. The lexer never returns
  an empty array.
- Parsing.Parser.VariableDeclRest, Parsing.Parser.FunctionDeclRest and
  Parsing.Parser.ReturnTail are not routines of the source. They are the
  second halves of `variableDecl`, `functionDecl` and the `return` branch
  of `program`, split off so that each proof stays small.
- `main.ts`, `frontend/enviroment/env.ts` and the C sources are not part of
  this model. They read files, hold run-time environments and parse
  command-line flags.

## Findings

| source | as written | input that shows it | evidently intended | confidence | as-written member | corrected member |
|---|---|---|---|---|---|---|
| frontend/lexer.ts:81 | the pattern string `"\\\|\|"` is the regular expression `\\|` (an escaped bar) or the empty string, so it matches the empty string at every cursor; since it is entry 6, no later rule ever wins and the loop never moves past any other character | `let x = 5;` (lexing never ends, stuck at cursor 0) | the pattern `\\|\\|`, matching the operator `\|\|` only | high; not executed | LexerProperties.AsWrittenDiverges | LexerProperties.IntendedNeverDiverges |
| frontend/helper.ts:27-33 | `symbolHandler` makes every word an IDENTIFIER token, so `let`, `const`, `def` and `return` never reach the parser as the keyword kinds its declaration branches test for | `let x;` (parsing fails: `;` expected, IDENTIFIER found) | words looked up in the keyword table, `let` giving K_LET and so on | high; not executed | Pipeline.AsWrittenNoDeclarations | Pipeline.WordLexedIntended |

The corrected lexer table `Lexing.IntendedMatchToken` applies both fixes.
The as-written table with only the first fix, `Pipeline.BarFixedMatchToken`,
shows the second finding on its own. `Pipeline.LetAsWritten` and
`Pipeline.LetIntended` run `let x;` through both tables.
