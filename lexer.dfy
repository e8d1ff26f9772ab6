/**
 * The regex-table lexer (frontend/lexer.ts:51-130): an ordered list of
 * (pattern, handler) rules tried at the cursor, the first match at index 0
 * winning.
 */
module Lexing {
  import opened Wrappers
  import opened JsText
  import opened Tokens
  import opened Helper
  import opened Patterns

  /** A `RegexTokenHandler`. */
  datatype Rule = Rule(pattern: Pattern, handler: TokenHandler)

  /** The `MatchToken` table of `MakeTokens`, in declared order. Entry 6 is
      the source's `"\\||"`, which compiles to `\|` or the empty pattern. */
  const MatchToken: seq<Rule> := [
    Rule(LineComment, Skip),
    Rule(WhiteSpaceRun, Skip),
    Rule(Literal("+="), Default(PlusEquals)),
    Rule(Literal("-="), Default(MinusEquals)),
    Rule(Literal("=="), Default(EqualsEquals)),
    Rule(Literal("!="), Default(BangEquals)),
    Rule(BarOrEmpty, Default(Or)),
    Rule(Literal("&&"), Default(And)),
    Rule(Literal("("), Default(LParen)),
    Rule(Literal(")"), Default(RParen)),
    Rule(Literal("+"), Default(Plus)),
    Rule(Literal("-"), Default(Dash)),
    Rule(Literal("/"), Default(Slash)),
    Rule(Literal("*"), Default(Star)),
    Rule(Literal("="), Default(Equals)),
    Rule(Literal(";"), Default(Semi)),
    Rule(Literal(":"), Default(Colon)),
    Rule(Literal(","), Default(Comma)),
    Rule(Literal("["), Default(Lsb)),
    Rule(Literal("]"), Default(Rsb)),
    Rule(Literal("{"), Default(Lcb)),
    Rule(Literal("}"), Default(Rcb)),
    Rule(Literal("|"), Default(BitOr)),
    Rule(Literal("&"), Default(BitAnd)),
    Rule(DigitRun, NumberLiteral),
    Rule(Word, Symbol)
  ]

  /** The table as evidently intended: entry 6 matches `||` only, and the
      identifier rule looks its text up in the keyword table. */
  const IntendedMatchToken: seq<Rule> :=
    MatchToken[6 := Rule(Literal("||"), Default(Or))][25 := Rule(Word, KeywordSymbol)]

  /** The rule that wins at the cursor and the length of its match. */
  datatype Winner = Winner(rule: nat, length: nat)

  /** Rules `i..` tried in order at cursor `pos` of `s`. */
  function FirstMatchFrom(rules: seq<Rule>, s: string, pos: nat, i: nat): (r: Option<Winner>)
    requires pos <= |s| && i <= |rules|
    ensures r.Some? ==> i <= r.value.rule < |rules| && pos + r.value.length <= |s|
    decreases |rules| - i
  {
    if i == |rules| then None
    else match MatchLength(rules[i].pattern, s, pos)
      case Some(n) => Some(Winner(i, n))
      case None => FirstMatchFrom(rules, s, pos, i + 1)
  }

  function FirstMatch(rules: seq<Rule>, s: string, pos: nat): Option<Winner>
    requires pos <= |s|
  {
    FirstMatchFrom(rules, s, pos, 0)
  }

  /** The winner is the first rule, in declared order, whose pattern matches
      at the cursor, with that match's length; no later rule is consulted,
      and there is no winner exactly when no rule matches. */
  lemma {:induction false} FirstMatchIsFirst(rules: seq<Rule>, s: string, pos: nat, i: nat)
    requires pos <= |s| && i <= |rules|
    ensures FirstMatchFrom(rules, s, pos, i).Some? ==>
      var w := FirstMatchFrom(rules, s, pos, i).value;
      && MatchLength(rules[w.rule].pattern, s, pos) == Some(w.length)
      && forall j :: i <= j < w.rule ==> MatchLength(rules[j].pattern, s, pos).None?
    ensures FirstMatchFrom(rules, s, pos, i).None? <==>
      forall j :: i <= j < |rules| ==> MatchLength(rules[j].pattern, s, pos).None?
    decreases |rules| - i
  {
    if i < |rules| && MatchLength(rules[i].pattern, s, pos).None? {
      FirstMatchIsFirst(rules, s, pos, i + 1);
    }
  }

  /** How `MakeTokens` ends: with the token array, with the exception thrown
      when no rule matches (naming the cursor and its character, and with
      the tokens pushed before the throw still in the array), or never: a
      winning match of length 0 leaves the cursor where it is, so the
      source's loop repeats the same step forever. */
  datatype LexOutcome =
    | Lexed(tokens: seq<Token>)
    | LexError(position: nat, ch: char, pushed: seq<Token>)
    | Diverges(position: nat)

  function OptionToSeq(t: Option<Token>): seq<Token> {
    if t.Some? then [t.value] else []
  }

  /** The run of `MakeTokens` from cursor `pos` with `acc` already pushed:
      the loop ends at the end of the text, and otherwise takes a turn. */
  function LexFrom(rules: seq<Rule>, s: string, pos: nat, acc: seq<Token>): (r: LexOutcome)
    requires pos <= |s|
    ensures r.Lexed? ==> |acc| < |r.tokens| && r.tokens[..|acc|] == acc && r.tokens[|r.tokens| - 1] == EofToken
    ensures r.LexError? ==> pos <= r.position < |s| && r.ch == s[r.position] && |acc| <= |r.pushed| && r.pushed[..|acc|] == acc
    ensures r.Diverges? ==> pos <= r.position < |s|
    decreases |s| - pos, 1
  {
    if pos == |s| then Lexed(acc + [EofToken]) else TurnFrom(rules, s, pos, acc)
  }

  /** One turn of the loop at a cursor before the end: the first matching
      rule's handler consumes the match and the run goes on after it. */
  function TurnFrom(rules: seq<Rule>, s: string, pos: nat, acc: seq<Token>): (r: LexOutcome)
    requires pos < |s|
    ensures r.Lexed? ==> |acc| < |r.tokens| && r.tokens[..|acc|] == acc && r.tokens[|r.tokens| - 1] == EofToken
    ensures r.LexError? ==> pos <= r.position < |s| && r.ch == s[r.position] && |acc| <= |r.pushed| && r.pushed[..|acc|] == acc
    ensures r.Diverges? ==> pos <= r.position < |s|
    decreases |s| - pos, 0
  {
    match FirstMatch(rules, s, pos)
    case None => LexError(pos, s[pos], acc)
    case Some(w) =>
      if w.length == 0 then Diverges(pos)
      else LexFrom(rules, s, pos + w.length,
                   acc + OptionToSeq(Emitted(rules[w.rule].handler, s[pos..pos + w.length])))
  }

  /** The three ways a turn at cursor `pos` can go, as seen by a proof. */
  lemma LexTurn(rules: seq<Rule>, s: string, pos: nat, acc: seq<Token>)
    requires pos < |s|
    ensures FirstMatch(rules, s, pos).None? ==> LexFrom(rules, s, pos, acc) == LexError(pos, s[pos], acc)
    ensures FirstMatch(rules, s, pos).Some? && FirstMatch(rules, s, pos).value.length == 0 ==>
      LexFrom(rules, s, pos, acc) == Diverges(pos)
    ensures FirstMatch(rules, s, pos).Some? && FirstMatch(rules, s, pos).value.length > 0 ==>
      var w := FirstMatch(rules, s, pos).value;
      && w.rule < |rules| && pos + w.length <= |s|
      && LexFrom(rules, s, pos, acc)
         == LexFrom(rules, s, pos + w.length,
                    acc + OptionToSeq(Emitted(rules[w.rule].handler, s[pos..pos + w.length])))
  {
  }

  /** A turn whose winning match `w` is not empty: the handler's token, if
      any, is pushed and the run continues after the match. */
  lemma LexStep(rules: seq<Rule>, s: string, pos: nat, acc: seq<Token>, w: Winner, t: Option<Token>)
    requires pos < |s| && FirstMatch(rules, s, pos) == Some(w) && w.length > 0
    requires w.rule < |rules| && pos + w.length <= |s|
    requires t == Emitted(rules[w.rule].handler, s[pos..pos + w.length])
    ensures LexFrom(rules, s, pos + w.length, acc + OptionToSeq(t)) == LexFrom(rules, s, pos, acc)
  {
  }

  /** `new Lexer(s).MakeTokens()` with the given rule table. */
  function Tokenize(rules: seq<Rule>, s: string): (r: LexOutcome)
    ensures r.Lexed? ==> |r.tokens| >= 1 && r.tokens[|r.tokens| - 1] == EofToken
    ensures r.LexError? ==> r.position < |s| && r.ch == s[r.position]
    ensures r.Diverges? ==> r.position < |s|
  {
    LexFrom(rules, s, 0, [])
  }

  /** The `for` loop over the rule table in `MakeTokens`: each rule's
      pattern is tried at the cursor in declared order, and the first one
      that matches, with its length, is the one whose handler runs. */
  method FindRule(rules: seq<Rule>, s: string, pos: nat) returns (w: Option<Winner>)
    requires pos <= |s|
    ensures w == FirstMatch(rules, s, pos)
  {
    var i := 0;
    while i < |rules|
      invariant i <= |rules|
      invariant FirstMatchFrom(rules, s, pos, i) == FirstMatch(rules, s, pos)
    {
      var m := MatchLength(rules[i].pattern, s, pos);
      if m.Some? {
        return Some(Winner(i, m.value));
      }
      i := i + 1;
    }
    return None;
  }

  /** The `Lexer` class: the text, the shared cursor object and the tokens
      pushed so far. The rule table, which the source builds at the top of
      every `MakeTokens` call, is held in `rules`. */
  class Lexer {
    var tokens: seq<Token>
    const contents: string
    const position: Position
    const rules: seq<Rule>

    ghost predicate Valid()
      reads this, position
    {
      position.value <= |contents|
    }

    constructor(contents: string)
      ensures Valid() && fresh(position)
      ensures this.contents == contents && tokens == [] && position.value == 0
      ensures rules == MatchToken
    {
      this.contents := contents;
      rules := MatchToken;
      tokens := [];
      position := new Position(0);
    }

    /** `MakeTokens()`: the result is the run of the rule table from the
        cursor, and a normal exit leaves the cursor at the end of the text
        and returns the `tokens` field. A throw leaves the cursor at the
        offending character and in `tokens` what was pushed before it, as
        the outcome reports. Each pattern is tried on the text
        remaining at the cursor, which is matching at the cursor. */
    method MakeTokens() returns (r: LexOutcome)
      requires Valid()
      modifies this, position
      ensures Valid()
      ensures r == LexFrom(rules, contents, old(position.value), old(tokens))
      ensures r.Lexed? ==> tokens == r.tokens && position.value == |contents|
      ensures !r.Lexed? ==> position.value == r.position
      ensures r.LexError? ==> tokens == r.pushed
    {
      while position.value < |contents|
        invariant Valid()
        invariant LexFrom(rules, contents, position.value, tokens)
               == LexFrom(rules, contents, old(position.value), old(tokens))
        decreases |contents| - position.value
      {
        ghost var start := position.value;
        ghost var pushed := tokens;
        var w := FindRule(rules, contents, position.value);
        if w.None? {
          LexTurn(rules, contents, start, pushed);
          r := LexError(position.value, contents[position.value], tokens);
          return;
        }
        var text := contents[position.value..position.value + w.value.length];
        if w.value.length == 0 {
          LexTurn(rules, contents, start, pushed);
          r := Diverges(position.value);
          return;
        }
        var token := Invoke(rules[w.value.rule].handler, text, position);
        if token.Some? {
          tokens := tokens + [token.value];
        }
        assert tokens == pushed + OptionToSeq(token);
        LexStep(rules, contents, start, pushed, w.value, token);
      }
      tokens := tokens + [EofToken];
      r := Lexed(tokens);
    }
  }
}
