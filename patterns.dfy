/**
 * The six kinds of regular expression in the lexer's rule table
 * (frontend/lexer.ts:75-100), each as a prefix matcher.
 *
 * `Denotes` is the language of each expression; `MatchLength` is what
 * `pattern.exec(rest)` reports when its match starts at index 0. For these
 * expressions the match the backtracking engine reports at index 0 is the
 * longest prefix of `rest` in the language: the quantifiers are greedy
 * with nothing after them, and `\|` is tried before the empty alternative.
 */
module Patterns {
  import opened Wrappers
  import opened JsText

  datatype Pattern =
    | LineComment           // `//.*`
    | WhiteSpaceRun         // `\s+`
    | Literal(text: string) // an escaped literal such as `\+=` or `\(`
    | BarOrEmpty            // `\||`: a bar, or the empty string
    | DigitRun              // `\d+`
    | Word                  // `[a-zA-Z_@][a-zA-Z0-9_]*`

  /** The strings each expression matches. */
  predicate Denotes(p: Pattern, w: string) {
    match p
    case LineComment =>
      |w| >= 2 && w[0] == '/' && w[1] == '/' && forall k :: 2 <= k < |w| ==> !IsLineTerminator(w[k])
    case WhiteSpaceRun =>
      |w| >= 1 && forall k :: 0 <= k < |w| ==> IsWhiteSpace(w[k])
    case Literal(t) => w == t
    case BarOrEmpty => w == "|" || w == ""
    case DigitRun =>
      |w| >= 1 && forall k :: 0 <= k < |w| ==> IsDecimalDigit(w[k])
    case Word =>
      |w| >= 1 && IsIdentifierStart(w[0]) && forall k :: 1 <= k < |w| ==> IsIdentifierPart(w[k])
  }

  /** The length of the match of `p` at cursor `i` of `s` (index 0 of the
      remaining text `s[i..]`), if there is one. */
  function MatchLength(p: Pattern, s: string, i: nat): (r: Option<nat>)
    requires i <= |s|
    ensures r.Some? ==> i + r.value <= |s|
  {
    match p
    case LineComment =>
      if i + 2 <= |s| && s[i] == '/' && s[i + 1] == '/' then Some(2 + Run(s, i + 2, LineContent)) else None
    case WhiteSpaceRun =>
      var n := Run(s, i, WhiteSpace);
      if n == 0 then None else Some(n)
    case Literal(t) =>
      if i + |t| <= |s| && s[i..i + |t|] == t then Some(|t|) else None
    case BarOrEmpty =>
      if i < |s| && s[i] == '|' then Some(1) else Some(0)
    case DigitRun =>
      var n := Run(s, i, DecimalDigit);
      if n == 0 then None else Some(n)
    case Word =>
      if i < |s| && IsIdentifierStart(s[i]) then Some(1 + Run(s, i + 1, IdentifierPart)) else None
  }

  /** The match `MatchLength` reports is the longest prefix of the remaining
      text `s[i..]` that the expression denotes, and there is none exactly
      when it reports none. */
  lemma MatchIsLongestPrefix(p: Pattern, s: string, i: nat)
    requires i <= |s|
    ensures MatchLength(p, s, i).Some? ==> Denotes(p, s[i..i + MatchLength(p, s, i).value])
    ensures MatchLength(p, s, i).Some? ==>
      forall k :: i + MatchLength(p, s, i).value < k <= |s| ==> !Denotes(p, s[i..k])
    ensures MatchLength(p, s, i).None? ==> forall k :: i <= k <= |s| ==> !Denotes(p, s[i..k])
  {
    match p
    case LineComment => CommentIsLongest(s, i);
    case WhiteSpaceRun => ClassRunIsLongest(p, s, i, WhiteSpace);
    case Literal(t) =>
    case BarOrEmpty =>
      if i < |s| && s[i] == '|' {
        assert s[i..i + 1] == "|";
      }
    case DigitRun => ClassRunIsLongest(p, s, i, DecimalDigit);
    case Word => WordIsLongest(s, i);
  }

  lemma CommentIsLongest(s: string, i: nat)
    requires i <= |s|
    ensures MatchLength(LineComment, s, i).Some? ==>
      Denotes(LineComment, s[i..i + MatchLength(LineComment, s, i).value])
    ensures MatchLength(LineComment, s, i).Some? ==>
      forall k :: i + MatchLength(LineComment, s, i).value < k <= |s| ==> !Denotes(LineComment, s[i..k])
    ensures MatchLength(LineComment, s, i).None? ==>
      forall k :: i <= k <= |s| ==> !Denotes(LineComment, s[i..k])
  {
    if i + 2 <= |s| && s[i] == '/' && s[i + 1] == '/' {
      var n := Run(s, i + 2, LineContent);
      RunIsLongest(s, i + 2, LineContent);
      assert MatchLength(LineComment, s, i) == Some(2 + n);
      var w := s[i..i + 2 + n];
      assert forall k :: 2 <= k < |w| ==> w[k] == s[i + k] && InClass(s[i + k], LineContent);
      assert Denotes(LineComment, w);
      forall k | i + 2 + n < k <= |s|
        ensures !Denotes(LineComment, s[i..k])
      {
        assert s[i..k][2 + n] == s[i + 2 + n];
      }
    } else {
      assert MatchLength(LineComment, s, i) == None;
      forall k | i <= k <= |s|
        ensures !Denotes(LineComment, s[i..k])
      {
        if k >= i + 2 {
          assert s[i..k][0] == s[i] && s[i..k][1] == s[i + 1];
        }
      }
    }
  }

  /** The two `[class]+` expressions. */
  lemma ClassRunIsLongest(p: Pattern, s: string, i: nat, cl: CharClass)
    requires i <= |s|
    requires (p == WhiteSpaceRun && cl == WhiteSpace) || (p == DigitRun && cl == DecimalDigit)
    ensures MatchLength(p, s, i).Some? ==> Denotes(p, s[i..i + MatchLength(p, s, i).value])
    ensures MatchLength(p, s, i).Some? ==>
      forall k :: i + MatchLength(p, s, i).value < k <= |s| ==> !Denotes(p, s[i..k])
    ensures MatchLength(p, s, i).None? ==> forall k :: i <= k <= |s| ==> !Denotes(p, s[i..k])
  {
    var n := Run(s, i, cl);
    RunIsLongest(s, i, cl);
    assert forall k :: i + n < k <= |s| ==> s[i..k][n] == s[i + n];
  }

  lemma WordIsLongest(s: string, i: nat)
    requires i <= |s|
    ensures MatchLength(Word, s, i).Some? ==> Denotes(Word, s[i..i + MatchLength(Word, s, i).value])
    ensures MatchLength(Word, s, i).Some? ==>
      forall k :: i + MatchLength(Word, s, i).value < k <= |s| ==> !Denotes(Word, s[i..k])
    ensures MatchLength(Word, s, i).None? ==> forall k :: i <= k <= |s| ==> !Denotes(Word, s[i..k])
  {
    if i < |s| && IsIdentifierStart(s[i]) {
      var n := Run(s, i + 1, IdentifierPart);
      RunIsLongest(s, i + 1, IdentifierPart);
      assert forall k :: i + 1 + n < k <= |s| ==> s[i..k][1 + n] == s[i + 1 + n];
    } else {
      assert forall k :: i < k <= |s| ==> s[i..k][0] == s[i];
    }
  }
}
