/**
 The pattern language of Redis's SCAN MATCH: a star matches any text, a question mark any character, brackets any of a
 set of characters and ranges (or none of it, after a caret), and a backslash makes the next character literal.
 */
module Glob {

  /**
   Reads a bracket from behind its opening: whether `c` is in the set, and the pattern behind the bracket. An unclosed
   bracket extends to the end of the pattern.
   */
  function BracketSet(p: string, c: char, hit: bool): (bool, string)
    decreases |p|
  {
    if p == "" then (hit, "")
    else if |p| >= 2 && p[0] == '\\' then BracketSet(p[2..], c, hit || p[1] == c)
    else if p[0] == ']' then (hit, p[1..])
    else if |p| >= 3 && p[1] == '-' then
      BracketSet(p[3..], c, hit || (if p[0] <= p[2] then p[0] <= c <= p[2] else p[2] <= c <= p[0]))
    else BracketSet(p[1..], c, hit || p[0] == c)
  }

  lemma {:induction false} BracketShrinks(p: string, c: char, hit: bool)
    ensures |BracketSet(p, c, hit).1| <= |p|
    decreases |p|
  {
    if p != "" {
      if |p| >= 2 && p[0] == '\\' {
        BracketShrinks(p[2..], c, hit || p[1] == c);
      } else if p[0] != ']' {
        if |p| >= 3 && p[1] == '-' {
          BracketShrinks(p[3..], c, hit || (if p[0] <= p[2] then p[0] <= c <= p[2] else p[2] <= c <= p[0]));
        } else {
          BracketShrinks(p[1..], c, hit || p[0] == c);
        }
      }
    }
  }

  function Bracket(p: string, c: char): (r: (bool, string))
    ensures |r.1| <= |p|
  {
    var negated := p != "" && p[0] == '^';
    var set_ := if negated then p[1..] else p;
    BracketShrinks(set_, c, false);
    var (hit, rest) := BracketSet(set_, c, false);
    (hit != negated, rest)
  }

  predicate Match(p: string, s: string)
    decreases |p|, |s|
  {
    if p == "" then s == ""
    else if p[0] == '*' then Match(p[1..], s) || (s != "" && Match(p, s[1..]))
    else if s == "" then false
    else if p[0] == '?' then Match(p[1..], s[1..])
    else if p[0] == '[' then Bracket(p[1..], s[0]).0 && Match(Bracket(p[1..], s[0]).1, s[1..])
    else if p[0] == '\\' && |p| >= 2 then p[1] == s[0] && Match(p[2..], s[1..])
    else p[0] == s[0] && Match(p[1..], s[1..])
  }

  predicate Plain(c: char) { c != '*' && c != '?' && c != '[' && c != '\\' }

  /** A text that matches itself and nothing else. */
  predicate GlobFree(p: string) {
    forall i | 0 <= i < |p| :: Plain(p[i])
  }

  /** Literal text in front of a pattern is stripped from what it matches. */
  lemma {:induction false} LiteralFirst(lit: string, p: string, s: string)
    requires GlobFree(lit)
    ensures Match(lit + p, s) <==> lit <= s && Match(p, s[|lit|..])
  {
    if lit == "" {
      assert lit + p == p;
    } else {
      assert Plain(lit[0]);
      assert (lit + p)[1..] == lit[1..] + p;
      if s != "" {
        LiteralFirst(lit[1..], p, s[1..]);
        assert |lit| <= |s| ==> s[1..][|lit| - 1..] == s[|lit|..];
        assert lit <= s <==> lit[0] == s[0] && lit[1..] <= s[1..] by {
          if lit[0] == s[0] && lit[1..] <= s[1..] {
            assert forall i | 1 <= i < |lit| :: lit[i] == lit[1..][i - 1] && s[i] == s[1..][i - 1];
          }
        }
      }
    }
  }

  /** A question mark stands for any one character, an escaped character for itself. */
  lemma OneCharacter(c: char, p: string, s: string)
    ensures Match("?" + p, s) <==> s != "" && Match(p, s[1..])
    ensures Match(['\\', c] + p, s) <==> s != "" && s[0] == c && Match(p, s[1..])
  {
    assert ("?" + p)[1..] == p && (['\\', c] + p)[2..] == p;
  }

  /** A star in front of a pattern may swallow any text. */
  lemma {:induction false} StarSwallows(p: string, x: string, y: string)
    requires Match(p, y)
    ensures Match("*" + p, x + y)
  {
    assert ("*" + p)[1..] == p;
    if x == "" {
      assert x + y == y;
    } else {
      StarSwallows(p, x[1..], y);
      assert (x + y)[1..] == x[1..] + y;
    }
  }

  lemma StarMatchesAll(s: string)
    ensures Match("*", s)
  {
    assert "*" + "" == "*" && s + "" == s;
    StarSwallows("", s, "");
  }

  /** A literal text and a star match exactly what the text is a prefix of. */
  lemma LiteralThenStar(lit: string, s: string)
    requires GlobFree(lit)
    ensures Match(lit + "*", s) <==> lit <= s
  {
    LiteralFirst(lit, "*", s);
    if lit <= s {
      StarMatchesAll(s[|lit|..]);
    }
  }

  /** A bracket around a single ordinary character matches that character, and not itself. */
  lemma SingleBracket(c: char, p: string, s: string)
    requires Plain(c) && c != ']' && c != '^'
    ensures Match(['[', c, ']'] + p, s) <==> s != "" && s[0] == c && Match(p, s[1..])
  {
    var inside := [c, ']'] + p;
    assert (['[', c, ']'] + p)[1..] == inside;
    if s != "" {
      assert inside[1..] == [']'] + p && ([']'] + p)[1..] == p;
      assert BracketSet([']'] + p, s[0], c == s[0]) == (c == s[0], p);
      assert BracketSet(inside, s[0], false) == (c == s[0], p);
    }
  }
}
