/**
 The string operations the template code is built from (Go's strings package: TrimSpace, Fields, Join, Contains,
 Replace with count 1), and the laws connecting them.
 */
module Text {
  import opened Common

  /** The Unicode property White_Space, which Go's unicode.IsSpace follows. */
  predicate IsSpace(c: char) {
    '\t' <= c <= '\r' || c == ' ' || c == '\U{0085}' || c == '\U{00A0}' || c == '\U{1680}'
    || '\U{2000}' <= c <= '\U{200A}' || c == '\U{2028}' || c == '\U{2029}' || c == '\U{202F}'
    || c == '\U{205F}' || c == '\U{3000}'
  }

  /** Blanks, tabs, line breaks and the wide blank are white space; letters, digits and punctuation are not. */
  lemma SpaceAndText(c: char)
    ensures IsSpace(' ') && IsSpace('\t') && IsSpace('\n') && IsSpace('\r') && IsSpace('\U{3000}')
    ensures '!' <= c <= '~' ==> !IsSpace(c)
  {
  }

  ghost predicate AllSpace(s: string) {
    forall i | 0 <= i < |s| :: IsSpace(s[i])
  }

  ghost predicate NoSpace(s: string) {
    forall i | 0 <= i < |s| :: !IsSpace(s[i])
  }

  // ---------------------------------------------------------------------------
  // TrimSpace
  // ---------------------------------------------------------------------------

  function TrimLeft(s: string): string {
    if s != "" && IsSpace(s[0]) then TrimLeft(s[1..]) else s
  }

  function TrimRight(s: string): string {
    if s != "" && IsSpace(s[|s| - 1]) then TrimRight(s[..|s| - 1]) else s
  }

  function TrimSpace(s: string): string {
    TrimRight(TrimLeft(s))
  }

  /** Starts and ends, if at all, with something other than white space. */
  predicate Trimmed(s: string) {
    s != "" ==> !IsSpace(s[0]) && !IsSpace(s[|s| - 1])
  }

  lemma {:induction false} TrimLeftParts(s: string) returns (lead: string)
    ensures s == lead + TrimLeft(s) && AllSpace(lead)
    ensures TrimLeft(s) != "" ==> !IsSpace(TrimLeft(s)[0])
  {
    lead := "";
    if s != "" && IsSpace(s[0]) {
      var l := TrimLeftParts(s[1..]);
      lead := [s[0]] + l;
      assert s == [s[0]] + s[1..];
    }
  }

  lemma {:induction false} TrimRightParts(s: string) returns (trail: string)
    ensures s == TrimRight(s) + trail && AllSpace(trail)
    ensures TrimRight(s) != "" ==> !IsSpace(TrimRight(s)[|TrimRight(s)| - 1])
  {
    trail := "";
    if s != "" && IsSpace(s[|s| - 1]) {
      var n := |s| - 1;
      var t := TrimRightParts(s[..n]);
      trail := t + [s[n]];
      assert s == s[..n] + [s[n]];
    }
  }

  /** Trimming removes exactly the surrounding white space. */
  lemma TrimParts(s: string) returns (lead: string, trail: string)
    ensures s == lead + TrimSpace(s) + trail
    ensures AllSpace(lead) && AllSpace(trail) && Trimmed(TrimSpace(s))
  {
    lead := TrimLeftParts(s);
    trail := TrimRightParts(TrimLeft(s));
    var t, u := TrimSpace(s), TrimLeft(s);
    assert lead + (t + trail) == lead + t + trail;
    if t != "" {
      assert u[0] == t[0];
    }
  }

  lemma TrimmedIsFixed(s: string)
    requires Trimmed(s)
    ensures TrimSpace(s) == s
  {
  }

  // ---------------------------------------------------------------------------
  // Fields and Join
  // ---------------------------------------------------------------------------

  function WordLength(s: string): (n: nat)
    ensures n <= |s|
  {
    if s == "" || IsSpace(s[0]) then 0 else 1 + WordLength(s[1..])
  }

  function Fields(s: string): seq<string>
    decreases |s|
  {
    if s == "" then []
    else if IsSpace(s[0]) then Fields(s[1..])
    else [s[..WordLength(s)]] + Fields(s[WordLength(s)..])
  }

  /** Words separated by single spaces. */
  function Join(words: seq<string>): string {
    if words == [] then ""
    else if |words| == 1 then words[0]
    else words[0] + (" " + Join(words[1..]))
  }

  ghost predicate AreWords(words: seq<string>) {
    forall i | 0 <= i < |words| :: words[i] != "" && NoSpace(words[i])
  }

  lemma {:induction false} WordHasNoSpace(s: string)
    ensures NoSpace(s[..WordLength(s)])
  {
    if s != "" && !IsSpace(s[0]) {
      WordHasNoSpace(s[1..]);
      assert forall i | 1 <= i < WordLength(s) :: s[i] == s[1..][..WordLength(s[1..])][i - 1];
    }
  }

  lemma {:induction false} FieldsAreWords(s: string)
    ensures AreWords(Fields(s))
    decreases |s|
  {
    if s != "" {
      if IsSpace(s[0]) {
        FieldsAreWords(s[1..]);
      } else {
        WordHasNoSpace(s);
        FieldsAreWords(s[WordLength(s)..]);
      }
    }
  }

  lemma {:induction false} WordThenSpace(w: string, rest: string)
    requires NoSpace(w) && (rest == "" || IsSpace(rest[0]))
    ensures WordLength(w + rest) == |w|
  {
    if w != "" {
      WordThenSpace(w[1..], rest);
      assert (w + rest)[1..] == w[1..] + rest;
    } else {
      assert w + rest == rest;
    }
  }

  lemma FieldsWordFirst(w: string, rest: string)
    requires w != "" && NoSpace(w) && (rest == "" || IsSpace(rest[0]))
    ensures Fields(w + rest) == [w] + Fields(rest)
  {
    WordThenSpace(w, rest);
    assert (w + rest)[..|w|] == w && (w + rest)[|w|..] == rest;
  }

  lemma FieldsOfNothing()
    ensures Fields("") == []
  {
  }

  lemma FieldsSkipSpace(rest: string)
    ensures Fields(" " + rest) == Fields(rest)
  {
    assert (" " + rest)[1..] == rest;
  }

  /** Splitting undoes joining. */
  lemma {:induction false} FieldsOfJoin(words: seq<string>)
    requires AreWords(words)
    ensures Fields(Join(words)) == words
  {
    hide Fields;
    FieldsOfNothing();
    if |words| == 1 {
      FieldsWordFirst(words[0], "");
      assert words[0] + "" == words[0];
    } else if words != [] {
      var rest := Join(words[1..]);
      FieldsOfJoin(words[1..]);
      FieldsWordFirst(words[0], " " + rest);
      FieldsSkipSpace(rest);
    }
  }

  function WithoutSpace(s: string): string {
    if s == "" then "" else (if IsSpace(s[0]) then "" else [s[0]]) + WithoutSpace(s[1..])
  }

  function Concat(words: seq<string>): string {
    if words == [] then "" else words[0] + Concat(words[1..])
  }

  lemma {:induction false} WithoutSpaceOfWord(w: string, rest: string)
    requires NoSpace(w)
    ensures WithoutSpace(w + rest) == w + WithoutSpace(rest)
  {
    if w == "" {
      assert w + rest == rest;
    } else {
      WithoutSpaceOfWord(w[1..], rest);
      assert (w + rest)[1..] == w[1..] + rest;
    }
  }

  /** Splitting loses nothing but white space. */
  lemma {:induction false} FieldsKeepText(s: string)
    ensures Concat(Fields(s)) == WithoutSpace(s)
    decreases |s|
  {
    if s != "" {
      if IsSpace(s[0]) {
        FieldsKeepText(s[1..]);
      } else {
        var n := WordLength(s);
        WordHasNoSpace(s);
        FieldsKeepText(s[n..]);
        WithoutSpaceOfWord(s[..n], s[n..]);
        assert s == s[..n] + s[n..];
        assert ([s[..n]] + Fields(s[n..]))[1..] == Fields(s[n..]);
      }
    }
  }

  lemma {:induction false} JoinPrefix(words: seq<string>, m: nat)
    requires m <= |words|
    ensures Join(words[..m]) <= Join(words)
  {
    if m > 1 {
      JoinPrefix(words[1..], m - 1);
      assert words[..m][1..] == words[1..][..m - 1];
      PrefixUnder(words[0], Join(words[1..][..m - 1]), Join(words[1..]));
    } else if m == 1 {
      assert words[..1] == [words[0]];
    }
  }

  lemma PrefixUnder(w: string, a: string, b: string)
    requires a <= b
    ensures w + (" " + a) <= w + (" " + b)
  {
  }

  lemma JoinNonEmpty(words: seq<string>)
    requires words != [] && AreWords(words)
    ensures Join(words) != ""
  {
  }

  // ---------------------------------------------------------------------------
  // Contains and Replace
  // ---------------------------------------------------------------------------

  predicate OccursAt(s: string, sub: string, i: nat) {
    i + |sub| <= |s| && s[i..i + |sub|] == sub
  }

  predicate Contains(s: string, sub: string) {
    exists i | 0 <= i <= |s| :: OccursAt(s, sub, i)
  }

  /** The first occurrence at or after `i`. */
  function IndexFrom(s: string, sub: string, i: nat): Option<nat>
    decreases |s| - i
  {
    if i > |s| then None
    else if OccursAt(s, sub, i) then Some(i)
    else if i == |s| then None
    else IndexFrom(s, sub, i + 1)
  }

  function ReplaceFirst(s: string, old_: string, new_: string): string {
    match IndexFrom(s, old_, 0)
    case None => s
    case Some(i) => if OccursAt(s, old_, i) then s[..i] + new_ + s[i + |old_|..] else s
  }

  lemma {:induction false} IndexIsFirst(s: string, sub: string, i: nat, k: nat)
    requires i <= k && OccursAt(s, sub, k) && forall j | i <= j < k :: !OccursAt(s, sub, j)
    ensures IndexFrom(s, sub, i) == Some(k)
    decreases k - i
  {
    if i < k {
      IndexIsFirst(s, sub, i + 1, k);
    }
  }

  lemma {:induction false} FirstOccurrence(s: string, sub: string, k: nat) returns (i: nat)
    requires OccursAt(s, sub, k)
    ensures i <= k && OccursAt(s, sub, i) && forall j | 0 <= j < i :: !OccursAt(s, sub, j)
    decreases k
  {
    i := k;
    if j :| 0 <= j < k && OccursAt(s, sub, j) {
      i := FirstOccurrence(s, sub, j);
    }
  }

  lemma ContainsPrefix(s: string, a: string, b: string)
    requires a <= b && Contains(s, b)
    ensures Contains(s, a)
  {
    var i :| 0 <= i <= |s| && OccursAt(s, b, i);
    assert s[i..i + |a|] == s[i..i + |b|][..|a|];
    assert OccursAt(s, a, i);
  }
}
