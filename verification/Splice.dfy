/**
 From sample prompts to rewritten prompts: the optimiser infers a template (deriveTemplateFromSamples and
 commonPrefix in internal/optimizer/driver.go), and the proxy finds a piece of it in a live prompt and replaces that
 piece (findReplacementSegment and the replacement step of ServeHTTP in internal/proxy/handler.go).
 */
module Splice {
  import opened Common
  import opened Text

  // ---------------------------------------------------------------------------
  // Inferring the template
  // ---------------------------------------------------------------------------

  function Lcp(a: string, b: string): string {
    if a == "" || b == "" || a[0] != b[0] then "" else [a[0]] + Lcp(a[1..], b[1..])
  }

  method CommonPrefix(a: string, b: string) returns (r: string)
    ensures r == Lcp(a, b)
  {
    var max := |a|;
    if |b| < max {
      max := |b|;
    }
    var idx := 0;
    while idx < max && a[idx] == b[idx]
      invariant 0 <= idx <= max
      invariant Lcp(a, b) == a[..idx] + Lcp(a[idx..], b[idx..])
    {
      assert a[idx..][1..] == a[idx + 1..] && b[idx..][1..] == b[idx + 1..];
      assert a[..idx + 1] == a[..idx] + [a[idx]];
      idx := idx + 1;
    }
    return a[..idx];
  }

  lemma {:induction false} LcpIsGreatest(a: string, b: string, q: string)
    ensures Lcp(a, b) <= a && Lcp(a, b) <= b
    ensures q <= a && q <= b ==> q <= Lcp(a, b)
  {
    if a != "" && b != "" && a[0] == b[0] {
      if q != "" && q <= a && q <= b {
        assert q[0] == a[0] && q[1..] <= a[1..] && q[1..] <= b[1..];
        LcpIsGreatest(a[1..], b[1..], q[1..]);
        assert q == [a[0]] + q[1..];
      } else {
        LcpIsGreatest(a[1..], b[1..], "");
      }
    }
  }

  /** The longest common prefix of the first `n` prompts. */
  function Shared(prompts: seq<string>, n: nat): string
    requires 0 < n <= |prompts|
  {
    if n == 1 then prompts[0] else Lcp(Shared(prompts, n - 1), prompts[n - 1])
  }

  function Template(prompts: seq<string>): string {
    if prompts == [] then "" else TrimSpace(Shared(prompts, |prompts|))
  }

  lemma {:induction false} EmptyStaysEmpty(prompts: seq<string>, m: nat, n: nat)
    requires 0 < m <= n <= |prompts| && Shared(prompts, m) == ""
    ensures Shared(prompts, n) == ""
  {
    if m < n {
      EmptyStaysEmpty(prompts, m, n - 1);
    }
  }

  method DeriveTemplate(prompts: seq<string>) returns (r: string)
    ensures r == Template(prompts)
  {
    if |prompts| == 0 {
      return "";
    }
    var template := prompts[0];
    var i := 1;
    while i < |prompts|
      invariant 1 <= i <= |prompts|
      invariant template == Shared(prompts, i)
    {
      template := CommonPrefix(template, prompts[i]);
      if template == "" {
        EmptyStaysEmpty(prompts, i + 1, |prompts|);
        break;
      }
      i := i + 1;
    }
    return TrimSpace(template);
  }

  /** Before trimming, the template is the greatest common prefix of all samples. */
  lemma {:induction false} SharedIsGreatest(prompts: seq<string>, n: nat, q: string)
    requires 0 < n <= |prompts|
    ensures forall k | 0 <= k < n :: Shared(prompts, n) <= prompts[k]
    ensures (forall k | 0 <= k < n :: q <= prompts[k]) ==> q <= Shared(prompts, n)
  {
    if n > 1 {
      SharedIsGreatest(prompts, n - 1, q);
      LcpIsGreatest(Shared(prompts, n - 1), prompts[n - 1], q);
      forall k | 0 <= k < n
        ensures Shared(prompts, n) <= prompts[k]
      {
        if k < n - 1 {
          PrefixTransitive(Shared(prompts, n), Shared(prompts, n - 1), prompts[k]);
        }
      }
    }
  }

  /** The template is all the samples share, but for white space around it. */
  lemma TemplateIsShared(prompts: seq<string>) returns (lead: string, trail: string)
    requires prompts != []
    ensures Shared(prompts, |prompts|) == lead + Template(prompts) + trail
    ensures AllSpace(lead) && AllSpace(trail) && Trimmed(Template(prompts))
  {
    lead, trail := TrimParts(Shared(prompts, |prompts|));
  }

  lemma PrefixTransitive(a: string, b: string, c: string)
    requires a <= b && b <= c
    ensures a <= c
  {
  }

  // ---------------------------------------------------------------------------
  // Finding the piece to replace
  // ---------------------------------------------------------------------------

  /** The longest prefix of `n` down to three words that occurs in the prompt, or nothing. */
  function PrefixSearch(prompt: string, words: seq<string>, n: nat): string
    requires n <= |words|
  {
    if n < 3 then ""
    else if Contains(prompt, Join(words[..n])) then Join(words[..n])
    else PrefixSearch(prompt, words, n - 1)
  }

  /** The first three-word window from position `i` on that occurs in the prompt, or nothing. */
  function WindowSearch(prompt: string, words: seq<string>, i: nat): string
    decreases |words| - i
  {
    if i + 3 > |words| then ""
    else if Contains(prompt, Join(words[i..i + 3])) then Join(words[i..i + 3])
    else WindowSearch(prompt, words, i + 1)
  }

  /** The words of a template. */
  function Words(template: string): seq<string> {
    Fields(TrimSpace(template))
  }

  function Segment(prompt: string, template: string): string {
    var words := Words(template);
    if TrimSpace(template) == "" || |words| < 3 then ""
    else
      var p := PrefixSearch(prompt, words, |words|);
      if p != "" then p else WindowSearch(prompt, words, 0)
  }

  method FindReplacementSegment(prompt: string, template: string) returns (segment: string)
    ensures segment == Segment(prompt, template)
  {
    var trimmed := TrimSpace(template);
    if trimmed == "" {
      return "";
    }
    var words := Fields(trimmed);
    if |words| < 3 {
      return "";
    }
    FieldsAreWords(trimmed);
    var n := |words|;
    while n >= 3
      invariant 2 <= n <= |words|
      invariant PrefixSearch(prompt, words, |words|) == PrefixSearch(prompt, words, n)
    {
      var candidate := Join(words[..n]);
      if Contains(prompt, candidate) {
        JoinNonEmpty(words[..n]);
        return candidate;
      }
      n := n - 1;
    }
    var i := 0;
    while i + 3 <= |words|
      invariant 0 <= i <= |words| - 2
      invariant WindowSearch(prompt, words, 0) == WindowSearch(prompt, words, i)
    {
      var candidate := Join(words[i..i + 3]);
      if Contains(prompt, candidate) {
        return candidate;
      }
      i := i + 1;
    }
    return "";
  }

  ghost predicate PrefixOccurs(prompt: string, words: seq<string>, n: nat) {
    3 <= n <= |words| && Contains(prompt, Join(words[..n]))
  }

  ghost predicate WindowOccurs(prompt: string, words: seq<string>, i: nat) {
    i + 3 <= |words| && Contains(prompt, Join(words[i..i + 3]))
  }

  /** `seg` is three or more consecutive words, joined, and occurs in the prompt. */
  ghost predicate IsPiece(prompt: string, words: seq<string>, seg: string, i: nat, j: nat) {
    i + 3 <= j <= |words| && seg == Join(words[i..j]) && Contains(prompt, seg) && Fields(seg) == words[i..j]
  }

  lemma {:induction false} PrefixSearchFinds(prompt: string, words: seq<string>, n: nat) returns (m: nat)
    requires AreWords(words) && n <= |words|
    ensures PrefixSearch(prompt, words, n) != "" ==>
              && m <= n && PrefixOccurs(prompt, words, m) && PrefixSearch(prompt, words, n) == Join(words[..m])
              && (forall k | m < k <= n :: !PrefixOccurs(prompt, words, k))
    ensures PrefixSearch(prompt, words, n) == "" ==> forall k | 0 <= k <= n :: !PrefixOccurs(prompt, words, k)
  {
    m := n;
    if n >= 3 {
      if Contains(prompt, Join(words[..n])) {
        JoinNonEmpty(words[..n]);
      } else {
        m := PrefixSearchFinds(prompt, words, n - 1);
      }
    }
  }

  lemma {:induction false} WindowSearchFinds(prompt: string, words: seq<string>, i: nat) returns (m: nat)
    requires AreWords(words)
    ensures WindowSearch(prompt, words, i) != "" ==>
              WindowOccurs(prompt, words, m) && WindowSearch(prompt, words, i) == Join(words[m..m + 3])
    ensures WindowSearch(prompt, words, i) == "" ==> forall k: nat | i <= k :: !WindowOccurs(prompt, words, k)
    decreases |words| - i
  {
    m := i;
    if i + 3 <= |words| {
      if Contains(prompt, Join(words[i..i + 3])) {
        JoinNonEmpty(words[i..i + 3]);
      } else {
        m := WindowSearchFinds(prompt, words, i + 1);
      }
    }
  }

  lemma PrefixHoldsWindow(prompt: string, words: seq<string>, n: nat)
    requires PrefixOccurs(prompt, words, n)
    ensures WindowOccurs(prompt, words, 0)
  {
    JoinPrefix(words[..n], 3);
    assert words[..n][..3] == words[0..3];
    ContainsPrefix(prompt, Join(words[0..3]), Join(words[..n]));
  }

  /** Sound: a non-empty result occurs in the prompt and splits back into three or more consecutive template words. */
  lemma SegmentIsPiece(prompt: string, template: string) returns (i: nat, j: nat)
    requires Segment(prompt, template) != ""
    ensures IsPiece(prompt, Words(template), Segment(prompt, template), i, j)
  {
    var words := Words(template);
    FieldsAreWords(TrimSpace(template));
    var m := PrefixSearchFinds(prompt, words, |words|);
    if PrefixSearch(prompt, words, |words|) != "" {
      i, j := 0, m;
      assert words[..m] == words[0..m];
    } else {
      i := WindowSearchFinds(prompt, words, 0);
      j := i + 3;
    }
    FieldsOfJoin(words[i..j]);
  }

  /** Complete: the result is empty exactly when no three-word window of the template occurs in the prompt. */
  lemma SegmentIsComplete(prompt: string, template: string)
    ensures Segment(prompt, template) == ""
            <==> forall i: nat :: !WindowOccurs(prompt, Words(template), i)
  {
    var words := Words(template);
    FieldsAreWords(TrimSpace(template));
    var p := PrefixSearchFinds(prompt, words, |words|);
    var w := WindowSearchFinds(prompt, words, 0);
    if |words| >= 3 {
      if PrefixSearch(prompt, words, |words|) != "" {
        PrefixHoldsWindow(prompt, words, p);
      } else if WindowSearch(prompt, words, 0) != "" {
        assert WindowOccurs(prompt, words, w);
      }
    }
  }

  /** Maximal: when a prefix of three or more words occurs, the longest such prefix is returned. */
  lemma SegmentIsMaximal(prompt: string, template: string, n: nat)
    requires PrefixOccurs(prompt, Words(template), n)
    requires forall k: nat | n < k :: !PrefixOccurs(prompt, Words(template), k)
    ensures Segment(prompt, template) == Join(Words(template)[..n])
  {
    var words := Words(template);
    FieldsAreWords(TrimSpace(template));
    var m := PrefixSearchFinds(prompt, words, |words|);
    assert m == n;
  }

  lemma {:induction false} WindowSearchIsFirst(prompt: string, words: seq<string>, i: nat, m: nat)
    requires i <= m && WindowOccurs(prompt, words, m) && forall k | i <= k < m :: !WindowOccurs(prompt, words, k)
    ensures WindowSearch(prompt, words, i) == Join(words[m..m + 3])
    decreases m - i
  {
    if i < m {
      assert !WindowOccurs(prompt, words, i);
      WindowSearchIsFirst(prompt, words, i + 1, m);
    }
  }

  /** First: when no such prefix occurs, the leftmost three-word window of the template that does is returned. */
  lemma SegmentIsFirstWindow(prompt: string, template: string, i: nat)
    requires forall n: nat :: !PrefixOccurs(prompt, Words(template), n)
    requires WindowOccurs(prompt, Words(template), i)
    requires forall k: nat | k < i :: !WindowOccurs(prompt, Words(template), k)
    ensures Segment(prompt, template) == Join(Words(template)[i..i + 3])
  {
    var words := Words(template);
    FieldsAreWords(TrimSpace(template));
    var m := PrefixSearchFinds(prompt, words, |words|);
    WindowSearchIsFirst(prompt, words, 0, i);
    if TrimSpace(template) == "" {
      FieldsOfNothing();
    }
  }

  // ---------------------------------------------------------------------------
  // Replacing it
  // ---------------------------------------------------------------------------

  /** The prompt the proxy forwards once a variant is chosen. */
  function Rewrite(prompt: string, template: string, variantPrompt: string): string {
    var segment := Segment(prompt, template);
    if segment == "" then prompt else ReplaceFirst(prompt, segment, variantPrompt)
  }

  method RewritePrompt(prompt: string, template: string, variantPrompt: string) returns (newPrompt: string)
    ensures newPrompt == Rewrite(prompt, template, variantPrompt)
  {
    var segment := FindReplacementSegment(prompt, template);
    if segment == "" {
      return prompt;
    }
    return ReplaceFirst(prompt, segment, variantPrompt);
  }

  /** A rewrite touches the first occurrence of the segment and nothing else. */
  lemma RewriteIsLocal(prompt: string, template: string, variantPrompt: string) returns (i: nat)
    requires Segment(prompt, template) != ""
    ensures var segment := Segment(prompt, template);
            && OccursAt(prompt, segment, i) && (forall j | 0 <= j < i :: !OccursAt(prompt, segment, j))
            && Rewrite(prompt, template, variantPrompt) == prompt[..i] + variantPrompt + prompt[i + |segment|..]
  {
    var segment := Segment(prompt, template);
    var b, e := SegmentIsPiece(prompt, template);
    var k :| 0 <= k <= |prompt| && OccursAt(prompt, segment, k);
    i := FirstOccurrence(prompt, segment, k);
    IndexIsFirst(prompt, segment, 0, i);
  }

  lemma NoSegmentNoRewrite(prompt: string, template: string, variantPrompt: string)
    ensures Segment(prompt, template) == "" ==> Rewrite(prompt, template, variantPrompt) == prompt
  {
  }

  /** Words separated by single spaces, at least three of them: the templates that survive the round trip. */
  predicate SingleSpaced(template: string) {
    |Fields(template)| >= 3 && Join(Fields(template)) == template
  }

  /** Every sample is white space, then the inferred template, then a remainder. */
  lemma SampleParts(prompts: seq<string>, k: nat) returns (lead: string, rest: string)
    requires k < |prompts|
    ensures prompts[k] == lead + Template(prompts) + rest && AllSpace(lead)
    ensures Trimmed(Template(prompts))
  {
    var shared := Shared(prompts, |prompts|);
    SharedIsGreatest(prompts, |prompts|, "");
    var trail;
    lead, trail := TrimParts(shared);
    var more := prompts[k][|shared|..];
    rest := trail + more;
    var t := Template(prompts);
    assert prompts[k] == shared + more;
    assert (lead + t + trail) + more == lead + t + (trail + more);
  }

  /** A trimmed text behind white space first occurs right after it. */
  lemma FirstAfterSpace(lead: string, t: string, rest: string)
    requires AllSpace(lead) && Trimmed(t) && t != ""
    ensures IndexFrom(lead + t + rest, t, 0) == Some(|lead|)
    ensures Contains(lead + t + rest, t)
  {
    var p := lead + t + rest;
    assert p[|lead|..|lead| + |t|] == t;
    assert OccursAt(p, t, |lead|);
    forall j | 0 <= j < |lead|
      ensures !OccursAt(p, t, j)
    {
      assert p[j] == lead[j];
      assert j + |t| <= |p| ==> p[j..j + |t|][0] == p[j];
    }
    IndexIsFirst(p, t, 0, |lead|);
  }

  /** For a prompt that contains it, a trimmed non-empty template is found whole exactly when it is single-spaced. */
  lemma WholeTemplateFound(prompt: string, t: string)
    requires Trimmed(t) && t != "" && Contains(prompt, t)
    ensures Segment(prompt, t) == t <==> SingleSpaced(t)
  {
    var words := Fields(t);
    TrimmedIsFixed(t);
    FieldsAreWords(t);
    if SingleSpaced(t) {
      assert words[..|words|] == words;
      assert PrefixSearch(prompt, words, |words|) == t;
    }
    if Segment(prompt, t) == t {
      var i, j := SegmentIsPiece(prompt, t);
      assert |words[i..j]| == |words|;
      assert words[i..j] == words;
    }
  }

  lemma DoubleSpacedWords(a: string, b: string, c: string)
    requires a != "" && b != "" && c != "" && NoSpace(a) && NoSpace(b) && NoSpace(c)
    ensures var t := a + ("  " + (b + (" " + c)));
            Fields(t) == [a, b, c] && |Join([a, b, c])| == |t| - 1 && Trimmed(t)
  {
    hide Fields;
    var end := b + (" " + c);
    FieldsOfNothing();
    FieldsWordFirst(c, "");
    assert c + "" == c;
    FieldsSkipSpace(c);
    FieldsWordFirst(b, " " + c);
    assert " " + (" " + end) == "  " + end;
    FieldsSkipSpace(end);
    FieldsSkipSpace(" " + end);
    FieldsWordFirst(a, "  " + end);
    assert [a, b, c][1..] == [b, c] && [b, c][1..] == [c];
    assert Join([c]) == c && Join([b, c]) == end;
    var t := a + ("  " + end);
    assert t[0] == a[0] && t[|t| - 1] == c[|c| - 1];
  }

  /** A double space between two words is enough to keep a template from being found whole in its own sample. */
  lemma DoubleSpaceDefeatsMatch(a: string, b: string, c: string)
    requires a != "" && b != "" && c != "" && NoSpace(a) && NoSpace(b) && NoSpace(c)
    ensures var t := a + ("  " + (b + (" " + c)));
            Template([t]) == t && !SingleSpaced(t) && Segment(t, t) != t
  {
    hide Fields, Join, Segment;
    var t := a + ("  " + (b + (" " + c)));
    DoubleSpacedWords(a, b, c);
    TrimmedIsFixed(t);
    assert OccursAt(t, t, 0);
    WholeTemplateFound(t, t);
  }

  /**
   End to end. Whatever the samples, the template inferred from them is cut whole out of every one of them exactly
   when it has three or more words separated by single spaces; and then the rewritten prompt is the sample's leading
   white space, the variant, and the untouched remainder.
   */
  lemma SpliceIsExact(prompts: seq<string>, k: nat, variantPrompt: string) returns (lead: string, rest: string)
    requires k < |prompts| && Template(prompts) != ""
    ensures prompts[k] == lead + Template(prompts) + rest && AllSpace(lead)
    ensures Segment(prompts[k], Template(prompts)) == Template(prompts) <==> SingleSpaced(Template(prompts))
    ensures SingleSpaced(Template(prompts)) ==>
              Rewrite(prompts[k], Template(prompts), variantPrompt) == lead + variantPrompt + rest
  {
    var t := Template(prompts);
    lead, rest := SampleParts(prompts, k);
    FirstAfterSpace(lead, t, rest);
    WholeTemplateFound(prompts[k], t);
    assert (lead + t + rest)[..|lead|] == lead && (lead + t + rest)[|lead| + |t|..] == rest;
  }
}
