/**
 Ranking a pool: the best candidate and the top n
 (internal/optimizer/gepa: CandidatePool in candidate.go, topN in gepa.go).
 */
module Ranking {
  import opened Common
  import opened Pareto

  // ---------------------------------------------------------------------------
  // Reference order: a stable sort, best aggregate score first
  // ---------------------------------------------------------------------------

  /** Places `c` ahead of everything that does not beat it. */
  function Insert(c: Candidate, sorted: seq<Candidate>): (r: seq<Candidate>)
    ensures |r| == |sorted| + 1
  {
    if sorted == [] || sorted[0].aggScore <= c.aggScore then [c] + sorted
    else [sorted[0]] + Insert(c, sorted[1..])
  }

  /** Insertion sort from the right, so equal scores keep their pool order. */
  function StableSort(s: seq<Candidate>): (r: seq<Candidate>)
    ensures |r| == |s|
  {
    if s == [] then [] else Insert(s[0], StableSort(s[1..]))
  }

  ghost predicate Descending(s: seq<Candidate>) {
    forall i, j | 0 <= i < j < |s| :: s[i].aggScore >= s[j].aggScore
  }

  /** The members with one given score, in order: what "stable" preserves. */
  function WithScore(s: seq<Candidate>, x: real): seq<Candidate> {
    if s == [] then []
    else if s[0].aggScore == x then [s[0]] + WithScore(s[1..], x)
    else WithScore(s[1..], x)
  }

  lemma {:induction false} InsertMultiset(c: Candidate, s: seq<Candidate>)
    ensures multiset(Insert(c, s)) == multiset{c} + multiset(s)
  {
    if s != [] && s[0].aggScore > c.aggScore {
      InsertMultiset(c, s[1..]);
      assert s == [s[0]] + s[1..];
    }
  }

  lemma {:induction false} InsertDescending(c: Candidate, s: seq<Candidate>)
    requires Descending(s)
    ensures Descending(Insert(c, s))
  {
    if s != [] && s[0].aggScore > c.aggScore {
      InsertDescending(c, s[1..]);
      InsertMembers(c, s[1..]);
      assert forall x | x in s[1..] :: s[0].aggScore >= x.aggScore;
      LeadDescends(s[0], Insert(c, s[1..]));
    }
  }

  lemma InsertMembers(c: Candidate, s: seq<Candidate>)
    ensures forall x | x in Insert(c, s) :: x == c || x in s
  {
    InsertMultiset(c, s);
    forall x | x in Insert(c, s)
      ensures x == c || x in s
    {
      assert x in multiset(Insert(c, s));
    }
  }

  lemma LeadDescends(top: Candidate, s: seq<Candidate>)
    requires Descending(s) && forall x | x in s :: top.aggScore >= x.aggScore
    ensures Descending([top] + s)
  {
  }

  lemma {:induction false} InsertStable(c: Candidate, s: seq<Candidate>, x: real)
    ensures WithScore(Insert(c, s), x) == WithScore([c], x) + WithScore(s, x)
  {
    if s == [] || s[0].aggScore <= c.aggScore {
      assert ([c] + s)[1..] == s;
    } else {
      var rest := Insert(c, s[1..]);
      InsertStable(c, s[1..], x);
      assert ([s[0]] + rest)[1..] == rest;
      if s[0].aggScore == x {
        assert WithScore([c], x) == [];
      }
    }
  }

  lemma {:induction false} SortMultiset(s: seq<Candidate>)
    ensures multiset(StableSort(s)) == multiset(s)
  {
    if s != [] {
      SortMultiset(s[1..]);
      InsertMultiset(s[0], StableSort(s[1..]));
      assert s == [s[0]] + s[1..];
    }
  }

  lemma {:induction false} SortDescending(s: seq<Candidate>)
    ensures Descending(StableSort(s))
  {
    if s != [] {
      SortDescending(s[1..]);
      InsertDescending(s[0], StableSort(s[1..]));
    }
  }

  lemma {:induction false} SortStable(s: seq<Candidate>, x: real)
    ensures WithScore(StableSort(s), x) == WithScore(s, x)
  {
    if s != [] {
      SortStable(s[1..], x);
      InsertStable(s[0], StableSort(s[1..]), x);
      assert WithScore([s[0]], x) == if s[0].aggScore == x then [s[0]] else [];
    }
  }

  /** `StableSort` deserves its name: a descending rearrangement that keeps ties in pool order. */
  lemma StableSortIsStableDescending(s: seq<Candidate>, x: real)
    ensures Descending(StableSort(s))
    ensures multiset(StableSort(s)) == multiset(s)
    ensures WithScore(StableSort(s), x) == WithScore(s, x)
  {
    SortMultiset(s);
    SortDescending(s);
    SortStable(s, x);
  }

  // ---------------------------------------------------------------------------
  // topN: repeated selection of the first best remaining candidate
  // ---------------------------------------------------------------------------

  /** `b` is the first position of the largest aggregate score. */
  ghost predicate IsFirstBest(s: seq<Candidate>, b: int) {
    && 0 <= b < |s|
    && (forall j | 0 <= j < b :: s[j].aggScore < s[b].aggScore)
    && (forall j | b < j < |s| :: s[j].aggScore <= s[b].aggScore)
  }

  function TopN(all: seq<Candidate>, n: int): seq<Candidate> {
    if n <= 0 then [] else StableSort(all)[..Min(n, |all|)]
  }

  lemma SortHeadIsMember(s: seq<Candidate>) returns (j: nat)
    requires s != []
    ensures j < |s| && s[j] == StableSort(s)[0]
  {
    SortMultiset(s);
    var top := StableSort(s)[0];
    assert top in multiset(StableSort(s));
    assert top in s;
    j :| 0 <= j < |s| && s[j] == top;
  }

  /** All of `s` but position `b`. */
  function Without(s: seq<Candidate>, b: nat): seq<Candidate>
    requires b < |s|
  {
    s[..b] + s[b + 1..]
  }

  /** The first best candidate heads the sorted pool, and what follows is the rest of the pool, sorted. */
  lemma {:induction false} FirstBestLeads(s: seq<Candidate>, b: int)
    requires IsFirstBest(s, b)
    ensures StableSort(s) == [s[b]] + StableSort(Without(s, b))
  {
    var t := s[1..];
    if b == 0 {
      assert Without(s, 0) == t;
      if t != [] {
        var j := SortHeadIsMember(t);
        assert s[j + 1] == t[j];
      }
    } else {
      FirstBestTail(s, b);
      FirstBestLeads(t, b - 1);
      WithoutTail(s, b);
      InsertBehind(s[0], s[b], StableSort(Without(t, b - 1)));
    }
  }

  lemma WithoutTail(s: seq<Candidate>, b: nat)
    requires 0 < b < |s|
    ensures Without(s, b) != [] && Without(s, b)[0] == s[0]
    ensures Without(s, b)[1..] == Without(s[1..], b - 1)
  {
  }

  lemma FirstBestTail(s: seq<Candidate>, b: int)
    requires IsFirstBest(s, b) && b > 0
    ensures IsFirstBest(s[1..], b - 1) && s[1..][b - 1] == s[b] && s[0].aggScore < s[b].aggScore
  {
  }

  lemma InsertBehind(c: Candidate, top: Candidate, s: seq<Candidate>)
    requires c.aggScore < top.aggScore
    ensures Insert(c, [top] + s) == [top] + Insert(c, s)
  {
    assert ([top] + s)[1..] == s;
  }

  /** The candidates not yet picked, in pool order. */
  function Remaining(all: seq<Candidate>, picked: seq<bool>): seq<Candidate>
    requires |all| == |picked|
  {
    if all == [] then []
    else Remaining(all[..|all| - 1], picked[..|all| - 1]) + if picked[|all| - 1] then [] else [all[|all| - 1]]
  }

  lemma {:induction false} RemainingSplit(all: seq<Candidate>, picked: seq<bool>, b: nat)
    requires |all| == |picked| && b < |all|
    ensures Remaining(all, picked)
            == Remaining(all[..b], picked[..b]) + (if picked[b] then [] else [all[b]])
               + Remaining(all[b + 1..], picked[b + 1..])
    decreases |all|
  {
    var n := |all| - 1;
    if b < n {
      RemainingSplit(all[..n], picked[..n], b);
      assert all[..n][..b] == all[..b] && picked[..n][..b] == picked[..b];
      assert all[b + 1..][..n - b - 1] == all[..n][b + 1..];
      assert picked[b + 1..][..n - b - 1] == picked[..n][b + 1..];
    }
  }

  lemma {:induction false} RemainingMembers(all: seq<Candidate>, picked: seq<bool>)
    requires |all| == |picked|
    ensures forall c | c in Remaining(all, picked) :: exists j :: 0 <= j < |all| && !picked[j] && all[j] == c
  {
    if all != [] {
      var n := |all| - 1;
      RemainingMembers(all[..n], picked[..n]);
      forall c | c in Remaining(all, picked)
        ensures exists j :: 0 <= j < |all| && !picked[j] && all[j] == c
      {
        if c in Remaining(all[..n], picked[..n]) {
          var j :| 0 <= j < n && !picked[..n][j] && all[..n][j] == c;
          assert !picked[j] && all[j] == c;
        }
      }
    }
  }

  /** The scan in `topN` finds the first best remaining candidate; picking it removes exactly that one. */
  lemma PickRemovesFirstBest(all: seq<Candidate>, picked: seq<bool>, b: nat)
    requires |all| == |picked| && b < |all| && !picked[b]
    requires forall j | 0 <= j < b && !picked[j] :: all[j].aggScore < all[b].aggScore
    requires forall j | b < j < |all| && !picked[j] :: all[j].aggScore <= all[b].aggScore
    ensures StableSort(Remaining(all, picked)) == [all[b]] + StableSort(Remaining(all, picked[b := true]))
  {
    hide Remaining, StableSort;
    var before := Remaining(all[..b], picked[..b]);
    var after := Remaining(all[b + 1..], picked[b + 1..]);
    RemainingSplit(all, picked, b);
    RemainingSplit(all, picked[b := true], b);
    assert picked[b := true][..b] == picked[..b] && picked[b := true][b + 1..] == picked[b + 1..];
    forall c | c in before
      ensures c.aggScore < all[b].aggScore
    {
      RemainingMembers(all[..b], picked[..b]);
    }
    forall c | c in after
      ensures c.aggScore <= all[b].aggScore
    {
      RemainingMembers(all[b + 1..], picked[b + 1..]);
    }
    MiddleIsFirstBest(before, all[b], after);
    assert before + [] + after == before + after;
  }

  lemma MiddleIsFirstBest(before: seq<Candidate>, top: Candidate, after: seq<Candidate>)
    requires forall c | c in before :: c.aggScore < top.aggScore
    requires forall c | c in after :: c.aggScore <= top.aggScore
    ensures StableSort(before + [top] + after) == [top] + StableSort(before + after)
  {
    var s := before + [top] + after;
    forall j | |before| < j < |s|
      ensures s[j].aggScore <= top.aggScore
    {
      assert s[j] == after[j - |before| - 1];
    }
    forall j | 0 <= j < |before|
      ensures s[j].aggScore < top.aggScore
    {
      assert s[j] == before[j];
    }
    FirstBestLeads(s, |before|);
    assert Without(s, |before|) == before + after;
  }

  lemma {:induction false} NothingPicked(all: seq<Candidate>, picked: seq<bool>)
    requires |all| == |picked| && forall i | 0 <= i < |picked| :: !picked[i]
    ensures Remaining(all, picked) == all
  {
    if all != [] {
      NothingPicked(all[..|all| - 1], picked[..|all| - 1]);
    }
  }

  /** One scan: the first best position not yet picked, or -1 when everything is picked. */
  method ScanBest(all: seq<Candidate>, picked: array<bool>) returns (best: int)
    requires |all| == picked.Length
    ensures -1 <= best < |all|
    ensures best == -1 ==> forall j | 0 <= j < |all| :: picked[j]
    ensures best != -1 ==>
              && !picked[best]
              && (forall j | 0 <= j < best && !picked[j] :: all[j].aggScore < all[best].aggScore)
              && (forall j | best < j < |all| && !picked[j] :: all[j].aggScore <= all[best].aggScore)
  {
    best := -1;
    for i := 0 to |all|
      invariant -1 <= best < i
      invariant best == -1 ==> forall j | 0 <= j < i :: picked[j]
      invariant best != -1 ==>
                  && !picked[best]
                  && (forall j | 0 <= j < best && !picked[j] :: all[j].aggScore < all[best].aggScore)
                  && (forall j | best < j < i && !picked[j] :: all[j].aggScore <= all[best].aggScore)
    {
      if picked[i] {
        continue;
      }
      if best == -1 || all[i].aggScore > all[best].aggScore {
        best := i;
      }
    }
  }

  lemma {:induction false} EverythingPicked(all: seq<Candidate>, picked: seq<bool>)
    requires |all| == |picked| && forall i | 0 <= i < |picked| :: picked[i]
    ensures Remaining(all, picked) == []
  {
    if all != [] {
      EverythingPicked(all[..|all| - 1], picked[..|all| - 1]);
    }
  }

  /** What the outer loop of `topN` keeps: the output so far, then the unpicked rest sorted, is the sorted pool. */
  ghost predicate SelectionInvariant(all: seq<Candidate>, picked: seq<bool>, out: seq<Candidate>) {
    |all| == |picked| && StableSort(all) == out + StableSort(Remaining(all, picked))
  }

  lemma SelectionStep(all: seq<Candidate>, picked: seq<bool>, out: seq<Candidate>, b: nat)
    requires SelectionInvariant(all, picked, out)
    requires b < |all| && !picked[b]
    requires forall j | 0 <= j < b && !picked[j] :: all[j].aggScore < all[b].aggScore
    requires forall j | b < j < |all| && !picked[j] :: all[j].aggScore <= all[b].aggScore
    ensures SelectionInvariant(all, picked[b := true], out + [all[b]])
  {
    PickRemovesFirstBest(all, picked, b);
    var rest := StableSort(Remaining(all, picked[b := true]));
    assert out + ([all[b]] + rest) == (out + [all[b]]) + rest;
  }

  lemma SelectionDone(all: seq<Candidate>, picked: seq<bool>, out: seq<Candidate>, n: int)
    requires SelectionInvariant(all, picked, out)
    requires n > 0 && |out| == Min(n, |all|)
    ensures out == TopN(all, n)
  {
  }

  method SelectTopN(all: seq<Candidate>, n: int) returns (out: seq<Candidate>)
    ensures out == TopN(all, n)
  {
    if n <= 0 || |all| == 0 {
      return [];
    }
    var limit := if n > |all| then |all| else n;
    out := [];
    var picked := new bool[|all|](_ => false);
    NothingPicked(all, picked[..]);
    assert [] + StableSort(all) == StableSort(all);
    while |out| < limit
      invariant |out| <= limit
      invariant SelectionInvariant(all, picked[..], out)
      decreases limit - |out|
    {
      var best := ScanBest(all, picked);
      if best == -1 {
        EverythingPicked(all, picked[..]);
        break;
      }
      SelectionStep(all, picked[..], out, best);
      ghost var was := picked[..];
      picked[best] := true;
      assert picked[..] == was[best := true];
      out := out + [all[best]];
    }
    SelectionDone(all, picked[..], out, n);
  }

  lemma TopNIsPrefix(all: seq<Candidate>, m: int, n: int)
    requires m <= n
    ensures |TopN(all, n)| == if n <= 0 then 0 else Min(n, |all|)
    ensures TopN(all, n) <= StableSort(all)
    ensures TopN(all, m) <= TopN(all, n)
  {
  }

  /** The top n and the rest make up the pool, and nothing left out beats anything picked. */
  lemma TopNIsBest(all: seq<Candidate>, n: int) returns (rest: seq<Candidate>)
    ensures multiset(TopN(all, n)) + multiset(rest) == multiset(all)
    ensures forall i, j | 0 <= i < |TopN(all, n)| && 0 <= j < |rest| :: TopN(all, n)[i].aggScore >= rest[j].aggScore
    ensures n >= |all| ==> rest == []
  {
    hide StableSort;
    var s, k := StableSort(all), |TopN(all, n)|;
    SortMultiset(all);
    SortDescending(all);
    rest := s[k..];
    assert s == TopN(all, n) + rest;
    forall i, j | 0 <= i < k && 0 <= j < |rest|
      ensures TopN(all, n)[i].aggScore >= rest[j].aggScore
    {
      assert TopN(all, n)[i] == s[i] && rest[j] == s[k + j];
    }
  }

  // ---------------------------------------------------------------------------
  // The candidate pool
  // ---------------------------------------------------------------------------

  /** The first candidate with the largest aggregate score, if any. */
  function Best(pool: seq<Candidate>): Option<Candidate> {
    if pool == [] then None
    else match Best(pool[..|pool| - 1])
      case None => Some(pool[|pool| - 1])
      case Some(b) => if pool[|pool| - 1].aggScore > b.aggScore then Some(pool[|pool| - 1]) else Some(b)
  }

  lemma {:induction false} BestIsFirstBest(pool: seq<Candidate>) returns (b: nat)
    requires pool != []
    ensures IsFirstBest(pool, b) && Best(pool) == Some(pool[b])
  {
    var n := |pool| - 1;
    if n == 0 {
      b := 0;
    } else {
      b := BestIsFirstBest(pool[..n]);
      assert forall j | 0 <= j < n :: pool[..n][j] == pool[j];
      if pool[n].aggScore > pool[b].aggScore {
        b := n;
      }
    }
  }

  /** The best candidate is the first of any non-empty selection, and nobody scores higher. */
  lemma BestHeadsTopN(pool: seq<Candidate>, n: int)
    requires pool != []
    ensures Best(pool).Some?
    ensures Best(pool).value in pool
    ensures forall c | c in pool :: Best(pool).value.aggScore >= c.aggScore
    ensures n > 0 ==> TopN(pool, n) != [] && TopN(pool, n)[0] == Best(pool).value
  {
    var b := BestIsFirstBest(pool);
    FirstBestLeads(pool, b);
    TopNIsPrefix(pool, n, n);
  }

  class CandidatePool {
    var candidates: seq<Candidate>

    constructor ()
      ensures candidates == []
    {
      candidates := [];
    }

    method Add(c: Candidate)
      modifies this
      ensures candidates == old(candidates) + [c]
    {
      candidates := candidates + [c];
    }

    method All() returns (out: seq<Candidate>)
      ensures out == candidates
    {
      out := candidates;
    }

    method GetBest() returns (best: Option<Candidate>)
      ensures best == Best(candidates)
    {
      best := None;
      for i := 0 to |candidates|
        invariant best == Best(candidates[..i])
      {
        var c := candidates[i];
        assert candidates[..i + 1][..i] == candidates[..i];
        if best == None || c.aggScore > best.value.aggScore {
          best := Some(c);
        }
      }
      assert candidates[..|candidates|] == candidates;
    }
  }
}
