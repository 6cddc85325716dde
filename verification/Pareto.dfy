/**
 Candidates, their scores, and the Pareto frontier of a pool
 (internal/optimizer/gepa: candidate.go, pareto.go, and mean from gepa.go).
 */
module Pareto {
  import opened Common

  datatype Candidate = Candidate(
    id: string,
    prompt: string,
    parentId: string,
    scores: seq<real>,
    aggScore: real,
    generation: int,
    asi: string)

  // ---------------------------------------------------------------------------
  // Mean
  // ---------------------------------------------------------------------------

  function Sum(v: seq<real>): real {
    if v == [] then 0.0 else Sum(v[..|v| - 1]) + v[|v| - 1]
  }

  function MeanOf(v: seq<real>): real {
    if v == [] then 0.0 else Sum(v) / |v| as real
  }

  method Mean(vals: seq<real>) returns (m: real)
    ensures m == MeanOf(vals)
  {
    if |vals| == 0 {
      return 0.0;
    }
    var sum := 0.0;
    for i := 0 to |vals|
      invariant sum == Sum(vals[..i])
    {
      assert vals[..i + 1][..i] == vals[..i];
      sum := sum + vals[i];
    }
    assert vals[..|vals|] == vals;
    return sum / |vals| as real;
  }

  lemma {:induction false} SumOfConcat(a: seq<real>, b: seq<real>)
    ensures Sum(a + b) == Sum(a) + Sum(b)
  {
    if b == [] {
      assert a + b == a;
    } else {
      var n := |b| - 1;
      SumOfConcat(a, b[..n]);
      assert (a + b)[..|a| + n] == a + b[..n];
    }
  }

  /** The mean is the average: means weigh by length, a single value is its own mean, and no values have mean zero. */
  lemma MeanIsAverage(a: seq<real>, b: seq<real>, x: real)
    ensures MeanOf([]) == 0.0 && MeanOf([x]) == x
    ensures MeanOf(a + b) * |a + b| as real == MeanOf(a) * |a| as real + MeanOf(b) * |b| as real
  {
    SumOfConcat(a, b);
    MeanTimesLength(a);
    MeanTimesLength(b);
    MeanTimesLength(a + b);
    assert [x][..0] == [];
  }

  lemma MeanTimesLength(v: seq<real>)
    ensures MeanOf(v) * |v| as real == Sum(v)
  {
  }

  // ---------------------------------------------------------------------------
  // Dominance
  // ---------------------------------------------------------------------------

  /** At least as good wherever `a` has a score, better somewhere, and `b` scored on at least as many points. */
  predicate Dominates(a: seq<real>, b: seq<real>) {
    && |a| <= |b|
    && (forall i | 0 <= i < |a| :: a[i] >= b[i])
    && (exists i | 0 <= i < |a| :: a[i] > b[i])
  }

  method CheckDominates(a: seq<real>, b: seq<real>) returns (r: bool)
    ensures r == Dominates(a, b)
  {
    var strictlyBetter := false;
    for i := 0 to |a|
      invariant i <= |b|
      invariant forall j | 0 <= j < i :: a[j] >= b[j]
      invariant strictlyBetter <==> exists j | 0 <= j < i :: a[j] > b[j]
    {
      if i >= |b| {
        return false;
      }
      if a[i] < b[i] {
        return false;
      }
      if a[i] > b[i] {
        strictlyBetter := true;
      }
    }
    return strictlyBetter;
  }

  /** Dominance is a strict partial order on all score vectors, whatever their lengths. */
  lemma DominanceIsStrictPartialOrder(a: seq<real>, b: seq<real>, c: seq<real>)
    ensures !Dominates(a, a)
    ensures Dominates(a, b) ==> !Dominates(b, a)
    ensures Dominates(a, b) && Dominates(b, c) ==> Dominates(a, c)
  {
    if Dominates(a, b) {
      var i :| 0 <= i < |a| && a[i] > b[i];
      if Dominates(b, c) {
        assert a[i] > c[i];
      }
    }
  }

  /** What decides: a single point by its score, more points one by one; scores beyond the candidate's own are ignored. */
  lemma DominanceByPoints(a: seq<real>, b: seq<real>, x: real, y: real, more: seq<real>)
    ensures Dominates([x], [y]) <==> x > y
    ensures |a| == |b| ==>
              (Dominates(a + [x], b + [y])
               <==> (x >= y && Dominates(a, b)) || (x > y && forall i | 0 <= i < |a| :: a[i] >= b[i]))
    ensures |a| <= |b| ==> (Dominates(a, b + more) <==> Dominates(a, b))
    ensures |a| > |b| ==> !Dominates(a, b)
  {
    assert [x][0] == x && [y][0] == y;
    if |a| == |b| {
      PointAdded(a, b, x, y);
    }
    if |a| <= |b| {
      assert forall i | 0 <= i < |a| :: (b + more)[i] == b[i];
      if Dominates(a, b) {
        var i :| 0 <= i < |a| && a[i] > b[i];
        assert a[i] > (b + more)[i];
      }
    }
  }

  lemma PointAdded(a: seq<real>, b: seq<real>, x: real, y: real)
    requires |a| == |b|
    ensures Dominates(a + [x], b + [y])
            <==> (x >= y && Dominates(a, b)) || (x > y && forall i | 0 <= i < |a| :: a[i] >= b[i])
  {
    var c, d := a + [x], b + [y];
    assert c[|a|] == x && d[|a|] == y;
    assert forall i | 0 <= i < |a| :: c[i] == a[i] && d[i] == b[i];
    if Dominates(a, b) {
      var i :| 0 <= i < |a| && a[i] > b[i];
      assert c[i] > d[i];
    }
    if Dominates(c, d) {
      var i :| 0 <= i < |c| && c[i] > d[i];
      assert i < |a| ==> a[i] > b[i];
      assert forall j | 0 <= j < |a| :: c[j] >= d[j];
    }
  }

  lemma {:induction false} PointwiseSum(a: seq<real>, b: seq<real>)
    requires |a| == |b|
    requires forall i | 0 <= i < |a| :: a[i] >= b[i]
    ensures Sum(a) >= Sum(b)
    ensures (exists i | 0 <= i < |a| :: a[i] > b[i]) ==> Sum(a) > Sum(b)
  {
    if a != [] {
      PointwiseSum(a[..|a| - 1], b[..|b| - 1]);
      if i :| 0 <= i < |a| && a[i] > b[i] {
        if i < |a| - 1 {
          assert a[..|a| - 1][i] > b[..|b| - 1][i];
        }
      }
    }
  }

  /** Between vectors scored on the same points, dominating means a strictly larger mean. */
  lemma DominanceRaisesMean(a: seq<real>, b: seq<real>)
    requires |a| == |b| && Dominates(a, b)
    ensures MeanOf(a) > MeanOf(b)
  {
    PointwiseSum(a, b);
    DivideStrict(Sum(a), Sum(b), |a| as real);
  }

  lemma DivideStrict(x: real, y: real, n: real)
    requires x > y && n > 0.0
    ensures x / n > y / n
  {
    assert x / n - y / n == (x - y) / n;
  }

  // ---------------------------------------------------------------------------
  // Frontier
  // ---------------------------------------------------------------------------

  predicate IsDominated(c: Candidate, pool: seq<Candidate>) {
    exists o :: o in pool && Dominates(o.scores, c.scores)
  }

  /** The members of `xs`, in order, that nobody in `pool` dominates. */
  function Undominated(xs: seq<Candidate>, pool: seq<Candidate>): seq<Candidate> {
    if xs == [] then [] else
      var rest := Undominated(xs[..|xs| - 1], pool);
      var c := xs[|xs| - 1];
      if IsDominated(c, pool) then rest else rest + [c]
  }

  function Frontier(pool: seq<Candidate>): seq<Candidate> {
    Undominated(pool, pool)
  }

  method ParetoFrontier(pool: seq<Candidate>) returns (frontier: seq<Candidate>)
    ensures frontier == Frontier(pool)
  {
    frontier := [];
    for i := 0 to |pool|
      invariant frontier == Undominated(pool[..i], pool)
    {
      var c := pool[i];
      var dominated := false;
      for j := 0 to |pool|
        invariant !dominated
        invariant forall k | 0 <= k < j :: !Dominates(pool[k].scores, c.scores)
      {
        var other := pool[j];
        if other == c {
          DominanceIsStrictPartialOrder(c.scores, c.scores, c.scores);
          continue;
        }
        var d := CheckDominates(other.scores, c.scores);
        if d {
          dominated := true;
          break;
        }
      }
      assert pool[..i + 1][..i] == pool[..i];
      if !dominated {
        frontier := frontier + [c];
      }
    }
    assert pool[..|pool|] == pool;
  }

  lemma {:induction false} UndominatedMembers(xs: seq<Candidate>, pool: seq<Candidate>)
    ensures forall c :: c in Undominated(xs, pool) <==> c in xs && !IsDominated(c, pool)
  {
    if xs != [] {
      UndominatedMembers(xs[..|xs| - 1], pool);
      assert xs == xs[..|xs| - 1] + [xs[|xs| - 1]];
    }
  }

  /** The undominated are kept in order, each as often as it occurs. */
  lemma {:induction false} FrontierIsInOrder(xs: seq<Candidate>, ys: seq<Candidate>, pool: seq<Candidate>, c: Candidate)
    ensures Undominated(xs + ys, pool) == Undominated(xs, pool) + Undominated(ys, pool)
    ensures Undominated([c], pool) == if IsDominated(c, pool) then [] else [c]
  {
    hide IsDominated;
    assert [c][..0] == [];
    assert Undominated([], pool) == [];
    if ys == [] {
      assert xs + ys == xs;
    } else {
      var n := |ys| - 1;
      FrontierIsInOrder(xs, ys[..n], pool, c);
      assert (xs + ys)[..|xs| + n] == xs + ys[..n] && (xs + ys)[|xs| + n] == ys[n];
      Regroup(Undominated(xs, pool), Undominated(ys[..n], pool), ys[n]);
    }
  }

  lemma Regroup<T>(a: seq<T>, b: seq<T>, c: T)
    ensures (a + b) + [c] == a + (b + [c])
  {
  }

  ghost function Dominators(scores: seq<real>, pool: seq<Candidate>): set<Candidate> {
    set o | o in pool && Dominates(o.scores, scores)
  }

  /** Whatever a pool dominates, a frontier member of that pool already dominates. */
  lemma {:induction false} FrontierCovers(pool: seq<Candidate>, c: Candidate)
    requires IsDominated(c, pool)
    ensures IsDominated(c, Frontier(pool))
    decreases |Dominators(c.scores, pool)|
  {
    var o :| o in pool && Dominates(o.scores, c.scores);
    UndominatedMembers(pool, pool);
    if IsDominated(o, pool) {
      forall x | x in Dominators(o.scores, pool)
        ensures x in Dominators(c.scores, pool)
      {
        DominanceIsStrictPartialOrder(x.scores, o.scores, c.scores);
      }
      DominanceIsStrictPartialOrder(o.scores, o.scores, o.scores);
      assert o in Dominators(c.scores, pool) - Dominators(o.scores, pool);
      ProperSubsetSmaller(Dominators(o.scores, pool), Dominators(c.scores, pool));
      FrontierCovers(pool, o);
      var f :| f in Frontier(pool) && Dominates(f.scores, o.scores);
      DominanceIsStrictPartialOrder(f.scores, o.scores, c.scores);
    }
  }

  lemma ProperSubsetSmaller<T>(a: set<T>, b: set<T>)
    requires a < b
    ensures |a| < |b|
  {
    assert b == a + (b - a);
    assert |b - a| > 0;
  }

  /**
   Every member is on the frontier or dominated by a frontier member, never both; so a non-empty pool has a non-empty
   frontier.
   */
  lemma FrontierPartition(pool: seq<Candidate>)
    ensures forall c | c in pool :: c in Frontier(pool) <==> !IsDominated(c, Frontier(pool))
    ensures forall c :: c in Frontier(pool) ==> c in pool
    ensures pool != [] ==> Frontier(pool) != []
  {
    UndominatedMembers(pool, pool);
    forall c | c in pool
      ensures c in Frontier(pool) <==> !IsDominated(c, Frontier(pool))
    {
      if IsDominated(c, pool) {
        FrontierCovers(pool, c);
      }
    }
    if pool != [] {
      assert pool[0] in pool;
    }
  }

  /** Dominance by a pool, by its frontier, and by anything in between agree. */
  lemma SameUndominated(xs: seq<Candidate>, p: seq<Candidate>, q: seq<Candidate>)
    requires forall c | c in xs :: IsDominated(c, p) <==> IsDominated(c, q)
    ensures Undominated(xs, p) == Undominated(xs, q)
  {
    if xs != [] {
      assert forall c | c in xs[..|xs| - 1] :: c in xs;
      SameUndominated(xs[..|xs| - 1], p, q);
    }
  }

  /** Filtering against `q` after filtering against `p`, when `q` dominates everything `p` does. */
  lemma {:induction false} UndominatedTwice(xs: seq<Candidate>, p: seq<Candidate>, q: seq<Candidate>)
    requires forall c | c in xs :: IsDominated(c, p) ==> IsDominated(c, q)
    ensures Undominated(Undominated(xs, p), q) == Undominated(xs, q)
  {
    if xs != [] {
      assert forall c | c in xs[..|xs| - 1] :: c in xs;
      UndominatedTwice(xs[..|xs| - 1], p, q);
      var c := xs[|xs| - 1];
      if !IsDominated(c, p) {
        var kept := Undominated(xs[..|xs| - 1], p);
        assert (kept + [c])[..|kept|] == kept;
      }
    }
  }

  lemma FrontierIdempotent(pool: seq<Candidate>)
    ensures Frontier(Frontier(pool)) == Frontier(pool)
  {
    FrontierPartition(pool);
    NobodyDominated(Frontier(pool), Frontier(pool));
  }

  lemma {:induction false} NobodyDominated(xs: seq<Candidate>, pool: seq<Candidate>)
    requires forall c | c in xs :: !IsDominated(c, pool)
    ensures Undominated(xs, pool) == xs
  {
    if xs != [] {
      assert forall c | c in xs[..|xs| - 1] :: c in xs;
      NobodyDominated(xs[..|xs| - 1], pool);
      assert xs[|xs| - 1] in xs;
    }
  }

  /** The frontier can be maintained incrementally: only old frontier members need be compared with a newcomer. */
  lemma FrontierIncremental(pool: seq<Candidate>, c: Candidate)
    ensures Frontier(pool + [c]) == Frontier(Frontier(pool) + [c])
  {
    var f := Frontier(pool);
    var p', f' := pool + [c], f + [c];
    FrontierPartition(pool);
    forall x
      ensures IsDominated(x, p') <==> IsDominated(x, f')
      ensures IsDominated(x, pool) ==> IsDominated(x, p')
    {
      if IsDominated(x, pool) {
        FrontierCovers(pool, x);
        var o :| o in f && Dominates(o.scores, x.scores);
        assert o in f' && o in p';
      }
      if Dominates(c.scores, x.scores) {
        assert c in f' && c in p';
      }
    }
    assert p'[..|pool|] == pool && f'[..|f|] == f;
    SameUndominated(f, p', f');
    UndominatedTwice(pool, pool, p');
  }

  // ---------------------------------------------------------------------------
  // Weighted choice of a parent
  // ---------------------------------------------------------------------------

  /** A Go map read: a missing weight is zero. */
  function WeightOf(weights: map<string, real>, id: string): real {
    if id in weights then weights[id] else 0.0
  }

  /** Total selection mass of the first `n` frontier members. */
  function Mass(frontier: seq<Candidate>, weights: map<string, real>, n: nat): real
    requires n <= |frontier|
  {
    if n == 0 then 0.0
    else Mass(frontier, weights, n - 1) + WeightOf(weights, frontier[n - 1].id) + 1.0
  }

  /** Each member's slice is one wider than its weight, a missing weight being zero. */
  lemma SliceIsWeightPlusOne(frontier: seq<Candidate>, weights: map<string, real>, k: nat, u: real)
    requires k < |frontier|
    ensures Mass(frontier, weights, 0) == 0.0
    ensures Mass(frontier, weights, k + 1) - Mass(frontier, weights, k)
            == if frontier[k].id in weights then weights[frontier[k].id] + 1.0 else 1.0
    ensures Scaled(u, Mass(frontier, weights, |frontier|)) == u * Mass(frontier, weights, |frontier|)
  {
  }

  lemma {:induction false} MassMonotone(frontier: seq<Candidate>, weights: map<string, real>, m: nat, n: nat)
    requires m <= n <= |frontier|
    requires forall id | id in weights :: weights[id] >= 0.0
    ensures Mass(frontier, weights, m) + (n - m) as real <= Mass(frontier, weights, n)
  {
    if m < n {
      MassMonotone(frontier, weights, m, n - 1);
    }
  }

  /** A draw from [0, 1) stretched over the total mass. */
  function Scaled(u: real, total: real): real {
    u * total
  }

  lemma ScaledBelow(u: real, total: real)
    requires 0.0 <= u < 1.0 && total > 0.0
    ensures 0.0 <= Scaled(u, total) < total
  {
    assert (1.0 - u) * total > 0.0;
  }

  /** The parent chosen for a draw `u` from [0, 1): the member whose slice of the mass contains the scaled draw. */
  ghost predicate IsDrawn(frontier: seq<Candidate>, weights: map<string, real>, u: real, k: nat) {
    && k < |frontier|
    && Scaled(u, Mass(frontier, weights, |frontier|)) <= Mass(frontier, weights, k + 1)
    && (k > 0 ==> Mass(frontier, weights, k) < Scaled(u, Mass(frontier, weights, |frontier|)))
  }

  function DrawIndex(frontier: seq<Candidate>, weights: map<string, real>, r: real, k: nat): (j: nat)
    requires k < |frontier|
    ensures k <= j < |frontier|
    decreases |frontier| - k
  {
    if r <= Mass(frontier, weights, k + 1) || k == |frontier| - 1 then k
    else DrawIndex(frontier, weights, r, k + 1)
  }

  function Sample(frontier: seq<Candidate>, weights: map<string, real>, u: real): Option<Candidate> {
    if frontier == [] then None
    else Some(frontier[DrawIndex(frontier, weights, Scaled(u, Mass(frontier, weights, |frontier|)), 0)])
  }

  method SampleFromFrontier(frontier: seq<Candidate>, weights: map<string, real>, u: real)
    returns (c: Option<Candidate>)
    ensures c == Sample(frontier, weights, u)
  {
    if |frontier| == 0 {
      return None;
    }
    if |frontier| == 1 {
      return Some(frontier[0]);
    }
    var total := 0.0;
    for i := 0 to |frontier|
      invariant total == Mass(frontier, weights, i)
    {
      total := total + WeightOf(weights, frontier[i].id) + 1.0;
    }
    var r := Scaled(u, total);
    var cumulative := 0.0;
    for i := 0 to |frontier|
      invariant cumulative == Mass(frontier, weights, i)
      invariant i < |frontier| ==> DrawIndex(frontier, weights, r, 0) == DrawIndex(frontier, weights, r, i)
      invariant i == |frontier| ==> DrawIndex(frontier, weights, r, 0) == i - 1
    {
      cumulative := cumulative + WeightOf(weights, frontier[i].id) + 1.0;
      if r <= cumulative {
        assert r <= Mass(frontier, weights, i + 1);
        assert DrawIndex(frontier, weights, r, i) == i;
        return Some(frontier[i]);
      }
    }
    return Some(frontier[|frontier| - 1]);
  }

  /**
   With non-negative weights and a draw below one, exactly one member is drawn: the one whose slice, of
   width weight + 1, contains the scaled draw. In particular the trailing fallback is never what decides.
   */
  lemma SampleIsProportional(frontier: seq<Candidate>, weights: map<string, real>, u: real, k: nat)
    requires frontier != [] && 0.0 <= u < 1.0
    requires forall id | id in weights :: weights[id] >= 0.0
    ensures IsDrawn(frontier, weights, u, k)
            <==> k == DrawIndex(frontier, weights, Scaled(u, Mass(frontier, weights, |frontier|)), 0)
    ensures Sample(frontier, weights, u) == Some(frontier[k]) <== IsDrawn(frontier, weights, u, k)
    ensures Mass(frontier, weights, |frontier|) >= |frontier| as real
  {
    var total := Mass(frontier, weights, |frontier|);
    MassMonotone(frontier, weights, 0, |frontier|);
    ScaledBelow(u, total);
    var r := Scaled(u, total);
    var j := DrawIndex(frontier, weights, r, 0);
    DrawIndexIsFirst(frontier, weights, r, 0);
    if j > 0 {
      assert Mass(frontier, weights, j) < r;
    }
    if k < |frontier| && k < j {
      assert Mass(frontier, weights, k + 1) < r;
    }
    if k < |frontier| && j < k {
      MassMonotone(frontier, weights, j + 1, k);
      assert r <= Mass(frontier, weights, k);
    }
  }

  lemma {:induction false} DrawIndexIsFirst(frontier: seq<Candidate>, weights: map<string, real>, r: real, k: nat)
    requires k < |frontier| && r <= Mass(frontier, weights, |frontier|)
    ensures r <= Mass(frontier, weights, DrawIndex(frontier, weights, r, k) + 1)
    ensures forall m | k < m <= DrawIndex(frontier, weights, r, k) :: Mass(frontier, weights, m) < r
    decreases |frontier| - k
  {
    if r > Mass(frontier, weights, k + 1) && k < |frontier| - 1 {
      DrawIndexIsFirst(frontier, weights, r, k + 1);
    }
  }
}
