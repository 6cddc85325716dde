/**
 The GEPA optimiser loop (internal/optimizer/gepa/gepa.go) over its data set (dataset.go).

 Everything the program draws at random or asks a language model for comes from an `Env`. A theorem about every
 legal `Env` is a theorem about every run.
 */
module GepaRun {
  import opened Common
  import opened Pareto
  import opened Ranking

  datatype DataPoint = DataPoint(
    input: string, output: string, rating: real, asi: string, variantId: string, comment: string)

  type Dataset = seq<DataPoint>

  datatype Config = Config(
    rolloutBudget: int,
    minibatchSize: int,
    paretoFraction: real,
    minDelta: real,
    crossoverEnabled: bool,
    crossoverFrequency: real,
    topN: int)

  /** The defaults `New` fills in for zero fields. */
  function WithDefaults(cfg: Config): Config {
    Config(
      if cfg.rolloutBudget == 0 then 50 else cfg.rolloutBudget,
      if cfg.minibatchSize == 0 then 5 else cfg.minibatchSize,
      if cfg.paretoFraction == 0.0 then 0.3 else cfg.paretoFraction,
      if cfg.minDelta == 0.0 then 0.01 else cfg.minDelta,
      cfg.crossoverEnabled,
      if !cfg.crossoverEnabled then 0.0 else cfg.crossoverFrequency,
      if cfg.topN == 0 then 3 else cfg.topN)
  }

  /** Zero fields, and only those, get the defaults; without crossover its frequency is zero. */
  lemma DefaultsFillZeros(cfg: Config)
    ensures var full := WithDefaults(cfg);
            && (if cfg.rolloutBudget == 0 then full.rolloutBudget == 50 else full.rolloutBudget == cfg.rolloutBudget)
            && (if cfg.minibatchSize == 0 then full.minibatchSize == 5 else full.minibatchSize == cfg.minibatchSize)
            && (if cfg.paretoFraction == 0.0 then full.paretoFraction == 0.3
                else full.paretoFraction == cfg.paretoFraction)
            && (if cfg.minDelta == 0.0 then full.minDelta == 0.01 else full.minDelta == cfg.minDelta)
            && (if cfg.topN == 0 then full.topN == 3 else full.topN == cfg.topN)
            && full.crossoverEnabled == cfg.crossoverEnabled
            && full.crossoverFrequency == (if cfg.crossoverEnabled then cfg.crossoverFrequency else 0.0)
    ensures WithDefaults(WithDefaults(cfg)) == WithDefaults(cfg)
  {
  }

  /**
   One run's outside world, indexed by iteration: the parent draw, the minibatch permutation, the crossover coin and
   partner, the model's answers, the fresh ids (0 is the seed's), the shuffle's swaps, and the scorer.
   */
  datatype Env = Env(
    draw: nat -> real,
    perm: (nat, nat) -> seq<nat>,
    coin: nat -> real,
    partner: nat -> nat,
    mutate: (nat, Candidate) -> string,
    crossover: (nat, Candidate, Candidate) -> string,
    asi: nat -> string,
    id: nat -> string,
    swap: nat -> nat,
    score: (string, Dataset) -> seq<real>)

  ghost predicate IsPermutation(p: seq<nat>, n: nat) {
    && |p| == n
    && (forall i | 0 <= i < n :: p[i] < n)
    && (forall i, j | 0 <= i < j < n :: p[i] != p[j])
  }

  /**
   Draws and coins lie in [0, 1), permutations permute, ids are fresh and non-empty, and the scorer scores every data
   point.
   */
  ghost predicate Legal(env: Env) {
    && (forall i: nat :: 0.0 <= env.draw(i) < 1.0)
    && (forall i: nat :: 0.0 <= env.coin(i) < 1.0)
    && (forall i: nat, n: nat :: IsPermutation(env.perm(i, n), n))
    && (forall i: nat :: env.id(i) != "")
    && (forall i: nat, j: nat | i != j :: env.id(i) != env.id(j))
    && (forall prompt: string, d: Dataset :: |env.score(prompt, d)| == |d|)
  }

  // ---------------------------------------------------------------------------
  // Splitting and batching the data
  // ---------------------------------------------------------------------------

  function Swapped(s: Dataset, i: nat, j: nat): Dataset
    requires i < |s| && j < |s|
  {
    s[i := s[j]][j := s[i]]
  }

  /** Fisher-Yates from position `i` down to 1. */
  function Shuffled(s: Dataset, swap: nat -> nat, i: nat): (r: Dataset)
    requires i < |s|
    ensures |r| == |s|
    decreases i
  {
    if i == 0 then s else Shuffled(Swapped(s, i, swap(i) % (i + 1)), swap, i - 1)
  }

  lemma {:induction false} ShuffleKeepsPoints(s: Dataset, swap: nat -> nat, i: nat)
    requires i < |s|
    ensures multiset(Shuffled(s, swap, i)) == multiset(s)
    decreases i
  {
    if i > 0 {
      ShuffleKeepsPoints(Swapped(s, i, swap(i) % (i + 1)), swap, i - 1);
    }
  }

  lemma {:induction false} SwapsBelowDecide(s: Dataset, f: nat -> nat, g: nat -> nat, i: nat)
    requires i < |s| && forall k: nat | k <= i :: f(k) == g(k)
    ensures Shuffled(s, f, i) == Shuffled(s, g, i)
    decreases i
  {
    if i > 0 {
      SwapsBelowDecide(Swapped(s, i, f(i) % (i + 1)), f, g, i - 1);
    }
  }

  lemma SwapLast(a: Dataset, j: nat)
    requires j < |a|
    ensures var b := Swapped(a, |a| - 1, j);
            |b| == |a| && b[|a| - 1] == a[j] && multiset(b) == multiset(a)
  {
  }

  lemma InitMultiset(a: Dataset)
    requires a != []
    ensures multiset(a[..|a| - 1]) == multiset(a) - multiset{a[|a| - 1]}
  {
    assert a == a[..|a| - 1] + [a[|a| - 1]];
  }

  /** A position from which the last point of `b` can be fetched, and what the swap leaves in front of it. */
  lemma FetchLast(a: Dataset, b: Dataset) returns (j: nat)
    requires a != [] && |a| == |b| && multiset(a) == multiset(b)
    ensures j < |a| && a[j] == b[|b| - 1]
    ensures multiset(Swapped(a, |a| - 1, j)[..|a| - 1]) == multiset(b[..|b| - 1])
  {
    hide Swapped;
    j := FindPoint(a, b);
    SwapLast(a, j);
    InitMultiset(Swapped(a, |a| - 1, j));
    InitMultiset(b);
  }

  lemma FindPoint(a: Dataset, b: Dataset) returns (j: nat)
    requires b != [] && multiset(a) == multiset(b)
    ensures j < |a| && a[j] == b[|b| - 1]
  {
    var last := b[|b| - 1];
    assert last in multiset(b);
    assert last in multiset(a);
    assert last in a;
    j :| 0 <= j < |a| && a[j] == last;
  }

  /** The same in the first `i + 1` points, the others being in place already. */
  lemma FetchNext(s: Dataset, t: Dataset, i: nat) returns (j: nat)
    requires i < |s| && |t| == |s| && multiset(t[..i + 1]) == multiset(s[..i + 1])
    requires forall k | i < k < |s| :: t[k] == s[k]
    ensures j <= i && |Swapped(s, i, j)| == |s|
    ensures multiset(t[..i]) == multiset(Swapped(s, i, j)[..i])
    ensures forall k | i <= k < |s| :: t[k] == Swapped(s, i, j)[k]
    ensures i == 0 ==> t == s
  {
    var a, b := s[..i + 1], t[..i + 1];
    j := FetchLast(a, b);
    assert Swapped(s, i, j)[..i] == Swapped(a, i, j)[..i] && t[..i] == b[..i];
    assert Swapped(s, i, j)[i] == a[j] == b[i] == t[i];
  }

  lemma LastSwaps(s: Dataset, swap: nat -> nat)
    requires s != []
    ensures Shuffled(s, swap, 0) == s
  {
  }

  /** Every rearrangement is the outcome of some swaps: the shuffle leaves nothing out. */
  lemma {:induction false} ShuffleReachesEvery(s: Dataset, t: Dataset, i: nat) returns (swap: nat -> nat)
    requires i < |s| && |t| == |s| && multiset(t[..i + 1]) == multiset(s[..i + 1])
    requires forall k | i < k < |s| :: t[k] == s[k]
    ensures Shuffled(s, swap, i) == t
    decreases i
  {
    hide Shuffled, Swapped;
    var j := FetchNext(s, t, i);
    var s' := Swapped(s, i, j);
    if i == 0 {
      swap := k => 0;
      LastSwaps(s, swap);
    } else {
      var rest := ShuffleReachesEvery(s', t, i - 1);
      swap := k => if k == i then j else rest(k);
      SwapsBelowDecide(s', swap, rest, i - 1);
      LastSwap(s, swap, i, j);
    }
  }

  lemma LastSwap(s: Dataset, swap: nat -> nat, i: nat, j: nat)
    requires 0 < i < |s| && swap(i) == j <= i
    ensures Shuffled(s, swap, i) == Shuffled(Swapped(s, i, j), swap, i - 1)
  {
    assert j % (i + 1) == j;
  }

  function Cutoff(size: nat, fraction: real): int {
    var c := (size as real * fraction).Floor;
    if c < 1 then 1 else c
  }

  lemma Shrinks(n: real, fraction: real)
    requires n > 0.0 && 0.0 < fraction < 1.0
    ensures 0.0 < n * fraction < n
  {
    assert n * (1.0 - fraction) > 0.0;
  }

  lemma CutoffInRange(size: nat, fraction: real)
    requires size > 0 && 0.0 < fraction < 1.0
    ensures 1 <= Cutoff(size, fraction) <= size
  {
    var n := size as real;
    Shrinks(n, fraction);
    assert (n * fraction).Floor as real <= n * fraction;
  }

  function SplitOf(d: Dataset, fraction: real, swap: nat -> nat): (Dataset, Dataset) {
    if fraction <= 0.0 || fraction >= 1.0 || |d| == 0 then (d, [])
    else
      CutoffInRange(|d|, fraction);
      var shuffled := Shuffled(d, swap, |d| - 1);
      (shuffled[..Cutoff(|d|, fraction)], shuffled[Cutoff(|d|, fraction)..])
  }

  /** The in-place shuffle of the copied slice. */
  method Shuffle(shuffled: array<DataPoint>, swap: nat -> nat)
    requires shuffled.Length > 0
    modifies shuffled
    ensures shuffled[..] == Shuffled(old(shuffled[..]), swap, shuffled.Length - 1)
  {
    var i := shuffled.Length - 1;
    while i > 0
      invariant 0 <= i < shuffled.Length
      invariant Shuffled(shuffled[..], swap, i) == Shuffled(old(shuffled[..]), swap, shuffled.Length - 1)
    {
      var j := swap(i) % (i + 1);
      ghost var was := shuffled[..];
      shuffled[i], shuffled[j] := shuffled[j], shuffled[i];
      assert shuffled[..] == Swapped(was, i, j);
      i := i - 1;
    }
  }

  method Split(d: Dataset, fraction: real, swap: nat -> nat) returns (pareto: Dataset, feedback: Dataset)
    ensures (pareto, feedback) == SplitOf(d, fraction, swap)
  {
    if fraction <= 0.0 || fraction >= 1.0 || |d| == 0 {
      return d, [];
    }
    var shuffled := new DataPoint[|d|](i requires 0 <= i < |d| => d[i]);
    assert shuffled[..] == d;
    Shuffle(shuffled, swap);
    var cutoff := (|d| as real * fraction).Floor;
    if cutoff < 1 {
      cutoff := 1;
    }
    CutoffInRange(|d|, fraction);
    return shuffled[..cutoff], shuffled[cutoff..];
  }

  /** The two halves partition the data, and the Pareto half of a non-empty data set is never empty. */
  lemma SplitPartitions(d: Dataset, fraction: real, swap: nat -> nat)
    ensures var (pareto, feedback) := SplitOf(d, fraction, swap);
            && multiset(pareto) + multiset(feedback) == multiset(d)
            && (d != [] ==> pareto != [])
  {
    if 0.0 < fraction < 1.0 && d != [] {
      CutoffInRange(|d|, fraction);
      var shuffled := Shuffled(d, swap, |d| - 1);
      ShuffleKeepsPoints(d, swap, |d| - 1);
      assert shuffled == shuffled[..Cutoff(|d|, fraction)] + shuffled[Cutoff(|d|, fraction)..];
    }
  }

  /** The Pareto half is as large as the fraction asks, rounded down, but at least one; all, without a proper fraction. */
  lemma ParetoHalfSize(d: Dataset, fraction: real, swap: nat -> nat)
    ensures var (pareto, feedback) := SplitOf(d, fraction, swap);
            var asked := |d| as real * fraction;
            if d != [] && 0.0 < fraction < 1.0
            then asked < |pareto| as real + 1.0 && |pareto| >= 1 && (|pareto| as real <= asked || |pareto| == 1)
            else pareto == d && feedback == []
  {
    if 0.0 < fraction < 1.0 && d != [] {
      CutoffInRange(|d|, fraction);
    }
  }

  function Gather(d: Dataset, indices: seq<nat>): (r: Dataset)
    requires forall i | 0 <= i < |indices| :: indices[i] < |d|
    ensures |r| == |indices|
  {
    seq(|indices|, i requires 0 <= i < |indices| => d[indices[i]])
  }

  function MinibatchOf(d: Dataset, n: int, perm: seq<nat>): Dataset
    requires IsPermutation(perm, |d|)
  {
    if n <= 0 || |d| == 0 then []
    else if n >= |d| then d
    else Gather(d, perm[..n])
  }

  method Minibatch(d: Dataset, n: int, perm: seq<nat>) returns (batch: Dataset)
    requires IsPermutation(perm, |d|)
    ensures batch == MinibatchOf(d, n, perm)
  {
    if n <= 0 || |d| == 0 {
      return [];
    }
    if n >= |d| {
      return d;
    }
    var indices := perm[..n];
    batch := [];
    for k := 0 to |indices|
      invariant batch == Gather(d, indices[..k])
    {
      batch := batch + [d[indices[k]]];
    }
    assert indices[..|indices|] == indices;
  }

  /** Gathering at distinct positions takes no point twice. */
  lemma {:induction false} GatherIsPart(d: Dataset, p: seq<nat>)
    requires forall i | 0 <= i < |p| :: p[i] < |d|
    requires forall i, j | 0 <= i < j < |p| :: p[i] != p[j]
    ensures multiset(Gather(d, p)) <= multiset(d)
    decreases |d|
  {
    if p != [] {
      var n, g := |d| - 1, Gather(d, p);
      assert p[0] < |d|;
      assert d == d[..n] + [d[n]];
      if q :| 0 <= q < |p| && p[q] == n {
        var others := p[..q] + p[q + 1..];
        GatherIsPart(d[..n], others);
        assert g == g[..q] + [g[q]] + g[q + 1..];
        assert Gather(d[..n], others) == g[..q] + g[q + 1..];
      } else {
        GatherIsPart(d[..n], p);
        assert Gather(d[..n], p) == g;
      }
    }
  }

  /** A minibatch has min(n, size) points of the data, drawn without repetition at the permuted positions. */
  lemma MinibatchDrawsOnce(d: Dataset, n: int, perm: seq<nat>)
    requires IsPermutation(perm, |d|)
    ensures |MinibatchOf(d, n, perm)| == if n <= 0 then 0 else Min(n, |d|)
    ensures multiset(MinibatchOf(d, n, perm)) <= multiset(d)
    ensures 0 < n < |d| ==> forall k | 0 <= k < n :: MinibatchOf(d, n, perm)[k] == d[perm[k]]
  {
    if 0 < n < |d| {
      GatherIsPart(d, perm[..n]);
    }
  }

  // ---------------------------------------------------------------------------
  // One iteration, and the loop
  // ---------------------------------------------------------------------------

  datatype RunState = RunState(
    pool: seq<Candidate>,
    weights: map<string, real>,
    history: seq<Candidate>,
    iterations: int)

  datatype Result = Result(candidates: seq<Candidate>, best: Option<Candidate>, iterations: int, history: seq<Candidate>)

  function SeedCandidate(env: Env, prompt: string, pareto: Dataset): Candidate {
    var scores := env.score(prompt, pareto);
    Candidate(env.id(0), prompt, "", scores, MeanOf(scores), 0, "")
  }

  function InitialState(env: Env, prompt: string, pareto: Dataset): RunState {
    var base := SeedCandidate(env, prompt, pareto);
    RunState([base], map[], [base], 0)
  }

  function ChildPrompt(cfg: Config, env: Env, i: nat, parent: Candidate, frontier: seq<Candidate>): string {
    if cfg.crossoverEnabled && env.coin(i) < cfg.crossoverFrequency && |frontier| >= 2
    then env.crossover(i, parent, frontier[env.partner(i) % |frontier|])
    else env.mutate(i, parent)
  }

  function ChildOf(env: Env, i: nat, parent: Candidate, prompt: string, pareto: Dataset): Candidate {
    var scores := env.score(prompt, pareto);
    Candidate(env.id(i + 1), prompt, parent.id, scores, MeanOf(scores), i + 1, env.asi(i))
  }

  function Accept(st: RunState, parent: Candidate, child: Candidate): RunState {
    RunState(
      st.pool + [child],
      st.weights[parent.id := WeightOf(st.weights, parent.id) + 1.0],
      st.history + [child],
      st.iterations + 1)
  }

  /** The batch an iteration scores on: feedback data when there is any, Pareto data otherwise. */
  function Batch(cfg: Config, env: Env, pareto: Dataset, feedback: Dataset, i: nat): Dataset
    requires Legal(env)
  {
    var source := if |feedback| > 0 then feedback else pareto;
    MinibatchOf(source, cfg.minibatchSize, env.perm(i, |source|))
  }

  /** One pass through the loop body; `None` is a `break`. */
  function Iterate(cfg: Config, env: Env, pareto: Dataset, feedback: Dataset, i: nat, st: RunState): Option<RunState>
    requires Legal(env)
  {
    var frontier := Frontier(st.pool);
    match Sample(frontier, st.weights, env.draw(i))
    case None => None
    case Some(parent) =>
      var batch := Batch(cfg, env, pareto, feedback, i);
      if |batch| == 0 then None else
      var prompt := ChildPrompt(cfg, env, i, parent, frontier);
      if MeanOf(env.score(prompt, batch)) <= MeanOf(env.score(parent.prompt, batch)) + cfg.minDelta then Some(st)
      else Some(Accept(st, parent, ChildOf(env, i, parent, prompt, pareto)))
  }

  function Loop(cfg: Config, env: Env, pareto: Dataset, feedback: Dataset, i: nat, st: RunState): RunState
    requires Legal(env)
    decreases cfg.rolloutBudget - i
  {
    if i >= cfg.rolloutBudget then st
    else match Iterate(cfg, env, pareto, feedback, i, st)
      case None => st
      case Some(next) => Loop(cfg, env, pareto, feedback, i + 1, next)
  }

  /** The Pareto and feedback sets of a run, with the fallback `Run` keeps for an empty Pareto set. */
  function Sets(cfg: Config, env: Env, dataset: Dataset): (Dataset, Dataset) {
    var (pareto, feedback) := SplitOf(dataset, cfg.paretoFraction, env.swap);
    (if |pareto| == 0 then dataset else pareto, feedback)
  }

  /** The state a run ends in. */
  function FinalState(cfg: Config, env: Env, seedPrompt: string, dataset: Dataset): RunState
    requires Legal(env)
  {
    var (pareto, feedback) := Sets(cfg, env, dataset);
    Loop(cfg, env, pareto, feedback, 0, InitialState(env, seedPrompt, pareto))
  }

  // ---------------------------------------------------------------------------
  // What every reachable state keeps
  // ---------------------------------------------------------------------------

  /** How many members of the pool name `id` as their parent. */
  function Children(pool: seq<Candidate>, id: string): nat {
    if pool == [] then 0
    else Children(pool[..|pool| - 1], id) + if pool[|pool| - 1].parentId == id then 1 else 0
  }

  /** The sum of the weights of the pool's members. */
  function TotalWeight(pool: seq<Candidate>, weights: map<string, real>): real {
    if pool == [] then 0.0
    else TotalWeight(pool[..|pool| - 1], weights) + WeightOf(weights, pool[|pool| - 1].id)
  }

  predicate HasId(pool: seq<Candidate>, id: string) {
    pool != [] && (pool[|pool| - 1].id == id || HasId(pool[..|pool| - 1], id))
  }

  /**
   The pool is a tree in order of birth: it starts with a parentless seed, every later member names an earlier one
   as parent, generations strictly increase, and ids are the fresh ids of those generations.
   */
  ghost predicate Genealogy(env: Env, pool: seq<Candidate>) {
    && pool != []
    && var n := |pool| - 1;
    && pool[n].generation >= 0
    && pool[n].id == env.id(pool[n].generation)
    && if n == 0 then pool[n].parentId == "" && pool[n].generation == 0
       else
         && Genealogy(env, pool[..n])
         && pool[n - 1].generation < pool[n].generation
         && HasId(pool[..n], pool[n].parentId)
  }

  /** Every member was scored on the same Pareto data. */
  ghost predicate Scored(env: Env, pareto: Dataset, pool: seq<Candidate>) {
    forall c | c in pool :: c.scores == env.score(c.prompt, pareto) && c.aggScore == MeanOf(c.scores)
  }

  /** Weights count children, only pool members carry one, and they add up to the accepted iterations. */
  ghost predicate Weighed(pool: seq<Candidate>, weights: map<string, real>, iterations: int) {
    && (forall id | id in weights :: HasId(pool, id))
    && (forall c | c in pool :: WeightOf(weights, c.id) == Children(pool, c.id) as real)
    && TotalWeight(pool, weights) == iterations as real
  }

  ghost predicate RunInvariant(env: Env, pareto: Dataset, i: nat, st: RunState) {
    && Genealogy(env, st.pool)
    && st.pool[|st.pool| - 1].generation <= i
    && Scored(env, pareto, st.pool)
    && Weighed(st.pool, st.weights, st.iterations)
    && st.history == st.pool
    && st.iterations == |st.pool| - 1
  }

  lemma InitialInvariant(env: Env, prompt: string, pareto: Dataset)
    requires Legal(env)
    ensures RunInvariant(env, pareto, 0, InitialState(env, prompt, pareto))
    ensures var seed := InitialState(env, prompt, pareto).pool[0]; seed.prompt == prompt && seed.asi == ""
  {
    var st := InitialState(env, prompt, pareto);
    assert st.pool[..0] == [];
    assert Children(st.pool, st.pool[0].id) == 0;
    assert TotalWeight(st.pool, st.weights) == 0.0;
  }

  lemma {:induction false} GenealogyAt(env: Env, pool: seq<Candidate>, k: nat)
    requires Genealogy(env, pool) && k < |pool|
    ensures 0 <= pool[k].generation <= pool[|pool| - 1].generation
    ensures pool[k].id == env.id(pool[k].generation)
    ensures k == 0 ==> pool[k].parentId == ""
  {
    if k < |pool| - 1 {
      GenealogyAt(env, pool[..|pool| - 1], k);
    }
  }

  /** Generations strictly increase along the pool. */
  lemma {:induction false} GenerationsIncrease(env: Env, pool: seq<Candidate>, j: nat, k: nat)
    requires Genealogy(env, pool) && j < k < |pool|
    ensures pool[j].generation < pool[k].generation
  {
    var n := |pool| - 1;
    if k < n {
      GenerationsIncrease(env, pool[..n], j, k);
    } else {
      GenealogyAt(env, pool[..n], j);
    }
  }

  /** Every member but the seed names an earlier member as its parent. */
  lemma {:induction false} ParentIsEarlier(env: Env, pool: seq<Candidate>, k: nat) returns (j: nat)
    requires Genealogy(env, pool) && 0 < k < |pool|
    ensures j < k && pool[j].id == pool[k].parentId
  {
    var n := |pool| - 1;
    if k < n {
      j := ParentIsEarlier(env, pool[..n], k);
    } else {
      j := HasIdAt(pool[..n], pool[n].parentId);
    }
  }

  lemma {:induction false} HasIdAt(pool: seq<Candidate>, id: string) returns (j: nat)
    requires HasId(pool, id)
    ensures j < |pool| && pool[j].id == id
  {
    var n := |pool| - 1;
    if pool[n].id == id {
      j := n;
    } else {
      j := HasIdAt(pool[..n], id);
    }
  }

  lemma {:induction false} MemberHasId(pool: seq<Candidate>, k: nat)
    requires k < |pool|
    ensures HasId(pool, pool[k].id)
  {
    if k < |pool| - 1 {
      MemberHasId(pool[..|pool| - 1], k);
    }
  }

  /** Generations younger than the whole pool have ids nobody in it carries. */
  lemma FreshId(env: Env, pool: seq<Candidate>, g: nat)
    requires Legal(env) && Genealogy(env, pool) && pool[|pool| - 1].generation < g
    ensures !HasId(pool, env.id(g))
  {
    if HasId(pool, env.id(g)) {
      var j := HasIdAt(pool, env.id(g));
      GenealogyAt(env, pool, j);
    }
  }

  lemma DistinctIds(env: Env, pool: seq<Candidate>)
    requires Legal(env) && Genealogy(env, pool)
    ensures forall j, k | 0 <= j < k < |pool| :: pool[j].id != pool[k].id
  {
    forall j, k | 0 <= j < k < |pool|
      ensures pool[j].id != pool[k].id
    {
      GenerationsIncrease(env, pool, j, k);
      GenealogyAt(env, pool, j);
      GenealogyAt(env, pool, k);
    }
  }

  lemma GenealogyGrows(env: Env, pool: seq<Candidate>, child: Candidate)
    requires Genealogy(env, pool) && pool[|pool| - 1].generation < child.generation
    requires HasId(pool, child.parentId) && child.id == env.id(child.generation)
    ensures Genealogy(env, pool + [child])
  {
    var grown := pool + [child];
    assert grown[..|pool|] == pool;
    assert grown[|pool|] == child && grown[|pool| - 1] == pool[|pool| - 1];
  }

  lemma {:induction false} NoChildren(pool: seq<Candidate>, id: string)
    requires forall c | c in pool :: c.parentId != id
    ensures Children(pool, id) == 0
  {
    if pool != [] {
      assert forall c | c in pool[..|pool| - 1] :: c in pool;
      NoChildren(pool[..|pool| - 1], id);
    }
  }

  lemma ParentsAreMembers(env: Env, pool: seq<Candidate>, c: Candidate)
    requires Genealogy(env, pool) && c in pool
    ensures c.parentId == "" || HasId(pool, c.parentId)
  {
    var k :| 0 <= k < |pool| && pool[k] == c;
    GenealogyAt(env, pool, k);
    if k > 0 {
      var j := ParentIsEarlier(env, pool, k);
      MemberHasId(pool, j);
    }
  }

  lemma {:induction false} TotalWeightUpdate(pool: seq<Candidate>, weights: map<string, real>, p: nat, w: real)
    requires p < |pool|
    requires forall j, k | 0 <= j < k < |pool| :: pool[j].id != pool[k].id
    ensures TotalWeight(pool, weights[pool[p].id := w])
            == TotalWeight(pool, weights) - WeightOf(weights, pool[p].id) + w
  {
    var n := |pool| - 1;
    if p < n {
      TotalWeightUpdate(pool[..n], weights, p, w);
    } else {
      TotalWeightElsewhere(pool[..n], weights, pool[p].id, w);
    }
  }

  lemma {:induction false} TotalWeightElsewhere(pool: seq<Candidate>, weights: map<string, real>, id: string, w: real)
    requires forall k | 0 <= k < |pool| :: pool[k].id != id
    ensures TotalWeight(pool, weights[id := w]) == TotalWeight(pool, weights)
  {
    if pool != [] {
      TotalWeightElsewhere(pool[..|pool| - 1], weights, id, w);
    }
  }

  /** Counting one more child of `parent` keeps every weight equal to its number of children. */
  lemma CountsGrow(pool: seq<Candidate>, weights: map<string, real>, child: Candidate, c: Candidate)
    requires forall id | id in weights :: HasId(pool, id)
    requires forall d | d in pool :: WeightOf(weights, d.id) == Children(pool, d.id) as real
    requires !HasId(pool, child.id)
    requires forall d | d in pool :: d.parentId != child.id
    requires c in pool + [child]
    ensures WeightOf(weights[child.parentId := WeightOf(weights, child.parentId) + 1.0], c.id)
            == Children(pool + [child], c.id) as real
  {
    assert (pool + [child])[..|pool|] == pool;
    if c == child {
      NoChildren(pool, child.id);
    } else {
      assert c in pool;
      var k :| 0 <= k < |pool| && pool[k] == c;
      MemberHasId(pool, k);
    }
  }

  lemma WeightsGrow(env: Env, pool: seq<Candidate>, weights: map<string, real>, n: int, parent: Candidate, child: Candidate)
    requires Legal(env) && Genealogy(env, pool)
    requires Weighed(pool, weights, n) && parent in pool && child.parentId == parent.id
    requires !HasId(pool, child.id) && child.id != ""
    ensures Weighed(pool + [child], weights[parent.id := WeightOf(weights, parent.id) + 1.0], n + 1)
  {
    hide Genealogy;
    var weights' := weights[parent.id := WeightOf(weights, parent.id) + 1.0];
    forall d | d in pool
      ensures d.parentId != child.id
    {
      ParentsAreMembers(env, pool, d);
    }
    forall c | c in pool + [child]
      ensures WeightOf(weights', c.id) == Children(pool + [child], c.id) as real
    {
      CountsGrow(pool, weights, child, c);
    }
    var p :| 0 <= p < |pool| && pool[p] == parent;
    DistinctIds(env, pool);
    TotalWeightUpdate(pool, weights, p, WeightOf(weights, parent.id) + 1.0);
    assert (pool + [child])[..|pool|] == pool;
    MemberHasId(pool, p);
    assert child.id !in weights';
  }

  lemma ChildFacts(env: Env, i: nat, parent: Candidate, prompt: string, pareto: Dataset)
    requires Legal(env)
    ensures var child := ChildOf(env, i, parent, prompt, pareto);
            && child.generation == i + 1 && child.id == env.id(i + 1) && child.id != "" && child.parentId == parent.id
            && child.scores == env.score(child.prompt, pareto) && child.aggScore == MeanOf(child.scores)
  {
  }

  lemma PoolHasId(pool: seq<Candidate>, c: Candidate)
    requires c in pool
    ensures HasId(pool, c.id)
  {
    var k :| 0 <= k < |pool| && pool[k] == c;
    MemberHasId(pool, k);
  }

  lemma ScoredGrows(env: Env, pareto: Dataset, pool: seq<Candidate>, child: Candidate)
    requires Scored(env, pareto, pool)
    requires child.scores == env.score(child.prompt, pareto) && child.aggScore == MeanOf(child.scores)
    ensures Scored(env, pareto, pool + [child])
  {
  }

  lemma AcceptInvariant(env: Env, pareto: Dataset, i: nat, st: RunState, parent: Candidate, prompt: string)
    requires Legal(env) && RunInvariant(env, pareto, i, st) && parent in st.pool
    ensures RunInvariant(env, pareto, i + 1, Accept(st, parent, ChildOf(env, i, parent, prompt, pareto)))
  {
    hide Genealogy, Weighed, Scored, ChildOf, Legal, HasId;
    var child := ChildOf(env, i, parent, prompt, pareto);
    ChildFacts(env, i, parent, prompt, pareto);
    FreshId(env, st.pool, i + 1);
    PoolHasId(st.pool, parent);
    ScoredGrows(env, pareto, st.pool, child);
    GenealogyGrows(env, st.pool, child);
    WeightsGrow(env, st.pool, st.weights, st.iterations, parent, child);
  }

  lemma StepInvariant(cfg: Config, env: Env, pareto: Dataset, feedback: Dataset, i: nat, st: RunState)
    requires Legal(env) && RunInvariant(env, pareto, i, st)
    ensures match Iterate(cfg, env, pareto, feedback, i, st)
            case None => true
            case Some(next) => RunInvariant(env, pareto, i + 1, next) && next.pool[0] == st.pool[0]
  {
    hide Genealogy, Weighed, Scored, Frontier;
    match Sample(Frontier(st.pool), st.weights, env.draw(i))
    case None =>
    case Some(parent) =>
      assert parent in Frontier(st.pool);
      FrontierPartition(st.pool);
      AcceptInvariant(env, pareto, i, st, parent, ChildPrompt(cfg, env, i, parent, Frontier(st.pool)));
  }

  lemma {:induction false} LoopInvariant(
    cfg: Config, env: Env, pareto: Dataset, feedback: Dataset, i: nat, st: RunState) returns (last: nat)
    requires Legal(env) && RunInvariant(env, pareto, i, st)
    ensures RunInvariant(env, pareto, last, Loop(cfg, env, pareto, feedback, i, st))
    ensures Loop(cfg, env, pareto, feedback, i, st).pool[0] == st.pool[0]
    decreases cfg.rolloutBudget - i
  {
    hide Iterate, RunInvariant, Legal;
    last := i;
    if i < cfg.rolloutBudget {
      StepInvariant(cfg, env, pareto, feedback, i, st);
      match Iterate(cfg, env, pareto, feedback, i, st)
      case None =>
      case Some(next) =>
        last := LoopInvariant(cfg, env, pareto, feedback, i + 1, next);
    }
  }

  /** The parent draw always succeeds; the loop only ever stops early for want of a minibatch. */
  lemma ParentAlwaysFound(cfg: Config, env: Env, pareto: Dataset, feedback: Dataset, i: nat, st: RunState)
    requires Legal(env) && RunInvariant(env, pareto, i, st)
    ensures Sample(Frontier(st.pool), st.weights, env.draw(i)).Some?
    ensures Iterate(cfg, env, pareto, feedback, i, st) == None <==> Batch(cfg, env, pareto, feedback, i) == []
  {
    FrontierPartition(st.pool);
  }

  /** In every reachable state the parent draw is proportional: weights are never negative, so one slice decides it. */
  lemma ReachableDrawIsProportional(env: Env, pareto: Dataset, i: nat, st: RunState, k: nat)
    requires Legal(env) && RunInvariant(env, pareto, i, st)
    ensures var frontier := Frontier(st.pool);
            IsDrawn(frontier, st.weights, env.draw(i), k)
            ==> Sample(frontier, st.weights, env.draw(i)) == Some(frontier[k])
    ensures exists j :: IsDrawn(Frontier(st.pool), st.weights, env.draw(i), j)
  {
    FrontierPartition(st.pool);
    forall id | id in st.weights
      ensures st.weights[id] >= 0.0
    {
      var j := HasIdAt(st.pool, id);
      assert st.pool[j] in st.pool;
    }
    var frontier := Frontier(st.pool);
    SampleIsProportional(frontier, st.weights, env.draw(i), k);
    var j := DrawIndex(frontier, st.weights, Scaled(env.draw(i), Mass(frontier, st.weights, |frontier|)), 0);
    SampleIsProportional(frontier, st.weights, env.draw(i), j);
  }

  /** On any data a run works with the two halves of the split: its fallback for an empty Pareto half is never needed. */
  lemma SetsAreTheSplit(cfg: Config, env: Env, dataset: Dataset)
    requires dataset != []
    ensures Sets(cfg, env, dataset) == SplitOf(dataset, cfg.paretoFraction, env.swap)
  {
    SplitPartitions(dataset, cfg.paretoFraction, env.swap);
  }

  /** ... and whenever some data was given and batches are not configured away, it never stops early. */
  lemma BatchesAreNonEmpty(cfg: Config, env: Env, dataset: Dataset, i: nat)
    requires Legal(env) && dataset != []
    ensures var (pareto, feedback) := Sets(cfg, env, dataset);
            Batch(cfg, env, pareto, feedback, i) != [] <==> cfg.minibatchSize > 0
  {
    SplitPartitions(dataset, cfg.paretoFraction, env.swap);
  }

  /** Whether the loop is ever left by a `break`. */
  predicate Breaks(cfg: Config, env: Env, pareto: Dataset, feedback: Dataset, i: nat, st: RunState)
    requires Legal(env)
    decreases cfg.rolloutBudget - i
  {
    i < cfg.rolloutBudget &&
    match Iterate(cfg, env, pareto, feedback, i, st)
    case None => true
    case Some(next) => Breaks(cfg, env, pareto, feedback, i + 1, next)
  }

  lemma {:induction false} LoopBreaksWithoutBatches(
    cfg: Config, env: Env, dataset: Dataset, i: nat, st: RunState)
    requires Legal(env) && dataset != [] && RunInvariant(env, Sets(cfg, env, dataset).0, i, st)
    ensures var (pareto, feedback) := Sets(cfg, env, dataset);
            Breaks(cfg, env, pareto, feedback, i, st) <==> i < cfg.rolloutBudget && cfg.minibatchSize <= 0
    decreases cfg.rolloutBudget - i
  {
    hide Iterate, RunInvariant, Legal, Sets, Batch, Sample, Frontier;
    var (pareto, feedback) := Sets(cfg, env, dataset);
    ParentAlwaysFound(cfg, env, pareto, feedback, i, st);
    BatchesAreNonEmpty(cfg, env, dataset, i);
    if i < cfg.rolloutBudget {
      StepInvariant(cfg, env, pareto, feedback, i, st);
      match Iterate(cfg, env, pareto, feedback, i, st)
      case None =>
      case Some(next) => LoopBreaksWithoutBatches(cfg, env, dataset, i + 1, next);
    }
  }

  /** A run on any data uses its whole budget, unless batches are configured away: neither `break` is ever taken. */
  lemma RunUsesWholeBudget(cfg: Config, env: Env, seedPrompt: string, dataset: Dataset)
    requires Legal(env) && dataset != []
    ensures var (pareto, feedback) := Sets(cfg, env, dataset);
            Breaks(cfg, env, pareto, feedback, 0, InitialState(env, seedPrompt, pareto))
            <==> cfg.rolloutBudget > 0 && cfg.minibatchSize <= 0
  {
    var (pareto, feedback) := Sets(cfg, env, dataset);
    InitialInvariant(env, seedPrompt, pareto);
    LoopBreaksWithoutBatches(cfg, env, dataset, 0, InitialState(env, seedPrompt, pareto));
  }

  // ---------------------------------------------------------------------------
  // Winners, and only winners, enter the pool
  // ---------------------------------------------------------------------------

  /**
   The child an iteration breeds from `parent` with the given prompt beats it by more than the threshold on the
   iteration's batch.
   */
  ghost predicate Beats(cfg: Config, env: Env, batch: Dataset, parent: Candidate, prompt: string) {
    MeanOf(env.score(prompt, batch)) > MeanOf(env.score(parent.prompt, batch)) + cfg.minDelta
  }

  /** The batch comes from the feedback half whenever there is one, and has at most the configured size. */
  lemma BatchIsDrawn(cfg: Config, env: Env, pareto: Dataset, feedback: Dataset, i: nat)
    requires Legal(env)
    ensures var source, batch := if feedback != [] then feedback else pareto, Batch(cfg, env, pareto, feedback, i);
            && multiset(batch) <= multiset(source)
            && |batch| == if cfg.minibatchSize <= 0 then 0 else Min(cfg.minibatchSize, |source|)
  {
    var source := if feedback != [] then feedback else pareto;
    MinibatchDrawsOnce(source, cfg.minibatchSize, env.perm(i, |source|));
  }

  /** Crossover with a frontier member happens exactly when enabled, won by the coin, and possible; otherwise mutation. */
  lemma ChildIsBred(cfg: Config, env: Env, i: nat, parent: Candidate, frontier: seq<Candidate>) returns (other: Candidate)
    requires Legal(env) && frontier != []
    ensures other in frontier && other == frontier[env.partner(i) % |frontier|]
    ensures ChildPrompt(cfg, env, i, parent, frontier)
            == if !cfg.crossoverEnabled || |frontier| == 1 || env.coin(i) >= cfg.crossoverFrequency
               then env.mutate(i, parent) else env.crossover(i, parent, other)
    ensures cfg.crossoverFrequency <= 0.0 ==> ChildPrompt(cfg, env, i, parent, frontier) == env.mutate(i, parent)
  {
    other := frontier[env.partner(i) % |frontier|];
  }

  /**
   One iteration from a reachable state, with data to score on: `frontier[k]`, the owner of the draw, is the parent. If
   its child wins, the child joins the pool and history with that parent, prompt and iteration, and its parent's weight
   and the count go up by one; if not, nothing changes.
   */
  lemma WinnersEnter(cfg: Config, env: Env, pareto: Dataset, feedback: Dataset, i: nat, st: RunState, k: nat)
    requires Legal(env) && RunInvariant(env, pareto, i, st)
    requires Batch(cfg, env, pareto, feedback, i) != [] && IsDrawn(Frontier(st.pool), st.weights, env.draw(i), k)
    ensures var frontier := Frontier(st.pool);
            var parent := frontier[k];
            var prompt := ChildPrompt(cfg, env, i, parent, frontier);
            var result := Iterate(cfg, env, pareto, feedback, i, st);
            && result.Some?
            && var next := result.value;
            && (!Beats(cfg, env, Batch(cfg, env, pareto, feedback, i), parent, prompt) ==> next == st)
            && (Beats(cfg, env, Batch(cfg, env, pareto, feedback, i), parent, prompt) ==>
                  && |next.pool| == |st.pool| + 1 && next.pool[..|st.pool|] == st.pool
                  && next.history == next.pool && next.iterations == st.iterations + 1
                  && IsChild(env, i, pareto, parent, prompt, next.pool[|st.pool|])
                  && (forall id :: WeightOf(next.weights, id)
                                   == WeightOf(st.weights, id) + if id == parent.id then 1.0 else 0.0))
  {
    hide Frontier, Batch, ChildPrompt, Genealogy, Weighed, Scored, Legal, IsDrawn;
    ReachableDrawIsProportional(env, pareto, i, st, k);
    FrontierPartition(st.pool);
  }

  ghost predicate IsChild(env: Env, i: nat, pareto: Dataset, parent: Candidate, prompt: string, c: Candidate) {
    && c.prompt == prompt && c.parentId == parent.id && c.id == env.id(i + 1)
    && c.scores == env.score(prompt, pareto) && c.aggScore == MeanOf(c.scores)
    && c.generation == i + 1 && c.asi == env.asi(i)
  }

  /** The iteration breeds a winner. */
  ghost predicate Wins(cfg: Config, env: Env, pareto: Dataset, feedback: Dataset, i: nat, st: RunState)
    requires Legal(env)
  {
    var frontier, batch := Frontier(st.pool), Batch(cfg, env, pareto, feedback, i);
    exists k: nat ::
      && IsDrawn(frontier, st.weights, env.draw(i), k)
      && Beats(cfg, env, batch, frontier[k], ChildPrompt(cfg, env, i, frontier[k], frontier))
  }

  /** How many of the iterations from `i` to the end of the budget breed a winner. */
  ghost function Winners(cfg: Config, env: Env, pareto: Dataset, feedback: Dataset, i: nat, st: RunState): nat
    requires Legal(env)
    decreases cfg.rolloutBudget - i
  {
    if i >= cfg.rolloutBudget then 0
    else match Iterate(cfg, env, pareto, feedback, i, st)
      case None => 0
      case Some(next) =>
        (if Wins(cfg, env, pareto, feedback, i, st) then 1 else 0) + Winners(cfg, env, pareto, feedback, i + 1, next)
  }

  lemma StepGrowsByWinner(cfg: Config, env: Env, pareto: Dataset, feedback: Dataset, i: nat, st: RunState)
    requires Legal(env) && RunInvariant(env, pareto, i, st)
    ensures match Iterate(cfg, env, pareto, feedback, i, st)
            case None => true
            case Some(next) => |next.pool| == |st.pool| + if Wins(cfg, env, pareto, feedback, i, st) then 1 else 0
  {
    hide Frontier, Batch, ChildPrompt, RunInvariant, Legal, Iterate, Beats, IsDrawn, IsChild;
    ParentAlwaysFound(cfg, env, pareto, feedback, i, st);
    if Batch(cfg, env, pareto, feedback, i) != [] {
      forall k: nat | IsDrawn(Frontier(st.pool), st.weights, env.draw(i), k)
        ensures var frontier := Frontier(st.pool);
                k < |frontier| && var r := Iterate(cfg, env, pareto, feedback, i, st);
                r.Some? && |r.value.pool| == |st.pool|
                  + if Beats(cfg, env, Batch(cfg, env, pareto, feedback, i), frontier[k],
                             ChildPrompt(cfg, env, i, frontier[k], frontier)) then 1 else 0
      {
        DrawnInRange(Frontier(st.pool), st.weights, env.draw(i), k);
        WinnersEnter(cfg, env, pareto, feedback, i, st, k);
      }
      ReachableDrawIsProportional(env, pareto, i, st, 0);
    }
  }

  lemma DrawnInRange(frontier: seq<Candidate>, weights: map<string, real>, u: real, k: nat)
    requires IsDrawn(frontier, weights, u, k)
    ensures k < |frontier|
  {
  }

  lemma {:induction false} LoopGrowsByWinners(
    cfg: Config, env: Env, pareto: Dataset, feedback: Dataset, i: nat, st: RunState)
    requires Legal(env) && RunInvariant(env, pareto, i, st)
    ensures |Loop(cfg, env, pareto, feedback, i, st).pool| == |st.pool| + Winners(cfg, env, pareto, feedback, i, st)
    decreases cfg.rolloutBudget - i
  {
    hide Iterate, RunInvariant, Legal, Wins;
    if i < cfg.rolloutBudget {
      StepInvariant(cfg, env, pareto, feedback, i, st);
      StepGrowsByWinner(cfg, env, pareto, feedback, i, st);
      match Iterate(cfg, env, pareto, feedback, i, st)
      case None =>
      case Some(next) => LoopGrowsByWinners(cfg, env, pareto, feedback, i + 1, next);
    }
  }

  /** Over every run, the final pool is the seed and one candidate for each iteration that bred a winner. */
  lemma PoolIsSeedAndWinners(cfg: Config, env: Env, seedPrompt: string, dataset: Dataset)
    requires Legal(env)
    ensures var (pareto, feedback) := Sets(cfg, env, dataset);
            |FinalState(cfg, env, seedPrompt, dataset).pool|
            == 1 + Winners(cfg, env, pareto, feedback, 0, InitialState(env, seedPrompt, pareto))
  {
    var (pareto, feedback) := Sets(cfg, env, dataset);
    InitialInvariant(env, seedPrompt, pareto);
    LoopGrowsByWinners(cfg, env, pareto, feedback, 0, InitialState(env, seedPrompt, pareto));
  }

  // ---------------------------------------------------------------------------
  // Every place in the pool is earned
  // ---------------------------------------------------------------------------

  /**
   `child` names a member of the frontier it was bred from as its parent, and beat that parent by more than the
   threshold on the batch of its iteration.
   */
  ghost predicate BeatParent(
    cfg: Config, env: Env, pareto: Dataset, feedback: Dataset, before: seq<Candidate>, child: Candidate)
    requires Legal(env)
  {
    child.generation >= 1 &&
    var batch := Batch(cfg, env, pareto, feedback, child.generation - 1);
    exists parent ::
      && parent in Frontier(before) && parent.id == child.parentId
      && MeanOf(env.score(child.prompt, batch)) > MeanOf(env.score(parent.prompt, batch)) + cfg.minDelta
  }

  ghost predicate Earned(cfg: Config, env: Env, pareto: Dataset, feedback: Dataset, pool: seq<Candidate>)
    requires Legal(env)
  {
    |pool| > 1 ==>
      var n := |pool| - 1;
      Earned(cfg, env, pareto, feedback, pool[..n]) && BeatParent(cfg, env, pareto, feedback, pool[..n], pool[n])
  }

  lemma StepEarned(cfg: Config, env: Env, pareto: Dataset, feedback: Dataset, i: nat, st: RunState)
    requires Legal(env) && Earned(cfg, env, pareto, feedback, st.pool)
    ensures match Iterate(cfg, env, pareto, feedback, i, st)
            case None => true
            case Some(next) => Earned(cfg, env, pareto, feedback, next.pool)
  {
    hide Legal, Frontier, Batch;
    var frontier := Frontier(st.pool);
    match Sample(frontier, st.weights, env.draw(i))
    case None =>
    case Some(parent) =>
      assert parent in frontier;
      var child := ChildOf(env, i, parent, ChildPrompt(cfg, env, i, parent, frontier), pareto);
      assert (st.pool + [child])[..|st.pool|] == st.pool;
      assert child.generation - 1 == i;
  }

  lemma {:induction false} LoopEarned(
    cfg: Config, env: Env, pareto: Dataset, feedback: Dataset, i: nat, st: RunState)
    requires Legal(env) && Earned(cfg, env, pareto, feedback, st.pool)
    ensures Earned(cfg, env, pareto, feedback, Loop(cfg, env, pareto, feedback, i, st).pool)
    decreases cfg.rolloutBudget - i
  {
    hide Iterate, Earned, Legal;
    if i < cfg.rolloutBudget {
      StepEarned(cfg, env, pareto, feedback, i, st);
      match Iterate(cfg, env, pareto, feedback, i, st)
      case None =>
      case Some(next) => LoopEarned(cfg, env, pareto, feedback, i + 1, next);
    }
  }

  lemma {:induction false} EarnedAt(
    cfg: Config, env: Env, pareto: Dataset, feedback: Dataset, pool: seq<Candidate>, k: nat)
    requires Legal(env) && Earned(cfg, env, pareto, feedback, pool) && 0 < k < |pool|
    ensures BeatParent(cfg, env, pareto, feedback, pool[..k], pool[k])
  {
    hide BeatParent, Legal;
    var n := |pool| - 1;
    if k < n {
      EarnedAt(cfg, env, pareto, feedback, pool[..n], k);
      assert pool[..n][..k] == pool[..k];
    }
  }

  /** In every run, every candidate but the seed beat a parent from the frontier of its day, by more than the threshold. */
  lemma EveryPlaceIsEarned(cfg: Config, env: Env, seedPrompt: string, dataset: Dataset, k: nat)
    requires Legal(env) && 0 < k
    ensures var (pareto, feedback) := Sets(cfg, env, dataset);
            var pool := FinalState(cfg, env, seedPrompt, dataset).pool;
            k < |pool| ==> BeatParent(cfg, env, pareto, feedback, pool[..k], pool[k])
  {
    hide Loop, BeatParent, Legal;
    var (pareto, feedback) := Sets(cfg, env, dataset);
    LoopEarned(cfg, env, pareto, feedback, 0, InitialState(env, seedPrompt, pareto));
    var pool := FinalState(cfg, env, seedPrompt, dataset).pool;
    if k < |pool| {
      EarnedAt(cfg, env, pareto, feedback, pool, k);
    }
  }

  // ---------------------------------------------------------------------------
  // Ancestry
  // ---------------------------------------------------------------------------

  /** The pool member whose id `c` names as its parent. */
  function ParentIn(pool: seq<Candidate>, c: Candidate): Option<Candidate> {
    if pool == [] then None
    else if pool[0].id == c.parentId then Some(pool[0])
    else ParentIn(pool[1..], c)
  }

  /** `steps` steps up the parent links, resting where they end. */
  function Ancestor(pool: seq<Candidate>, c: Candidate, steps: nat): Candidate
    decreases steps
  {
    if steps == 0 then c
    else match ParentIn(pool, c)
      case None => c
      case Some(p) => Ancestor(pool, p, steps - 1)
  }

  lemma {:induction false} ParentInFinds(pool: seq<Candidate>, c: Candidate, j: nat)
    requires j < |pool| && pool[j].id == c.parentId
    requires forall k, l | 0 <= k < l < |pool| :: pool[k].id != pool[l].id
    ensures ParentIn(pool, c) == Some(pool[j])
  {
    if j > 0 {
      ParentInFinds(pool[1..], c, j - 1);
    }
  }

  lemma {:induction false} ParentInFails(pool: seq<Candidate>, c: Candidate)
    requires forall k | 0 <= k < |pool| :: pool[k].id != c.parentId
    ensures ParentIn(pool, c) == None
  {
    if pool != [] {
      ParentInFails(pool[1..], c);
    }
  }

  lemma NobodyIsNameless(env: Env, pool: seq<Candidate>)
    requires Legal(env) && Genealogy(env, pool)
    ensures pool[0].parentId == ""
    ensures forall k | 0 <= k < |pool| :: pool[k].id != ""
  {
    GenealogyAt(env, pool, 0);
    forall k | 0 <= k < |pool|
      ensures pool[k].id != ""
    {
      GenealogyAt(env, pool, k);
    }
  }

  /** Following parent ids from any member ends at the seed, which has no parent. */
  lemma {:induction false} LineageEndsAtSeed(env: Env, pool: seq<Candidate>, k: nat, steps: nat)
    requires Legal(env) && Genealogy(env, pool) && k < |pool| && k <= steps
    ensures Ancestor(pool, pool[k], steps) == pool[0]
    ensures ParentIn(pool, pool[0]) == None
    decreases steps
  {
    DistinctIds(env, pool);
    NobodyIsNameless(env, pool);
    ParentInFails(pool, pool[0]);
    if k > 0 {
      var j := ParentIsEarlier(env, pool, k);
      ParentInFinds(pool, pool[k], j);
      LineageEndsAtSeed(env, pool, j, steps - 1);
    }
  }

  // ---------------------------------------------------------------------------
  // What a finished run returns
  // ---------------------------------------------------------------------------

  /** A candidate with the largest mean cannot be dominated. */
  lemma BestOnFrontier(env: Env, pareto: Dataset, pool: seq<Candidate>)
    requires Legal(env) && pool != [] && Scored(env, pareto, pool)
    ensures Best(pool).Some? && Best(pool).value in Frontier(pool)
  {
    BestHeadsTopN(pool, 1);
    var b := Best(pool).value;
    UndominatedMembers(pool, pool);
    if IsDominated(b, pool) {
      var o :| o in pool && Dominates(o.scores, b.scores);
      DominanceRaisesMean(o.scores, b.scores);
      assert false;
    }
  }

  /** What holds of the result of every completed run on a non-empty data set. */
  ghost predicate GoodResult(env: Env, topN: int, seedPrompt: string, res: Result) {
    && Genealogy(env, res.history)
    && res.history[0].prompt == seedPrompt
    && res.iterations == |res.history| - 1
    && res.best.Some?
    && res.best.value in Frontier(res.history)
    && (forall c | c in res.history :: res.best.value.aggScore >= c.aggScore)
    && res.candidates == TopN(res.history, topN)
    && (topN > 0 ==> res.candidates != [] && res.candidates[0] == res.best.value)
  }

  function ResultOf(cfg: Config, st: RunState): Result {
    Result(TopN(st.pool, cfg.topN), Best(st.pool), st.iterations, st.history)
  }

  lemma FinalStateIsGood(cfg: Config, env: Env, seedPrompt: string, dataset: Dataset)
    requires Legal(env) && dataset != []
    ensures var st := FinalState(cfg, env, seedPrompt, dataset);
            var pareto := Sets(cfg, env, dataset).0;
            && (exists i: nat :: RunInvariant(env, pareto, i, st))
            && GoodResult(env, cfg.topN, seedPrompt, ResultOf(cfg, st))
  {
    var (pareto, feedback) := Sets(cfg, env, dataset);
    InitialInvariant(env, seedPrompt, pareto);
    var st := FinalState(cfg, env, seedPrompt, dataset);
    var last := LoopInvariant(cfg, env, pareto, feedback, 0, InitialState(env, seedPrompt, pareto));
    BestOnFrontier(env, pareto, st.pool);
    BestHeadsTopN(st.pool, cfg.topN);
    assert st.pool[0] in st.pool;
  }

  /** One pass through the loop body of `Run`; `stop` is its `break`. */
  method Rollout(
    cfg: Config, env: Env, pareto: Dataset, feedback: Dataset, i: nat,
    pool: CandidatePool, weights: map<string, real>, history: seq<Candidate>, iterations: int)
    returns (stop: bool, weights': map<string, real>, history': seq<Candidate>, iterations': int)
    requires Legal(env)
    modifies pool
    ensures stop ==> pool.candidates == old(pool.candidates)
    ensures stop ==> weights' == weights && history' == history && iterations' == iterations
    ensures Iterate(cfg, env, pareto, feedback, i, RunState(old(pool.candidates), weights, history, iterations))
            == if stop then None else Some(RunState(pool.candidates, weights', history', iterations'))
  {
    hide Frontier, Sample, MeanOf, MinibatchOf, IsPermutation;
    stop, weights', history', iterations' := false, weights, history, iterations;
    var all := pool.All();
    var frontier := ParetoFrontier(all);
    var drawn := SampleFromFrontier(frontier, weights, env.draw(i));
    if drawn == None {
      stop := true;
      return;
    }
    var parent := drawn.value;
    var source := pareto;
    if |feedback| > 0 {
      source := feedback;
    }
    var minibatch := Minibatch(source, cfg.minibatchSize, env.perm(i, |source|));
    if |minibatch| == 0 {
      stop := true;
      return;
    }
    var parentScore := Mean(env.score(parent.prompt, minibatch));
    var childPrompt: string;
    if cfg.crossoverEnabled && env.coin(i) < cfg.crossoverFrequency && |frontier| >= 2 {
      var other := frontier[env.partner(i) % |frontier|];
      childPrompt := env.crossover(i, parent, other);
    } else {
      childPrompt := env.mutate(i, parent);
    }
    var childScore := Mean(env.score(childPrompt, minibatch));
    if childScore <= parentScore + cfg.minDelta {
      return;
    }
    var paretoScores := env.score(childPrompt, pareto);
    var paretoMean := Mean(paretoScores);
    var child := Candidate(env.id(i + 1), childPrompt, parent.id, paretoScores, paretoMean, i + 1, env.asi(i));
    pool.Add(child);
    weights' := weights[parent.id := WeightOf(weights, parent.id) + 1.0];
    history' := history + [child];
    iterations' := iterations + 1;
  }

  method Run(given: Config, env: Env, seedPrompt: string, dataset: Dataset) returns (res: Result)
    requires Legal(env)
    ensures dataset == [] ==> res == Result([], None, 0, [])
    ensures dataset != [] ==>
              var cfg := WithDefaults(given);
              && res == ResultOf(cfg, FinalState(cfg, env, seedPrompt, dataset))
              && GoodResult(env, cfg.topN, seedPrompt, res)
  {
    if |dataset| == 0 {
      return Result([], None, 0, []);
    }
    var cfg := WithDefaults(given);
    res := Optimize(cfg, env, seedPrompt, dataset);
    FinalStateIsGood(cfg, env, seedPrompt, dataset);
  }

  /** The rollout loop of `Run`, from a pool that holds the seed. */
  method Evolve(
    cfg: Config, env: Env, pareto: Dataset, feedback: Dataset, pool: CandidatePool, base: Candidate)
    returns (weights: map<string, real>, history: seq<Candidate>, iterations: int)
    requires Legal(env) && pool.candidates == [base]
    modifies pool
    ensures RunState(pool.candidates, weights, history, iterations)
            == Loop(cfg, env, pareto, feedback, 0, RunState([base], map[], [base], 0))
  {
    weights, history, iterations := map[], [base], 0;
    ghost var final := Loop(cfg, env, pareto, feedback, 0, RunState([base], map[], [base], 0));
    var i := 0;
    while i < cfg.rolloutBudget
      invariant 0 <= i
      invariant Loop(cfg, env, pareto, feedback, i, RunState(pool.candidates, weights, history, iterations)) == final
      decreases cfg.rolloutBudget - i
    {
      var stop;
      stop, weights, history, iterations :=
        Rollout(cfg, env, pareto, feedback, i, pool, weights, history, iterations);
      if stop {
        return;
      }
      i := i + 1;
    }
  }

  /** `Run` past its empty-data check. */
  method Optimize(cfg: Config, env: Env, seedPrompt: string, dataset: Dataset) returns (res: Result)
    requires Legal(env)
    ensures res == ResultOf(cfg, FinalState(cfg, env, seedPrompt, dataset))
  {
    var paretoSet, feedbackSet := Split(dataset, cfg.paretoFraction, env.swap);
    if |paretoSet| == 0 {
      paretoSet := dataset;
    }
    var baseScores := env.score(seedPrompt, paretoSet);
    var baseMean := Mean(baseScores);
    var base := Candidate(env.id(0), seedPrompt, "", baseScores, baseMean, 0, "");
    var pool := new CandidatePool();
    pool.Add(base);
    var weights, history, iterations := Evolve(cfg, env, paretoSet, feedbackSet, pool, base);
    var best := pool.GetBest();
    var all := pool.All();
    var candidates := SelectTopN(all, cfg.topN);
    return Result(candidates, best, iterations, history);
  }
}
