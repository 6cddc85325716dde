/**
 Balanced choice of rated conversations (selectBalanced in internal/store/redis/feedback.go, and its line-for-line
 copy selectBalancedPG in internal/store/pg/store.go), and the optimiser's all-positive short-circuit on the result
 (allPositive in internal/optimizer/driver.go).
 */
module Sampling {
  import opened Common

  datatype Feedback = Feedback(
    conversationId: string, variantId: string, score: int, prompt: string, response: string, comment: string)

  // ---------------------------------------------------------------------------
  // Specification: round robin over the three score classes
  // ---------------------------------------------------------------------------

  /** Class 0 is score 1, class 1 is score -1, class 2 is everything else. */
  function ClassOf(f: Feedback): nat {
    if f.score == 1 then 0 else if f.score == -1 then 1 else 2
  }

  lemma ClassesAreScores(f: Feedback)
    ensures ClassOf(f) == 0 <==> f.score == 1
    ensures ClassOf(f) == 1 <==> f.score == -1
    ensures ClassOf(f) == 2 <==> f.score != 1 && f.score != -1
  {
  }

  /** The items of one class, in order. */
  function Of(list: seq<Feedback>, c: nat): seq<Feedback> {
    if list == [] then []
    else if ClassOf(list[0]) == c then [list[0]] + Of(list[1..], c)
    else Of(list[1..], c)
  }

  /** How many items of each class. */
  datatype Share = Share(pos: nat, neg: nat, neu: nat)

  function Sizes(list: seq<Feedback>): Share {
    Share(|Of(list, 0)|, |Of(list, 1)|, |Of(list, 2)|)
  }

  function Total(s: Share): nat { s.pos + s.neg + s.neu }

  /** Of two classes, the later never leads and neither trails by more than one, unless the trailing one is exhausted. */
  predicate Fair(earlier: nat, earlierSize: nat, later: nat, laterSize: nat) {
    && (earlier > later + 1 ==> later == laterSize)
    && (later > earlier ==> earlier == earlierSize)
  }

  /** The division of `n` places among classes of the given sizes that `selectBalanced` promises. */
  predicate Balanced(share: Share, sizes: Share, n: nat) {
    && share.pos <= sizes.pos && share.neg <= sizes.neg && share.neu <= sizes.neu
    && Total(share) == Min(n, Total(sizes))
    && Fair(share.pos, sizes.pos, share.neg, sizes.neg)
    && Fair(share.pos, sizes.pos, share.neu, sizes.neu)
    && Fair(share.neg, sizes.neg, share.neu, sizes.neu)
  }

  /** The rules leave no freedom: they determine every class's share. */
  lemma BalancedIsUnique(a: Share, b: Share, sizes: Share, n: nat)
    requires Balanced(a, sizes, n) && Balanced(b, sizes, n)
    ensures a == b
  {
  }

  function Get(s: Share, c: nat): nat
    requires c < 3
  {
    if c == 0 then s.pos else if c == 1 then s.neg else s.neu
  }

  /**
   Max-min fairness: any other division of at most `n` places that gives some class more must take from a class that
   is at most one place ahead of it.
   */
  lemma BalancedIsMaxMinFair(share: Share, sizes: Share, n: nat, other: Share, c: nat) returns (d: nat)
    requires Balanced(share, sizes, n) && c < 3
    requires Total(other) <= n && other.pos <= sizes.pos && other.neg <= sizes.neg && other.neu <= sizes.neu
    requires Get(other, c) > Get(share, c)
    ensures d < 3 && Get(other, d) < Get(share, d) <= Get(share, c) + 1
  {
    d := if other.pos < share.pos then 0 else if other.neg < share.neg then 1 else 2;
  }

  // ---------------------------------------------------------------------------
  // The selection
  // ---------------------------------------------------------------------------

  /**
   Turn-taking among three queues: the first queue gives up its head, if it has one, and goes to the back. Starting
   from positive, negative, neutral this is the round robin of `selectBalanced`.
   */
  function TakeTurns(a: seq<Feedback>, b: seq<Feedback>, c: seq<Feedback>, n: nat): seq<Feedback>
    decreases |a| + |b| + |c|, if a != [] then 0 else if b != [] then 1 else 2
  {
    if n == 0 || (a == [] && b == [] && c == []) then []
    else if a == [] then TakeTurns(b, c, a, n)
    else [a[0]] + TakeTurns(b, c, a[1..], n - 1)
  }

  function Selection(list: seq<Feedback>, n: int): seq<Feedback> {
    if n <= 0 then [] else TakeTurns(Of(list, 0), Of(list, 1), Of(list, 2), n)
  }

  /** What is still to come when bucket `i` has the turn. */
  function ToCome(buckets: seq<seq<Feedback>>, i: nat, n: nat): seq<Feedback>
    requires |buckets| == 3
  {
    if i == 1 then TakeTurns(buckets[1], buckets[2], buckets[0], n)
    else if i == 2 then TakeTurns(buckets[2], buckets[0], buckets[1], n)
    else TakeTurns(buckets[0], buckets[1], buckets[2], n)
  }

  method SelectBalanced(list: seq<Feedback>, n: int) returns (out: seq<Feedback>)
    ensures out == Selection(list, n)
  {
    if n <= 0 || |list| == 0 {
      return [];
    }
    var pos, neg, neu := [], [], [];
    for k := 0 to |list|
      invariant pos == Of(list[..k], 0) && neg == Of(list[..k], 1) && neu == Of(list[..k], 2)
    {
      OfSnoc(list, k, 0);
      OfSnoc(list, k, 1);
      OfSnoc(list, k, 2);
      var item := list[k];
      if item.score == 1 {
        pos := pos + [item];
      } else if item.score == -1 {
        neg := neg + [item];
      } else {
        neu := neu + [item];
      }
    }
    assert list[..|list|] == list;
    out := RoundRobin(pos, neg, neu, n);
  }

  method RoundRobin(pos: seq<Feedback>, neg: seq<Feedback>, neu: seq<Feedback>, n: nat) returns (out: seq<Feedback>)
    ensures out == TakeTurns(pos, neg, neu, n)
  {
    out := [];
    var buckets := [pos, neg, neu];
    while |out| < n
      invariant |out| <= n && |buckets| == 3
      invariant out + ToCome(buckets, 0, n - |out|) == TakeTurns(pos, neg, neu, n)
      decreases n - |out|
    {
      var progressed := false;
      ghost var before := |out|;
      for i := 0 to 3
        invariant before <= |out| < n && |buckets| == 3
        invariant out + ToCome(buckets, i, n - |out|) == TakeTurns(pos, neg, neu, n)
        invariant progressed <==> before < |out|
        invariant !progressed ==> forall j | 0 <= j < i :: buckets[j] == []
      {
        if |buckets[i]| == 0 {
          TurnSkipped(buckets, i, n - |out|);
          continue;
        }
        TurnTaken(buckets, i, n - |out|, out);
        out := out + [buckets[i][0]];
        buckets := buckets[i := buckets[i][1..]];
        progressed := true;
        if |out| >= n {
          break;
        }
      }
      if !progressed {
        break;
      }
    }
  }

  lemma TurnSkipped(buckets: seq<seq<Feedback>>, i: nat, n: nat)
    requires |buckets| == 3 && i < 3 && buckets[i] == []
    ensures ToCome(buckets, i, n) == ToCome(buckets, i + 1, n)
  {
  }

  lemma TurnTaken(buckets: seq<seq<Feedback>>, i: nat, n: nat, out: seq<Feedback>)
    requires |buckets| == 3 && i < 3 && buckets[i] != [] && n > 0
    ensures out + ToCome(buckets, i, n)
            == (out + [buckets[i][0]]) + ToCome(buckets[i := buckets[i][1..]], i + 1, n - 1)
    ensures ToCome(buckets[i := buckets[i][1..]], i + 1, 0) == ToCome(buckets[i := buckets[i][1..]], 0, 0) == []
  {
    var later := ToCome(buckets[i := buckets[i][1..]], i + 1, n - 1);
    assert ToCome(buckets, i, n) == [buckets[i][0]] + later;
    Associative(out, [buckets[i][0]], later);
  }

  lemma Associative<T>(a: seq<T>, b: seq<T>, c: seq<T>)
    ensures a + (b + c) == (a + b) + c
  {
  }

  // ---------------------------------------------------------------------------
  // What the selection takes
  // ---------------------------------------------------------------------------

  lemma {:induction false} OfSnoc(list: seq<Feedback>, k: nat, c: nat)
    requires k < |list|
    ensures Of(list[..k + 1], c) == Of(list[..k], c) + if ClassOf(list[k]) == c then [list[k]] else []
  {
    if k == 0 {
      assert list[..1] == [list[0]];
    } else {
      OfSnoc(list[1..], k - 1, c);
      assert list[..k + 1][1..] == list[1..][..k] && list[..k][1..] == list[1..][..k - 1];
    }
  }

  ghost predicate AllOf(s: seq<Feedback>, c: nat) {
    forall i | 0 <= i < |s| :: ClassOf(s[i]) == c
  }

  lemma {:induction false} OfIsOneClass(list: seq<Feedback>, c: nat)
    ensures AllOf(Of(list, c), c)
  {
    if list != [] {
      OfIsOneClass(list[1..], c);
    }
  }

  /** Handing the turn on keeps a division balanced: past an empty queue, and after the first queue gave up its head. */
  lemma TurnKeepsBalance(r: Share, a: nat, b: nat, c: nat, n: nat)
    ensures Balanced(r, Share(b, c, 0), n) ==> Balanced(Share(r.neu, r.pos, r.neg), Share(0, b, c), n)
    ensures a > 0 && n > 0 && Balanced(r, Share(b, c, a - 1), n - 1) ==>
              Balanced(Share(r.neu + 1, r.pos, r.neg), Share(a, b, c), n)
  {
  }

  lemma EmptyShare(a: nat, b: nat, c: nat, n: nat)
    requires n == 0 || a + b + c == 0
    ensures Balanced(Share(0, 0, 0), Share(a, b, c), n)
  {
  }

  /** Turns divide the places in the balanced way, and each queue gives up a prefix of itself. */
  lemma {:induction false} TurnsAreBalanced(
    a: seq<Feedback>, b: seq<Feedback>, c: seq<Feedback>, n: nat, x: nat, y: nat, z: nat) returns (k: Share)
    requires AllOf(a, x) && AllOf(b, y) && AllOf(c, z) && x != y && y != z && z != x
    ensures k.pos <= |a| && k.neg <= |b| && k.neu <= |c|
    ensures Balanced(k, Share(|a|, |b|, |c|), n)
    ensures var out := TakeTurns(a, b, c, n);
            Of(out, x) == a[..k.pos] && Of(out, y) == b[..k.neg] && Of(out, z) == c[..k.neu]
    decreases |a| + |b| + |c|, if a != [] then 0 else if b != [] then 1 else 2
  {
    hide Balanced, ClassOf;
    if n == 0 || (a == [] && b == [] && c == []) {
      k := Share(0, 0, 0);
      EmptyShare(|a|, |b|, |c|, n);
    } else if a == [] {
      var r := TurnsAreBalanced(b, c, a, n, y, z, x);
      k := Share(r.neu, r.pos, r.neg);
      TurnKeepsBalance(r, |a|, |b|, |c|, n);
    } else {
      var r := TurnsAreBalanced(b, c, a[1..], n - 1, y, z, x);
      k := Share(r.neu + 1, r.pos, r.neg);
      TurnKeepsBalance(r, |a|, |b|, |c|, n);
      var rest := TakeTurns(b, c, a[1..], n - 1);
      OfCons(a[0], rest, x);
      OfCons(a[0], rest, y);
      OfCons(a[0], rest, z);
      assert a[..k.pos] == [a[0]] + a[1..][..r.neu];
    }
  }

  lemma OfCons(f: Feedback, rest: seq<Feedback>, c: nat)
    ensures Of([f] + rest, c) == if ClassOf(f) == c then [f] + Of(rest, c) else Of(rest, c)
  {
    assert ([f] + rest)[1..] == rest;
  }

  lemma {:induction false} CountByClass(list: seq<Feedback>)
    ensures |list| == |Of(list, 0)| + |Of(list, 1)| + |Of(list, 2)|
  {
    if list != [] {
      CountByClass(list[1..]);
    }
  }

  /**
   The selection from any list: min(n, |list|) items, a prefix of each class in order, divided in the one balanced,
   max-min fair way.
   */
  lemma SelectionIsBalanced(list: seq<Feedback>, n: nat)
    ensures var out := Selection(list, n);
            && |out| == Min(n, |list|)
            && Balanced(Sizes(out), Sizes(list), n)
            && Of(out, 0) <= Of(list, 0) && Of(out, 1) <= Of(list, 1) && Of(out, 2) <= Of(list, 2)
  {
    hide Of, TakeTurns, AllOf;
    OfIsOneClass(list, 0);
    OfIsOneClass(list, 1);
    OfIsOneClass(list, 2);
    var out := Selection(list, n);
    var share := TurnsAreBalanced(Of(list, 0), Of(list, 1), Of(list, 2), n, 0, 1, 2);
    SelectionTakesTurns(list, n);
    BalancedSizes(Of(list, 0), Of(list, 1), Of(list, 2), share, n);
    assert Sizes(out) == share;
    TotalSizes(list);
    TotalSizes(out);
  }

  lemma SelectionTakesTurns(list: seq<Feedback>, n: nat)
    ensures Selection(list, n) == TakeTurns(Of(list, 0), Of(list, 1), Of(list, 2), n)
  {
  }

  lemma BalancedSizes(a: seq<Feedback>, b: seq<Feedback>, c: seq<Feedback>, share: Share, n: nat)
    requires Balanced(share, Share(|a|, |b|, |c|), n)
    ensures |a[..share.pos]| == share.pos && |b[..share.neg]| == share.neg && |c[..share.neu]| == share.neu
    ensures a[..share.pos] <= a && b[..share.neg] <= b && c[..share.neu] <= c
  {
  }

  lemma TotalSizes(list: seq<Feedback>)
    ensures Total(Sizes(list)) == |list|
  {
    CountByClass(list);
  }

  lemma {:induction false} TurnsContinue(
    a: seq<Feedback>, b: seq<Feedback>, c: seq<Feedback>, m: nat, n: nat)
    requires m <= n
    ensures TakeTurns(a, b, c, m) <= TakeTurns(a, b, c, n)
    decreases |a| + |b| + |c|, if a != [] then 0 else if b != [] then 1 else 2
  {
    if m > 0 && (a != [] || b != [] || c != []) {
      if a == [] {
        TurnsContinue(b, c, a, m, n);
      } else {
        TurnsContinue(b, c, a[1..], m - 1, n - 1);
      }
    }
  }

  /**
   A larger sample continues a smaller one. Since each size is divided in the one balanced way, this fixes the whole
   order: positive, negative and neutral in turn.
   */
  lemma SelectionContinues(list: seq<Feedback>, m: nat, n: nat)
    requires m <= n
    ensures Selection(list, m) <= Selection(list, n)
  {
    TurnsContinue(Of(list, 0), Of(list, 1), Of(list, 2), m, n);
  }

  lemma {:induction false} TurnsTakeMembers(a: seq<Feedback>, b: seq<Feedback>, c: seq<Feedback>, n: nat)
    ensures forall f | f in TakeTurns(a, b, c, n) :: f in a || f in b || f in c
    decreases |a| + |b| + |c|, if a != [] then 0 else if b != [] then 1 else 2
  {
    if n > 0 && (a != [] || b != [] || c != []) {
      if a == [] {
        TurnsTakeMembers(b, c, a, n);
      } else {
        TurnsTakeMembers(b, c, a[1..], n - 1);
      }
    }
  }

  // ---------------------------------------------------------------------------
  // The optimiser's short-circuit
  // ---------------------------------------------------------------------------

  predicate IsAllPositive(samples: seq<Feedback>) {
    samples != [] && forall i | 0 <= i < |samples| :: samples[i].score == 1
  }

  method AllPositive(samples: seq<Feedback>) returns (r: bool)
    ensures r == IsAllPositive(samples)
  {
    if |samples| == 0 {
      return false;
    }
    for i := 0 to |samples|
      invariant forall j | 0 <= j < i :: samples[j].score == 1
    {
      if samples[i].score != 1 {
        return false;
      }
    }
    return true;
  }

  /** The rows of one variant's bucket, in row order. */
  function Bucket(rows: seq<Feedback>, v: string): seq<Feedback> {
    if rows == [] then []
    else Bucket(rows[..|rows| - 1], v) + if rows[|rows| - 1].variantId == v then [rows[|rows| - 1]] else []
  }

  /** The selections of the buckets listed in `order`, one after the other. */
  function Selected(rows: seq<Feedback>, order: seq<string>, perVariant: int): seq<Feedback> {
    if order == [] then []
    else
      var last := |order| - 1;
      Selected(rows, order[..last], perVariant) + Selection(Bucket(rows, order[last]), perVariant)
  }

  function InBucket(buckets: map<string, seq<Feedback>>, v: string): seq<Feedback> {
    if v in buckets then buckets[v] else []
  }

  lemma BucketGrows(rows: seq<Feedback>, k: nat, v: string)
    requires k < |rows|
    ensures Bucket(rows[..k + 1], v) == Bucket(rows[..k], v) + if rows[k].variantId == v then [rows[k]] else []
  {
    assert rows[..k + 1][..k] == rows[..k];
  }

  /** Appends every row to its variant's bucket. */
  method FillBuckets(rows: seq<Feedback>) returns (buckets: map<string, seq<Feedback>>)
    ensures forall v :: InBucket(buckets, v) == Bucket(rows, v)
  {
    hide Bucket;
    buckets := map[];
    NoRowsNoBuckets(rows);
    for k := 0 to |rows|
      invariant forall v :: InBucket(buckets, v) == Bucket(rows[..k], v)
    {
      var cf := rows[k];
      ghost var was := buckets;
      buckets := buckets[cf.variantId := InBucket(buckets, cf.variantId) + [cf]];
      forall v
        ensures InBucket(buckets, v) == Bucket(rows[..k + 1], v)
      {
        BucketGrows(rows, k, v);
        assert InBucket(was, v) == Bucket(rows[..k], v);
      }
    }
    assert rows[..|rows|] == rows;
  }

  lemma NoRowsNoBuckets(rows: seq<Feedback>)
    ensures forall v :: Bucket(rows[..0], v) == []
  {
  }

  /**
   The sampling half of LoadConversationSamples: rows are appended to their variant's bucket, then every bucket is
   sampled. `order` is the arbitrary order in which Go walks the bucket map.
   */
  method SelectSamples(rows: seq<Feedback>, order: seq<string>, perVariant: int) returns (selected: seq<Feedback>)
    ensures selected == Selected(rows, order, perVariant)
  {
    hide Bucket, Selection;
    var variantBuckets := FillBuckets(rows);
    selected := [];
    for k := 0 to |order|
      invariant selected == Selected(rows, order[..k], perVariant)
    {
      assert order[..k + 1][..k] == order[..k];
      assert InBucket(variantBuckets, order[k]) == Bucket(rows, order[k]);
      var chosen := SelectBalanced(InBucket(variantBuckets, order[k]), perVariant);
      selected := selected + chosen;
    }
    assert order[..|order|] == order;
  }

  lemma {:induction false} BucketMembers(rows: seq<Feedback>, v: string)
    ensures forall f :: f in Bucket(rows, v) <==> f in rows && f.variantId == v
  {
    if rows != [] {
      BucketMembers(rows[..|rows| - 1], v);
      assert rows == rows[..|rows| - 1] + [rows[|rows| - 1]];
    }
  }

  lemma {:induction false} BucketOfConcat(a: seq<Feedback>, b: seq<Feedback>, v: string)
    ensures Bucket(a + b, v) == Bucket(a, v) + Bucket(b, v)
  {
    if b == [] {
      assert a + b == a;
    } else {
      var n := |b| - 1;
      BucketOfConcat(a, b[..n], v);
      assert (a + b)[..|a| + n] == a + b[..n];
    }
  }

  lemma BucketOfOne(rows: seq<Feedback>, v: string, w: string)
    requires forall f | f in rows :: f.variantId == w
    ensures Bucket(rows, v) == if v == w then rows else []
  {
    hide Bucket;
    if v == w {
      forall i | 0 <= i < |rows|
        ensures rows[i].variantId == v
      {
        assert rows[i] in rows;
      }
      OneBucket(rows, v);
    } else {
      BucketMembers(rows, v);
      SomeMember(Bucket(rows, v));
    }
  }

  lemma SomeMember(s: seq<Feedback>)
    ensures s != [] ==> exists f :: f in s
  {
    if s != [] {
      assert s[0] in s;
    }
  }

  lemma EmptyBucket(v: string)
    ensures Bucket([], v) == []
  {
  }

  /** Each variant the walk visits is sampled on its own, from its own rows in their order; no other variant is. */
  lemma {:induction false} EachVariantIsSampled(rows: seq<Feedback>, order: seq<string>, n: int, v: string)
    requires forall i, j | 0 <= i < j < |order| :: order[i] != order[j]
    ensures Bucket(Selected(rows, order, n), v) == if v in order then Selection(Bucket(rows, v), n) else []
  {
    hide Selection, Bucket;
    if order == [] {
      EmptyBucket(v);
    } else {
      var last := |order| - 1;
      var w := order[last];
      var chosen := Selection(Bucket(rows, w), n);
      EachVariantIsSampled(rows, order[..last], n, v);
      BucketOfConcat(Selected(rows, order[..last], n), chosen, v);
      SelectionMembers(Bucket(rows, w), n);
      BucketMembers(rows, w);
      BucketOfOne(chosen, v, w);
      assert order == order[..last] + [w] && w !in order[..last];
    }
  }

  /** Whatever the order of the buckets, every selected sample is one of the rows. */
  lemma {:induction false} SamplesAreRows(rows: seq<Feedback>, order: seq<string>, n: int)
    ensures forall f | f in Selected(rows, order, n) :: f in rows
  {
    if order != [] {
      var last := |order| - 1;
      var bucket := Bucket(rows, order[last]);
      SamplesAreRows(rows, order[..last], n);
      BucketMembers(rows, order[last]);
      SelectionMembers(bucket, n);
    }
  }

  lemma SelectionMembers(list: seq<Feedback>, n: int)
    ensures forall f | f in Selection(list, n) :: f in list
  {
    OfMembers(list, 0);
    OfMembers(list, 1);
    OfMembers(list, 2);
    if n > 0 {
      TurnsTakeMembers(Of(list, 0), Of(list, 1), Of(list, 2), n);
    }
  }

  lemma {:induction false} OfMembers(list: seq<Feedback>, c: nat)
    ensures forall f | f in Of(list, c) :: f in list
  {
    if list != [] {
      OfMembers(list[1..], c);
    }
  }

  /** With two places or more, a bucket that holds anything but positives shows it in its sample. */
  lemma SelectionShowsBad(list: seq<Feedback>, n: nat)
    requires n >= 2 && list != []
    ensures IsAllPositive(Selection(list, n)) <==> IsAllPositive(list)
    ensures Selection(list, n) != []
  {
    SelectionIsBalanced(list, n);
    BalancedShowsBad(Selection(list, n), list, n);
  }

  lemma BalancedShowsBad(out: seq<Feedback>, list: seq<Feedback>, n: nat)
    requires n >= 2 && list != []
    requires |out| == Min(n, |list|) && Balanced(Sizes(out), Sizes(list), n)
    ensures IsAllPositive(out) <==> IsAllPositive(list)
    ensures out != []
  {
    CountByClass(list);
    CountByClass(out);
    AllPositiveByClass(list);
    AllPositiveByClass(out);
  }

  lemma {:induction false} AllPositiveByClass(list: seq<Feedback>)
    ensures IsAllPositive(list) <==> list != [] && Of(list, 1) == [] && Of(list, 2) == []
  {
    if list != [] {
      AllPositiveByClass(list[1..]);
      AllPositiveConcat([list[0]], list[1..]);
      assert list == [list[0]] + list[1..];
      OfCons(list[0], list[1..], 1);
      OfCons(list[0], list[1..], 2);
    }
  }

  lemma {:induction false} SelectedPositive(rows: seq<Feedback>, order: seq<string>, n: nat)
    requires n >= 2
    requires forall k | 0 <= k < |order| :: Bucket(rows, order[k]) != []
    ensures IsAllPositive(Selected(rows, order, n))
            <==> order != [] && forall k | 0 <= k < |order| :: IsAllPositive(Bucket(rows, order[k]))
  {
    if order != [] {
      var last := |order| - 1;
      var bucket := Bucket(rows, order[last]);
      SelectedPositive(rows, order[..last], n);
      SelectionShowsBad(bucket, n);
      var earlier := Selected(rows, order[..last], n);
      AllPositiveConcat(earlier, Selection(bucket, n));
      assert forall k | 0 <= k < last :: order[..last][k] == order[k];
      if last == 0 {
        assert earlier == [];
      } else {
        SelectedNonEmpty(rows, order[..last], n);
      }
    }
  }

  lemma SelectedNonEmpty(rows: seq<Feedback>, order: seq<string>, n: nat)
    requires n >= 2 && order != [] && Bucket(rows, order[|order| - 1]) != []
    ensures Selected(rows, order, n) != []
  {
    SelectionShowsBad(Bucket(rows, order[|order| - 1]), n);
  }

  lemma AllPositiveConcat(a: seq<Feedback>, b: seq<Feedback>)
    ensures IsAllPositive(a + b)
            <==> (a != [] || b != []) && (a == [] || IsAllPositive(a)) && (b == [] || IsAllPositive(b))
  {
    if IsAllPositive(a + b) {
      assert forall i | 0 <= i < |a| :: a[i] == (a + b)[i];
      assert forall i | 0 <= i < |b| :: b[i] == (a + b)[|a| + i];
    }
  }

  /** `order` walks the bucket map: every variant of the rows, and nothing else. */
  ghost predicate WalksBuckets(rows: seq<Feedback>, order: seq<string>) {
    forall v :: v in order <==> exists f :: f in rows && f.variantId == v
  }

  /** Sampling at least two per variant never hides a bad rating, and never invents one. */
  lemma SamplingHidesNothing(rows: seq<Feedback>, order: seq<string>, n: nat)
    requires n >= 2 && WalksBuckets(rows, order)
    ensures IsAllPositive(Selected(rows, order, n)) <==> IsAllPositive(rows)
  {
    forall k | 0 <= k < |order|
      ensures Bucket(rows, order[k]) != []
    {
      assert order[k] in order;
      var f :| f in rows && f.variantId == order[k];
      BucketMembers(rows, order[k]);
      assert f in Bucket(rows, order[k]);
    }
    SelectedPositive(rows, order, n);
    if IsAllPositive(rows) {
      assert rows[0] in rows;
      assert rows[0].variantId in order;
      forall k | 0 <= k < |order|
        ensures IsAllPositive(Bucket(rows, order[k]))
      {
        BucketMembers(rows, order[k]);
        forall i | 0 <= i < |Bucket(rows, order[k])|
          ensures Bucket(rows, order[k])[i].score == 1
        {
          assert Bucket(rows, order[k])[i] in Bucket(rows, order[k]);
        }
      }
    }
    if IsAllPositive(Selected(rows, order, n)) {
      forall i | 0 <= i < |rows|
        ensures rows[i].score == 1
      {
        var v := rows[i].variantId;
        assert rows[i] in rows;
        assert v in order;
        var k :| 0 <= k < |order| && order[k] == v;
        BucketMembers(rows, v);
        assert rows[i] in Bucket(rows, v);
        assert IsAllPositive(Bucket(rows, order[k]));
      }
      assert order[0] in order;
      var f :| f in rows && f.variantId == order[0];
    }
  }

  /** With fewer than two per variant it can: a lone positive place hides a negative, and no place hides everything. */
  lemma SamplingCanHide(n: int) returns (rows: seq<Feedback>, order: seq<string>)
    requires n < 2
    ensures WalksBuckets(rows, order)
    ensures IsAllPositive(Selected(rows, order, n)) != IsAllPositive(rows)
  {
    hide Selected, Selection, Bucket, WalksBuckets;
    var good := Feedback("a", "v", 1, "p", "r", "");
    var bad := Feedback("b", "v", -1, "p", "r", "");
    order := ["v"];
    rows := if n == 1 then [good, bad] else [good];
    OneBucket(rows, "v");
    OneVariantWalk(rows, "v");
    OneSelection(rows, "v", n);
    assert rows[0] == good;
    if n == 1 {
      assert rows[1] == bad;
      LoneGoodHidesBad(good, bad);
    }
  }

  /** From two per variant on, the short-circuit agrees on the sample and on all rows, for any rows and bucket order. */
  lemma SamplingExactFromTwo(n: int)
    ensures (forall rows, order | WalksBuckets(rows, order) ::
               IsAllPositive(Selected(rows, order, n)) <==> IsAllPositive(rows))
            <==> n >= 2
  {
    hide IsAllPositive, Selected, WalksBuckets;
    if n >= 2 {
      forall rows, order | WalksBuckets(rows, order)
        ensures IsAllPositive(Selected(rows, order, n)) <==> IsAllPositive(rows)
      {
        SamplingHidesNothing(rows, order, n);
      }
    } else {
      var rows, order := SamplingCanHide(n);
    }
  }

  lemma OneVariantWalk(rows: seq<Feedback>, v: string)
    requires rows != [] && forall i | 0 <= i < |rows| :: rows[i].variantId == v
    ensures WalksBuckets(rows, [v])
  {
    assert rows[0] in rows && [v][0] == v;
  }

  lemma OneSelection(rows: seq<Feedback>, v: string, n: int)
    requires Bucket(rows, v) == rows
    ensures Selected(rows, [v], n) == Selection(rows, n)
    ensures n <= 0 ==> Selection(rows, n) == []
  {
    hide Bucket, TakeTurns;
    assert [v][..0] == [];
    assert Selected(rows, [], n) == [];
  }

  lemma LoneGoodHidesBad(good: Feedback, bad: Feedback)
    requires ClassOf(good) == 0 && ClassOf(bad) == 1
    ensures IsAllPositive(Selection([good, bad], 1))
  {
    hide Of, Selection, IsAllPositive;
    var out := Selection([good, bad], 1);
    SelectionIsBalanced([good, bad], 1);
    TotalSizes(out);
    PositiveComesFirst(good, bad);
    AllPositiveByClass(out);
  }

  lemma {:induction false} OneBucket(rows: seq<Feedback>, v: string)
    requires forall i | 0 <= i < |rows| :: rows[i].variantId == v
    ensures Bucket(rows, v) == rows
  {
    if rows != [] {
      OneBucket(rows[..|rows| - 1], v);
    }
  }

  lemma PositiveComesFirst(good: Feedback, bad: Feedback)
    requires ClassOf(good) == 0 && ClassOf(bad) == 1
    ensures Sizes([good, bad]) == Share(1, 1, 0)
  {
    assert [good, bad] == [good] + [bad];
    assert [bad] == [bad] + [];
    OfCons(good, [bad], 0);
    OfCons(good, [bad], 1);
    OfCons(good, [bad], 2);
    OfCons(bad, [], 0);
    OfCons(bad, [], 1);
    OfCons(bad, [], 2);
  }
}
