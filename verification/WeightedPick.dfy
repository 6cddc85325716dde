/**
 The weighted choice of a variant (pickWeightedRandom in internal/proxy/handler.go) and the equal weights the
 optimiser promotes with (Promote in internal/optimizer/promoter.go).

 The clock is an input: `nanos` is the nanosecond reading the residue is taken from.
 */
module WeightedPick {
  import opened Common
  import opened StoreTypes

  /** The chosen variant, the zero variant of an empty list, or the run-time panic of a zero divisor. */
  datatype Outcome = Chosen(variant: Variant) | NoVariants | DivideByZero

  // ---------------------------------------------------------------------------
  // Specification
  // ---------------------------------------------------------------------------

  /** The weight of the first `n` variants. */
  function WeightUpTo(vs: seq<Variant>, n: nat): real
    requires n <= |vs|
  {
    if n == 0 then 0.0 else WeightUpTo(vs, n - 1) + vs[n - 1].weight
  }

  /** The running total in thousandths, accumulated as the code does. */
  function Mark(vs: seq<Variant>, n: nat): real
    requires n <= |vs|
  {
    if n == 0 then 0.0 else Mark(vs, n - 1) + vs[n - 1].weight * 1000.0
  }

  /** Go's conversion to an integer, which drops the fraction. */
  function Truncate(x: real): int {
    if x >= 0.0 then x.Floor else -((-x).Floor)
  }

  /** The number of residues the clock is reduced to. */
  function Period(vs: seq<Variant>): int {
    Truncate(WeightUpTo(vs, |vs|) * 1000.0)
  }

  /** The first position from `k` on whose mark is at or past the residue; the last position if none is. */
  function PickFrom(vs: seq<Variant>, r: int, k: nat): (j: nat)
    requires k < |vs|
    ensures k <= j < |vs|
    decreases |vs| - k
  {
    if r as real <= Mark(vs, k + 1) || k == |vs| - 1 then k else PickFrom(vs, r, k + 1)
  }

  function PickWeighted(vs: seq<Variant>, nanos: nat): Outcome {
    if vs == [] then NoVariants
    else if WeightUpTo(vs, |vs|) <= 0.0 then Chosen(vs[0])
    else if Period(vs) == 0 then DivideByZero
    else assert Period(vs) > 0; Chosen(vs[PickFrom(vs, nanos % Period(vs), 0)])
  }

  method PickWeightedRandom(variants: seq<Variant>, nanos: nat) returns (o: Outcome)
    ensures o == PickWeighted(variants, nanos)
  {
    if |variants| == 0 {
      return NoVariants;
    }
    var total := 0.0;
    for i := 0 to |variants|
      invariant total == WeightUpTo(variants, i)
    {
      total := total + variants[i].weight;
    }
    if total <= 0.0 {
      return Chosen(variants[0]);
    }
    var period := Truncate(total * 1000.0);
    if period == 0 {
      return DivideByZero;
    }
    var r := nanos % period;
    var cumulative := 0.0;
    for i := 0 to |variants|
      invariant cumulative == Mark(variants, i)
      invariant i < |variants| ==> PickFrom(variants, r, 0) == PickFrom(variants, r, i)
      invariant i == |variants| ==> PickFrom(variants, r, 0) == i - 1
    {
      cumulative := cumulative + variants[i].weight * 1000.0;
      if r as real <= cumulative {
        return Chosen(variants[i]);
      }
    }
    return Chosen(variants[|variants| - 1]);
  }

  // ---------------------------------------------------------------------------
  // How often each variant is chosen
  // ---------------------------------------------------------------------------

  ghost predicate NonNegative(vs: seq<Variant>) {
    forall i | 0 <= i < |vs| :: vs[i].weight >= 0.0
  }

  lemma {:induction false} MarksAreThousandths(vs: seq<Variant>, n: nat)
    requires n <= |vs|
    ensures Mark(vs, n) == WeightUpTo(vs, n) * 1000.0
  {
    if n > 0 {
      MarksAreThousandths(vs, n - 1);
    }
  }

  lemma {:induction false} MarksGrow(vs: seq<Variant>, m: nat, n: nat)
    requires NonNegative(vs) && m <= n <= |vs|
    ensures 0.0 <= Mark(vs, m) <= Mark(vs, n)
  {
    if n > 0 {
      MarksGrow(vs, if m < n then m else n - 1, n - 1);
    }
  }

  /** A position below `k` is picked exactly when the residue is at or below mark `k`; the fallback never decides. */
  lemma {:induction false} PickedBelow(vs: seq<Variant>, r: nat, j: nat, k: nat)
    requires NonNegative(vs) && j < |vs| && j < k <= |vs|
    requires r as real <= Mark(vs, |vs|)
    ensures r as real <= Mark(vs, PickFrom(vs, r, j) + 1)
    ensures PickFrom(vs, r, j) < k <==> r as real <= Mark(vs, k)
    decreases |vs| - j
  {
    MarksGrow(vs, j + 1, k);
    if r as real > Mark(vs, j + 1) && j < |vs| - 1 {
      if k > j + 1 {
        PickedBelow(vs, r, j + 1, k);
      } else {
        PickedBelow(vs, r, j + 1, |vs|);
      }
    }
  }

  /** The pick's remaining cases: nothing to pick from, and no weight to go by. */
  lemma NoWeightPicksFirst(vs: seq<Variant>, nanos: nat)
    ensures vs == [] ==> PickWeighted(vs, nanos) == NoVariants
    ensures vs != [] && WeightUpTo(vs, |vs|) <= 0.0 ==> PickWeighted(vs, nanos) == Chosen(vs[0])
  {
  }

  lemma {:induction false} PickFromStops(vs: seq<Variant>, r: nat, j: nat, i: nat)
    requires NonNegative(vs) && j <= i < |vs|
    requires r as real <= Mark(vs, i + 1) && (i > j ==> Mark(vs, i) < r as real)
    ensures PickFrom(vs, r, j) == i
    decreases i - j
  {
    if j < i {
      MarksGrow(vs, j + 1, i);
      PickFromStops(vs, r, j + 1, i);
    }
  }

  /**
   The pick: with non-negative weights and a total of a thousandth or more, the clock's residue modulo the whole
   thousandths of the total chooses the variant in whose slice of cumulative thousandths it lies.
   */
  lemma PickOwnsResidue(vs: seq<Variant>, nanos: nat, i: nat)
    requires NonNegative(vs) && i < |vs| && WeightUpTo(vs, |vs|) * 1000.0 >= 1.0
    ensures Period(vs) >= 1 && Period(vs) as real <= WeightUpTo(vs, |vs|) * 1000.0 < Period(vs) as real + 1.0
    ensures WeightUpTo(vs, i + 1) == WeightUpTo(vs, i) + vs[i].weight && WeightUpTo(vs, 0) == 0.0
    ensures var r := (nanos % Period(vs)) as real;
            r <= WeightUpTo(vs, i + 1) * 1000.0 && (i > 0 ==> WeightUpTo(vs, i) * 1000.0 < r)
            ==> PickWeighted(vs, nanos) == Chosen(vs[i])
  {
    hide PickFrom;
    PeriodIsLastMark(vs);
    MarksAreThousandths(vs, |vs|);
    MarksAreThousandths(vs, i);
    MarksAreThousandths(vs, i + 1);
    var r := nanos % Period(vs);
    if r as real <= Mark(vs, i + 1) && (i > 0 ==> Mark(vs, i) < r as real) {
      PickFromStops(vs, r, 0, i);
    }
  }

  /** How many of the residues 0, ..., m - 1 pick a position below `k`. */
  function CountBelow(vs: seq<Variant>, k: nat, m: nat): nat
    requires vs != []
  {
    if m == 0 then 0
    else CountBelow(vs, k, m - 1) + if PickFrom(vs, m - 1, 0) < k then 1 else 0
  }

  /** How many of the residues 0, ..., m - 1 pick exactly position `i`. */
  function Hits(vs: seq<Variant>, i: nat, m: nat): nat
    requires vs != []
  {
    if m == 0 then 0
    else Hits(vs, i, m - 1) + if PickFrom(vs, m - 1, 0) == i then 1 else 0
  }

  lemma {:induction false} HitsAreDifferences(vs: seq<Variant>, i: nat, m: nat)
    requires vs != []
    ensures CountBelow(vs, i + 1, m) == CountBelow(vs, i, m) + Hits(vs, i, m)
  {
    if m > 0 {
      HitsAreDifferences(vs, i, m - 1);
    }
  }

  lemma {:induction false} CountIsMark(vs: seq<Variant>, k: nat, m: nat)
    requires vs != [] && NonNegative(vs) && 0 < k <= |vs|
    requires m <= Mark(vs, |vs|).Floor
    ensures CountBelow(vs, k, m) == Min(m, Mark(vs, k).Floor + 1)
  {
    MarksGrow(vs, 0, k);
    if m > 0 {
      CountIsMark(vs, k, m - 1);
      PickedBelow(vs, m - 1, 0, k);
    }
  }

  lemma {:induction false} NothingBelowZero(vs: seq<Variant>, m: nat)
    requires vs != []
    ensures CountBelow(vs, 0, m) == 0
  {
    if m > 0 {
      NothingBelowZero(vs, m - 1);
    }
  }

  lemma PeriodIsLastMark(vs: seq<Variant>)
    requires NonNegative(vs)
    ensures Period(vs) == Mark(vs, |vs|).Floor >= 0
  {
    MarksAreThousandths(vs, |vs|);
    MarksGrow(vs, 0, |vs|);
  }

  /**
   Over one full period of residues, each variant is chosen for its weight in thousandths of the residues, give or
   take two, and give or take one when the total is a whole number of thousandths.
   */
  lemma PicksAreProportional(vs: seq<Variant>, i: nat)
    requires NonNegative(vs) && Period(vs) >= 1 && i < |vs|
    ensures var k, share := Hits(vs, i, Period(vs)) as real, 1000.0 * vs[i].weight;
            && -2.0 <= k - share <= 2.0
            && (Mark(vs, |vs|).Floor as real == Mark(vs, |vs|) ==> -1.0 <= k - share <= 1.0)
  {
    hide Hits, CountBelow, WeightUpTo;
    var p := Period(vs);
    PeriodIsLastMark(vs);
    HitsAreDifferences(vs, i, p);
    CountIsMark(vs, i + 1, p);
    MarksGrow(vs, i, i + 1);
    MarksGrow(vs, i + 1, |vs|);
    MarksGrow(vs, 0, i);
    if i == 0 {
      NothingBelowZero(vs, p);
    } else {
      CountIsMark(vs, i, p);
    }
  }

  /** How many of the `m` clock readings from `start` on serve the variant. */
  function TimesServed(vs: seq<Variant>, v: Variant, start: nat, m: nat): nat {
    if m == 0 then 0
    else TimesServed(vs, v, start, m - 1) + if PickWeighted(vs, start + m - 1) == Chosen(v) then 1 else 0
  }

  lemma SameReadingNextPeriod(vs: seq<Variant>, t: nat)
    requires Period(vs) >= 1
    ensures PickWeighted(vs, t + Period(vs)) == PickWeighted(vs, t)
  {
    hide Period, WeightUpTo, PickFrom;
    OnePeriodOn(t, Period(vs));
  }

  lemma OnePeriodOn(t: nat, p: nat)
    requires p > 0
    ensures (t + p) % p == t % p
  {
    var q, r := t / p, t % p;
    assert t + p == (q + 1) * p + r;
    RemainderIsUnique(t + p, p, q + 1, r);
  }

  lemma RemainderIsUnique(a: int, p: int, q: int, r: int)
    requires p > 0 && 0 <= r < p && a == q * p + r
    ensures a % p == r
  {
    var k := q - a / p;
    assert k * p == a % p - r;
    MultipleLeaps(k, p);
  }

  lemma MultipleLeaps(k: int, p: int)
    requires p > 0
    ensures k >= 1 ==> k * p >= p
    ensures k <= -1 ==> k * p <= -p
  {
    if k >= 1 {
      assert (k - 1) * p >= 0;
    } else if k <= -1 {
      assert (-k - 1) * p >= 0;
    }
  }

  lemma WithinPeriod(t: nat, p: nat)
    requires t < p
    ensures t % p == t
  {
  }

  lemma {:induction false} DropFirstReading(vs: seq<Variant>, v: Variant, start: nat, m: nat)
    requires m > 0
    ensures TimesServed(vs, v, start, m)
            == (if PickWeighted(vs, start) == Chosen(v) then 1 else 0) + TimesServed(vs, v, start + 1, m - 1)
    decreases m
  {
    hide PickWeighted;
    if m > 1 {
      DropFirstReading(vs, v, start, m - 1);
      assert start + 1 + (m - 1) - 1 == start + m - 1;
    }
  }

  /** A whole period serves a variant equally often wherever it starts. */
  lemma {:induction false} PeriodsAreAlike(vs: seq<Variant>, v: Variant, start: nat)
    requires Period(vs) >= 1
    ensures TimesServed(vs, v, start, Period(vs)) == TimesServed(vs, v, 0, Period(vs))
  {
    hide PickWeighted;
    if start > 0 {
      var p := Period(vs);
      PeriodsAreAlike(vs, v, start - 1);
      DropFirstReading(vs, v, start - 1, p);
      SameReadingNextPeriod(vs, start - 1);
      assert start + p - 1 == start - 1 + p;
    }
  }

  lemma {:induction false} ServedIsHit(vs: seq<Variant>, i: nat, m: nat)
    requires i < |vs| && (forall j | 0 <= j < |vs| && j != i :: vs[j] != vs[i])
    requires Period(vs) >= 1 && WeightUpTo(vs, |vs|) > 0.0 && m <= Period(vs)
    ensures TimesServed(vs, vs[i], 0, m) == Hits(vs, i, m)
  {
    hide Period, WeightUpTo, PickFrom;
    if m > 0 {
      ServedIsHit(vs, i, m - 1);
      WithinPeriod(m - 1, Period(vs));
    }
  }

  /**
   Over any block of consecutive clock readings as long as the period, the proxy serves a variant that occurs once in
   the set for its weight in thousandths of them, give or take two, or one when the total is whole.
   */
  lemma ServedInProportion(vs: seq<Variant>, i: nat, start: nat)
    requires NonNegative(vs) && Period(vs) >= 1 && i < |vs| && forall j | 0 <= j < |vs| && j != i :: vs[j] != vs[i]
    ensures var k, share := TimesServed(vs, vs[i], start, Period(vs)) as real, 1000.0 * vs[i].weight;
            && -2.0 <= k - share <= 2.0
            && (Mark(vs, |vs|).Floor as real == Mark(vs, |vs|) ==> -1.0 <= k - share <= 1.0)
  {
    hide TimesServed, Hits;
    PeriodsAreAlike(vs, vs[i], start);
    PositiveTotal(vs);
    ServedIsHit(vs, i, Period(vs));
    PicksAreProportional(vs, i);
  }

  lemma PositiveTotal(vs: seq<Variant>)
    requires Period(vs) >= 1
    ensures WeightUpTo(vs, |vs|) > 0.0
  {
  }

  /** The hits of the first `n` variants together. */
  function TotalHits(vs: seq<Variant>, n: nat, m: nat): nat
    requires vs != []
  {
    if n == 0 then 0 else TotalHits(vs, n - 1, m) + Hits(vs, n - 1, m)
  }

  lemma {:induction false} TotalHitsAreBelow(vs: seq<Variant>, n: nat, m: nat)
    requires vs != []
    ensures TotalHits(vs, n, m) == CountBelow(vs, n, m)
  {
    if n == 0 {
      NothingBelowZero(vs, m);
    } else {
      TotalHitsAreBelow(vs, n - 1, m);
      HitsAreDifferences(vs, n - 1, m);
    }
  }

  /** The counts add up to the period, and every residue is decided by a mark, never by the trailing fallback. */
  lemma PicksCoverPeriod(vs: seq<Variant>, r: nat)
    requires NonNegative(vs) && vs != [] && r < Period(vs)
    ensures TotalHits(vs, |vs|, Period(vs)) == Period(vs)
    ensures r as real <= Mark(vs, PickFrom(vs, r, 0) + 1)
  {
    PeriodIsLastMark(vs);
    TotalHitsAreBelow(vs, |vs|, Period(vs));
    CountIsMark(vs, |vs|, Period(vs));
    PickedBelow(vs, r, 0, |vs|);
  }

  /**
   For any weights the divisor is zero exactly when the total weight is positive but under a thousandth; then the call
   panics whatever the clock reads, and otherwise it never does.
   */
  lemma PanicsExactlyWhenTiny(vs: seq<Variant>, nanos: nat)
    ensures PickWeighted(vs, nanos) == DivideByZero <==> 0.0 < WeightUpTo(vs, |vs|) < 0.001
  {
  }

  /** A single variant of small weight is enough. */
  lemma TinyWeightPanics(id: string, prompt: string, nanos: nat)
    ensures PickWeighted([Variant(id, prompt, 0.0005)], nanos) == DivideByZero
  {
    var vs := [Variant(id, prompt, 0.0005)];
    assert WeightUpTo(vs, 1) == WeightUpTo(vs, 0) + vs[0].weight;
    PanicsExactlyWhenTiny(vs, nanos);
  }

  // ---------------------------------------------------------------------------
  // Promotion
  // ---------------------------------------------------------------------------

  /** The variants `Promote` builds: every prompt, identified by its hash, with an equal share of one. */
  function Promoted(hash: string -> string, prompts: seq<string>): (vs: seq<Variant>)
    ensures |vs| == |prompts|
  {
    seq(|prompts|, i requires 0 <= i < |prompts| => Variant(hash(prompts[i]), prompts[i], 1.0 / |prompts| as real))
  }

  /** An empty result promotes nothing. */
  method Promote(hash: string -> string, prompts: seq<string>) returns (variants: seq<Variant>)
    ensures variants == Promoted(hash, prompts)
    ensures |variants| == |prompts|
    ensures forall i | 0 <= i < |prompts| ::
              variants[i] == Variant(hash(prompts[i]), prompts[i], 1.0 / |prompts| as real)
  {
    variants := [];
    if |prompts| == 0 {
      return;
    }
    var weight := 1.0 / |prompts| as real;
    for i := 0 to |prompts|
      invariant |variants| == i
      invariant variants == Promoted(hash, prompts)[..i]
    {
      variants := variants + [Variant(hash(prompts[i]), prompts[i], weight)];
    }
  }

  lemma {:induction false} EqualMarks(vs: seq<Variant>, w: real, n: nat)
    requires n <= |vs| && forall i | 0 <= i < |vs| :: vs[i].weight == w
    ensures WeightUpTo(vs, n) == n as real * w
  {
    if n > 0 {
      EqualMarks(vs, w, n - 1);
      assert n as real == (n - 1) as real + 1.0;
      assert n as real * w == (n - 1) as real * w + w;
    }
  }

  lemma EqualSharesAreFair(vs: seq<Variant>, w: real, nanos: nat, i: nat)
    requires i < |vs| && w >= 0.0 && |vs| as real * w == 1.0
    requires forall j | 0 <= j < |vs| :: vs[j].weight == w
    ensures Period(vs) == 1000 && PickWeighted(vs, nanos).Chosen?
    ensures -1.0 <= Hits(vs, i, 1000) as real - 1000.0 * w <= 1.0
  {
    hide Hits;
    EqualMarks(vs, w, |vs|);
    MarksAreThousandths(vs, |vs|);
    PicksAreProportional(vs, i);
  }

  lemma Reciprocal(n: real)
    requires n > 0.0
    ensures n * (1.0 / n) == 1.0 && 1.0 / n > 0.0
  {
  }

  /** Promoted sets have a period of one thousand, so they never panic and every variant gets its share give or take one. */
  lemma PromotedPicksAreFair(hash: string -> string, prompts: seq<string>, nanos: nat, i: nat)
    requires i < |prompts|
    ensures var vs := Promoted(hash, prompts);
            && vs[i].id == hash(prompts[i]) && vs[i].systemPrompt == prompts[i]
            && Period(vs) == 1000
            && PickWeighted(vs, nanos).Chosen?
            && -1.0 <= Hits(vs, i, 1000) as real - 1000.0 * (1.0 / |prompts| as real) <= 1.0
  {
    Reciprocal(|prompts| as real);
    EqualSharesAreFair(Promoted(hash, prompts), 1.0 / |prompts| as real, nanos, i);
  }
}
