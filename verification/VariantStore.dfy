/**
 The two-tier variant store: Redis as an expiring cache (internal/store/redis/variant.go), Postgres as the durable
 table (internal/store/pg/store.go), and the layered store that reads through and writes both
 (internal/store/layered/store.go). Every operation here runs without interference; VariantProtocol interleaves them.

 Clock readings are arguments, in nanoseconds. Whether a command succeeds is an argument too; a read of Redis also fails
 when it outlasts its own timeout, which the re-warm after it is not subject to.
 */
module VariantStore {
  import opened Common
  import opened StoreTypes

  /** `activeUntil` is in whole seconds, as in the JSON the cache holds. */
  datatype VariantSet = VariantSet(variants: seq<Variant>, activeUntil: int)

  datatype Entry = Entry(value: VariantSet, expiresAt: Option<int>)

  datatype Row = Row(systemPrompt: string, weight: real, activeUntil: int, retired: bool)

  /** The variants table by primary key. */
  type Table = map<(SessionRef, string), Row>

  function UnixSeconds(t: int): int { t / SECOND }

  // ---------------------------------------------------------------------------
  // Redis
  // ---------------------------------------------------------------------------

  /** The entry a cache write leaves: a positive ttl expires, any other stays. */
  function CacheEntry(variants: seq<Variant>, ttl: int, now: int): Entry {
    Entry(VariantSet(variants, UnixSeconds(now + ttl)), if ttl > 0 then Some(now + ttl) else None)
  }

  function CacheLookup(cache: map<SessionRef, Entry>, k: SessionRef, now: int): Option<VariantSet> {
    if k !in cache then None
    else
      var e := cache[k];
      if e.expiresAt.Some? && e.expiresAt.value <= now then None
      else if e.value.activeUntil > 0 && UnixSeconds(now) > e.value.activeUntil then None
      else Some(e.value)
  }

  /**
   An entry written with a positive ttl is served until exactly that ttl has passed; one written without is never
   dropped by Redis but served only to the end of the second it names.
   */
  lemma EntryServedExactlyWhileActive(
    cache: map<SessionRef, Entry>, k: SessionRef, variants: seq<Variant>, ttl: int, now: int, later: int)
    requires now + ttl >= SECOND
    ensures var hit := CacheLookup(cache[k := CacheEntry(variants, ttl, now)], k, later);
            && (hit.Some? <==> if ttl > 0 then later < now + ttl else UnixSeconds(later) <= UnixSeconds(now + ttl))
            && (hit.Some? ==> hit.value.variants == variants && hit.value.activeUntil == (now + ttl) / SECOND)
  {
    SecondsMonotone(now + ttl, now + ttl);
    if later < now + ttl {
      SecondsMonotone(later, now + ttl);
    }
  }

  lemma SecondsMonotone(a: int, b: int)
    requires a <= b
    ensures UnixSeconds(a) <= UnixSeconds(b)
    ensures b >= SECOND ==> UnixSeconds(b) > 0
  {
  }

  class RedisVariants {
    var cache: map<SessionRef, Entry>

    constructor ()
      ensures cache == map[]
    {
      cache := map[];
    }

    method GetVariant(k: SessionRef, now: int) returns (vs: Option<VariantSet>)
      ensures vs == CacheLookup(cache, k, now)
    {
      if k !in cache {
        return None;
      }
      var e := cache[k];
      if e.expiresAt.Some? && e.expiresAt.value <= now {
        return None;
      }
      if e.value.activeUntil > 0 && UnixSeconds(now) > e.value.activeUntil {
        return None;
      }
      return Some(e.value);
    }

    method SetVariants(k: SessionRef, variants: seq<Variant>, ttl: int, now: int)
      modifies this
      ensures cache == old(cache)[k := CacheEntry(variants, ttl, now)]
    {
      cache := cache[k := CacheEntry(variants, ttl, now)];
    }

    /** The janitor's eviction of one session. */
    method DeleteVariants(k: SessionRef)
      modifies this
      ensures cache == old(cache) - {k}
    {
      cache := cache - {k};
    }
  }

  // ---------------------------------------------------------------------------
  // Postgres
  // ---------------------------------------------------------------------------

  function RowOf(v: Variant, until: int): Row {
    Row(v.systemPrompt, v.weight, until, false)
  }

  function VariantOf(id: string, r: Row): Variant {
    Variant(id, r.systemPrompt, r.weight)
  }

  function Retire(table: Table, k: SessionRef): Table {
    map p | p in table :: if p.0 == k then table[p].(retired := true) else table[p]
  }

  function UpsertAll(table: Table, k: SessionRef, vs: seq<Variant>, until: int): Table {
    if vs == [] then table
    else UpsertAll(table, k, vs[..|vs| - 1], until)[(k, vs[|vs| - 1].id) := RowOf(vs[|vs| - 1], until)]
  }

  /** The committed effect of the SetVariants transaction: retire everything of the session, then upsert the new set. */
  function Replace(table: Table, k: SessionRef, vs: seq<Variant>, until: int): Table {
    UpsertAll(Retire(table, k), k, vs, until)
  }

  function ActiveKeys(table: Table, k: SessionRef): set<(SessionRef, string)> {
    set p | p in table && p.0 == k && !table[p].retired
  }

  /** The session's variants that are not retired; the expiry column plays no part. */
  function Active(table: Table, k: SessionRef): set<Variant> {
    Variants(table, ActiveKeys(table, k))
  }

  function Variants(table: Table, keys: set<(SessionRef, string)>): set<Variant>
    requires keys <= table.Keys
  {
    set p | p in keys :: VariantOf(p.1, table[p])
  }

  lemma OneMoreVariant(table: Table, k: SessionRef, keys: set<(SessionRef, string)>, p: (SessionRef, string))
    requires keys <= table.Keys && p in table && p !in keys
    requires p.0 == k && forall q | q in keys :: q.0 == k
    ensures VariantOf(p.1, table[p]) !in Variants(table, keys)
    ensures Variants(table, keys + {p}) == Variants(table, keys) + {VariantOf(p.1, table[p])}
  {
  }

  /** What GetActiveVariants returns: the active rows in some order, with the latest expiry among them. */
  ghost predicate IsActiveResult(table: Table, k: SessionRef, result: Option<VariantSet>) {
    match result
    case None => Active(table, k) == {}
    case Some(vs) =>
      && Active(table, k) != {}
      && multiset(vs.variants) == multiset(Active(table, k))
      && exists until: int :: vs.activeUntil == UnixSeconds(until) && IsLatest(table, ActiveKeys(table, k), until)
  }

  /** The latest expiry among the rows, where the zero time counts as one. */
  ghost predicate IsLatest(table: Table, keys: set<(SessionRef, string)>, until: int) {
    && keys <= table.Keys
    && 0 <= until
    && (forall p | p in keys :: table[p].activeUntil <= until)
    && (until == 0 || exists p :: p in keys && table[p].activeUntil == until)
  }

  lemma OneMoreRow(
    table: Table, k: SessionRef, variants: seq<Variant>, keys: set<(SessionRef, string)>, p: (SessionRef, string),
    until: int)
    requires keys <= table.Keys && p in table && p !in keys
    requires p.0 == k && forall q | q in keys :: q.0 == k
    requires multiset(variants) == multiset(Variants(table, keys)) && IsLatest(table, keys, until)
    ensures multiset(variants + [VariantOf(p.1, table[p])]) == multiset(Variants(table, keys + {p}))
    ensures IsLatest(table, keys + {p}, Max(until, table[p].activeUntil))
  {
    OneMoreVariant(table, k, keys, p);
  }

  lemma RowsFound(table: Table, k: SessionRef, variants: seq<Variant>, until: int)
    requires multiset(variants) == multiset(Active(table, k)) && IsLatest(table, ActiveKeys(table, k), until)
    ensures IsActiveResult(table, k,
              if |variants| == 0 then None else Some(VariantSet(variants, UnixSeconds(until))))
  {
    if variants != [] {
      assert variants[0] in multiset(variants);
    } else {
      assert |multiset(Active(table, k))| == 0;
      assert forall v :: v in Active(table, k) ==> v in multiset(Active(table, k));
    }
  }

  class PgVariants {
    var table: Table

    constructor ()
      ensures table == map[]
    {
      table := map[];
    }

    method SetVariants(k: SessionRef, variants: seq<Variant>, until: int)
      modifies this
      ensures table == Replace(old(table), k, variants, until)
    {
      table := map p | p in table :: if p.0 == k then table[p].(retired := true) else table[p];
      ghost var retired := table;
      for i := 0 to |variants|
        invariant table == UpsertAll(retired, k, variants[..i], until)
      {
        assert variants[..i + 1][..i] == variants[..i];
        var v := variants[i];
        table := table[(k, v.id) := Row(v.systemPrompt, v.weight, until, false)];
      }
      assert variants[..|variants|] == variants;
    }

    method GetActiveVariants(k: SessionRef) returns (result: Option<VariantSet>)
      ensures IsActiveResult(table, k, result)
    {
      var todo := ActiveKeys(table, k);
      var variants: seq<Variant> := [];
      var until := 0;
      ghost var done: set<(SessionRef, string)> := {};
      while todo != {}
        invariant done !! todo && done + todo == ActiveKeys(table, k)
        invariant multiset(variants) == multiset(Variants(table, done))
        invariant IsLatest(table, done, until)
        decreases todo
      {
        var p :| p in todo;
        OneMoreRow(table, k, variants, done, p, until);
        variants := variants + [VariantOf(p.1, table[p])];
        until := Max(until, table[p].activeUntil);
        todo, done := todo - {p}, done + {p};
      }
      assert done == ActiveKeys(table, k);
      RowsFound(table, k, variants, until);
      if |variants| == 0 {
        return None;
      }
      return Some(VariantSet(variants, UnixSeconds(until)));
    }
  }

  // ---------------------------------------------------------------------------
  // What the transaction does
  // ---------------------------------------------------------------------------

  ghost predicate DistinctIds(vs: seq<Variant>) {
    forall i, j | 0 <= i < j < |vs| :: vs[i].id != vs[j].id
  }

  /** The last of the variants that carry an id. */
  ghost predicate LastWith(vs: seq<Variant>, i: int) {
    0 <= i < |vs| && forall j | i < j < |vs| :: vs[j].id != vs[i].id
  }

  /** After the upserts a row of the list is the last variant with its id ... */
  lemma {:induction false} UpsertedRow(table: Table, k: SessionRef, vs: seq<Variant>, until: int, i: nat)
    requires LastWith(vs, i)
    ensures (k, vs[i].id) in UpsertAll(table, k, vs, until)
    ensures UpsertAll(table, k, vs, until)[(k, vs[i].id)] == RowOf(vs[i], until)
  {
    var n := |vs| - 1;
    if i < n {
      assert vs[n].id != vs[i].id;
      assert LastWith(vs[..n], i);
      UpsertedRow(table, k, vs[..n], until, i);
    }
  }

  /** ... and any other row is what was there before. */
  lemma {:induction false} UntouchedRow(table: Table, k: SessionRef, vs: seq<Variant>, until: int, p: (SessionRef, string))
    requires p.0 != k || forall i | 0 <= i < |vs| :: vs[i].id != p.1
    ensures p in UpsertAll(table, k, vs, until) <==> p in table
    ensures p in table ==> UpsertAll(table, k, vs, until)[p] == table[p]
  {
    if vs != [] {
      var n := |vs| - 1;
      assert p != (k, vs[n].id);
      UntouchedRow(table, k, vs[..n], until, p);
    }
  }

  lemma {:induction false} RowsRemain(table: Table, k: SessionRef, vs: seq<Variant>, until: int)
    ensures table.Keys <= UpsertAll(table, k, vs, until).Keys
  {
    if vs != [] {
      RowsRemain(table, k, vs[..|vs| - 1], until);
    }
  }

  /** Whatever the list, exactly its last variant per id is active afterwards, expiring together. */
  lemma ReplaceActivates(table: Table, k: SessionRef, vs: seq<Variant>, until: int)
    ensures forall v :: v in Active(Replace(table, k, vs, until), k) <==> exists i :: LastWith(vs, i) && vs[i] == v
    ensures forall p | p in ActiveKeys(Replace(table, k, vs, until), k) ::
              Replace(table, k, vs, until)[p].activeUntil == until
  {
    var retired, after := Retire(table, k), Replace(table, k, vs, until);
    forall p | p in ActiveKeys(after, k)
      ensures after[p].activeUntil == until
      ensures exists i :: LastWith(vs, i) && vs[i] == VariantOf(p.1, after[p])
    {
      if forall i | 0 <= i < |vs| :: vs[i].id != p.1 {
        UntouchedRow(retired, k, vs, until, p);
        assert false;
      } else {
        var m :| 0 <= m < |vs| && vs[m].id == p.1;
        var i := LastOccurrence(vs, m);
        UpsertedRow(retired, k, vs, until, i);
        assert p == (k, vs[i].id);
        assert vs[i] == VariantOf(p.1, after[p]);
      }
    }
    forall i | LastWith(vs, i)
      ensures vs[i] in Active(after, k)
    {
      UpsertedRow(retired, k, vs, until, i);
      var p := (k, vs[i].id);
      assert p in ActiveKeys(after, k);
      assert VariantOf(p.1, after[p]) == vs[i];
    }
  }

  lemma {:induction false} LastOccurrence(vs: seq<Variant>, m: nat) returns (i: nat)
    requires m < |vs|
    ensures LastWith(vs, i) && vs[i].id == vs[m].id
    decreases |vs| - m
  {
    if j :| m < j < |vs| && vs[j].id == vs[m].id {
      i := LastOccurrence(vs, j);
    } else {
      i := m;
    }
  }

  /** Other sessions' rows are untouched, and no row ever disappears. */
  lemma ReplaceIsLocal(table: Table, k: SessionRef, vs: seq<Variant>, until: int, other: SessionRef)
    requires other != k
    ensures forall p: (SessionRef, string) | p.0 == other :: p in Replace(table, k, vs, until) <==> p in table
    ensures forall p | p in table && p.0 == other :: Replace(table, k, vs, until)[p] == table[p]
    ensures table.Keys <= Replace(table, k, vs, until).Keys
    ensures Active(Replace(table, k, vs, until), other) == Active(table, other)
  {
    var after := Replace(table, k, vs, until);
    forall p: (SessionRef, string)
      ensures p.0 == other ==> (p in after <==> p in table)
      ensures p.0 == other && p in table ==> after[p] == table[p]
    {
      if p.0 == other {
        UntouchedRow(Retire(table, k), k, vs, until, p);
      }
    }
    RowsRemain(Retire(table, k), k, vs, until);
    assert ActiveKeys(after, other) == ActiveKeys(table, other);
  }

  lemma {:induction false} DistinctMultiset(vs: seq<Variant>)
    requires DistinctIds(vs)
    ensures multiset(vs) == multiset(set v | v in vs)
  {
    if vs != [] {
      var n := |vs| - 1;
      DistinctMultiset(vs[..n]);
      assert vs == vs[..n] + [vs[n]];
      assert (set v | v in vs) == (set v | v in vs[..n]) + {vs[n]};
      assert vs[n] !in vs[..n];
    }
  }

  lemma ReplaceDistinct(table: Table, k: SessionRef, vs: seq<Variant>, until: int)
    requires DistinctIds(vs)
    ensures Active(Replace(table, k, vs, until), k) == set v | v in vs
    ensures multiset(Active(Replace(table, k, vs, until), k)) == multiset(vs)
  {
    ReplaceActivates(table, k, vs, until);
    DistinctMultiset(vs);
    forall v
      ensures v in Active(Replace(table, k, vs, until), k) <==> v in vs
    {
      if v in vs {
        var i :| 0 <= i < |vs| && vs[i] == v;
        assert LastWith(vs, i);
      }
    }
  }

  /** The table gives back exactly the list that was written if and only if the ids in the list are pairwise distinct. */
  lemma TableKeepsListIffDistinct(table: Table, k: SessionRef, vs: seq<Variant>, until: int)
    ensures multiset(Active(Replace(table, k, vs, until), k)) == multiset(vs) <==> DistinctIds(vs)
  {
    var after := Replace(table, k, vs, until);
    if DistinctIds(vs) {
      ReplaceDistinct(table, k, vs, until);
    } else {
      var i, j :| 0 <= i < j < |vs| && vs[i].id == vs[j].id;
      OneVariantPerId(after, k, vs[i], vs[j]);
      assert vs[i] in multiset(vs) && vs[j] in multiset(vs);
      if vs[i] == vs[j] {
        TwiceInMultiset(vs, i, j);
      }
    }
  }

  lemma OneVariantPerId(table: Table, k: SessionRef, a: Variant, b: Variant)
    requires a.id == b.id
    ensures a in multiset(Active(table, k)) && b in multiset(Active(table, k)) ==> a == b
    ensures multiset(Active(table, k))[a] <= 1
  {
  }

  lemma TwiceInMultiset(vs: seq<Variant>, i: nat, j: nat)
    requires i < j < |vs| && vs[i] == vs[j]
    ensures multiset(vs)[vs[i]] >= 2
  {
    assert vs == vs[..j] + vs[j..];
    assert vs[..j][i] in multiset(vs[..j]);
    assert vs[j..][0] in multiset(vs[j..]);
  }

  // ---------------------------------------------------------------------------
  // Coherence
  // ---------------------------------------------------------------------------

  /**
   The table holds the latest set of every session that has one, and the cache holds nothing else. `latest` records
   what SetVariants was last given.
   */
  ghost predicate Coherent(cache: map<SessionRef, Entry>, table: Table, latest: map<SessionRef, seq<Variant>>) {
    && (forall k | k in latest :: latest[k] != [] && multiset(Active(table, k)) == multiset(latest[k]))
    && (forall k | k !in latest :: Active(table, k) == {})
    && (forall k | k in cache :: k in latest && multiset(cache[k].value.variants) == multiset(latest[k]))
  }

  lemma NothingWrittenIsCoherent()
    ensures Coherent(map[], map[], map[])
  {
  }

  /** A write of a usable list brings both tiers to it, and leaves every other session as it was. */
  lemma WriteKeepsCoherence(
    cache: map<SessionRef, Entry>, table: Table, latest: map<SessionRef, seq<Variant>>,
    k: SessionRef, vs: seq<Variant>, entry: Entry, until: int)
    requires Coherent(cache, table, latest) && vs != [] && DistinctIds(vs) && entry.value.variants == vs
    ensures Coherent(cache[k := entry], Replace(table, k, vs, until), latest[k := vs])
  {
    ReplaceDistinct(table, k, vs, until);
    forall other | other != k
      ensures Active(Replace(table, k, vs, until), other) == Active(table, other)
    {
      ReplaceIsLocal(table, k, vs, until, other);
    }
  }

  /** What a session should see: its latest set as a multiset of id, prompt and weight, or nothing. */
  ghost predicate Answers(latest: map<SessionRef, seq<Variant>>, k: SessionRef, vs: Option<VariantSet>) {
    if k in latest then vs.Some? && multiset(vs.value.variants) == multiset(latest[k]) else vs == None
  }

  lemma CacheHitAnswers(
    cache: map<SessionRef, Entry>, table: Table, latest: map<SessionRef, seq<Variant>>, k: SessionRef, now: int)
    requires Coherent(cache, table, latest) && CacheLookup(cache, k, now).Some?
    ensures Answers(latest, k, CacheLookup(cache, k, now))
  {
  }

  lemma TableReadAnswers(
    cache: map<SessionRef, Entry>, table: Table, latest: map<SessionRef, seq<Variant>>, k: SessionRef,
    result: Option<VariantSet>)
    requires Coherent(cache, table, latest) && IsActiveResult(table, k, result)
    ensures Answers(latest, k, result)
  {
    assert k in latest ==> |multiset(latest[k])| > 0;
  }

  lemma RefillKeepsCoherence(
    cache: map<SessionRef, Entry>, table: Table, latest: map<SessionRef, seq<Variant>>, k: SessionRef, entry: Entry)
    requires Coherent(cache, table, latest)
    requires k in latest && multiset(entry.value.variants) == multiset(latest[k])
    ensures Coherent(cache[k := entry], table, latest)
  {
  }

  // ---------------------------------------------------------------------------
  // The layered operations on the two tiers, and whole runs of them
  // ---------------------------------------------------------------------------

  /** The rest of a set's active time, but at least a minute. */
  function RewarmTtl(activeUntil: int, now: int): int {
    Max(activeUntil * SECOND - now, MINUTE)
  }

  datatype Tiers = Tiers(cache: map<SessionRef, Entry>, table: Table)

  /**
   One operation; `readOk` and `warmOk` say whether a read's two Redis commands succeed, and `rows` is the
   order-dependent answer Postgres gives if it gets that far.
   */
  datatype Op =
    | Write(k: SessionRef, variants: seq<Variant>, ttl: int, now: int, later: int)
    | Read(k: SessionRef, readOk: bool, warmOk: bool, now: int, rows: Option<VariantSet>)
    | Evict(k: SessionRef)
    | LoseRedis

  predicate CacheHit(s: Tiers, k: SessionRef, readOk: bool, now: int) {
    readOk && CacheLookup(s.cache, k, now).Some?
  }

  function ReadResult(s: Tiers, k: SessionRef, readOk: bool, now: int, rows: Option<VariantSet>): Option<VariantSet> {
    if CacheHit(s, k, readOk, now) then CacheLookup(s.cache, k, now) else rows
  }

  function After(s: Tiers, op: Op): Tiers {
    match op
    case Write(k, vs, ttl, now, later) =>
      Tiers(s.cache[k := CacheEntry(vs, ttl, now)], Replace(s.table, k, vs, later + ttl))
    case Read(k, readOk, warmOk, now, rows) =>
      if CacheHit(s, k, readOk, now) || rows == None || !warmOk then s
      else s.(cache := s.cache[k := CacheEntry(rows.value.variants, RewarmTtl(rows.value.activeUntil, now), now)])
    case Evict(k) => s.(cache := s.cache - {k})
    case LoseRedis => s.(cache := map[])
  }

  function AfterAll(ops: seq<Op>): Tiers {
    if ops == [] then Tiers(map[], map[]) else After(AfterAll(ops[..|ops| - 1]), ops[|ops| - 1])
  }

  /** What each session was last given. */
  function LatestOf(ops: seq<Op>): map<SessionRef, seq<Variant>> {
    if ops == [] then map[] else LatestAfter(LatestOf(ops[..|ops| - 1]), ops[|ops| - 1])
  }

  /** Writes give a non-empty list with distinct ids; Postgres answers reads with its active rows, in any order. */
  ghost predicate LegalRun(ops: seq<Op>) {
    ops != [] ==>
      var before := ops[..|ops| - 1];
      LegalRun(before) && LegalOp(AfterAll(before).table, ops[|ops| - 1])
  }

  function LatestAfter(latest: map<SessionRef, seq<Variant>>, op: Op): map<SessionRef, seq<Variant>> {
    if op.Write? then latest[op.k := op.variants] else latest
  }

  ghost predicate LegalOp(table: Table, op: Op) {
    && (op.Write? ==> op.variants != [] && DistinctIds(op.variants))
    && (op.Read? ==> IsActiveResult(table, op.k, op.rows))
  }

  lemma OpKeepsCoherence(s: Tiers, latest: map<SessionRef, seq<Variant>>, op: Op)
    requires Coherent(s.cache, s.table, latest) && LegalOp(s.table, op)
    ensures Coherent(After(s, op).cache, After(s, op).table, LatestAfter(latest, op))
  {
    hide Active, Replace, CacheLookup, IsActiveResult;
    if op.Write? {
      var entry := CacheEntry(op.variants, op.ttl, op.now);
      WriteKeepsCoherence(s.cache, s.table, latest, op.k, op.variants, entry, op.later + op.ttl);
    } else if op.Read? {
      ReadKeepsCoherence(s, latest, op);
    } else if op.Evict? {
      EvictKeepsCoherence(s.cache, s.table, latest, op.k);
    }
  }

  lemma ReadKeepsCoherence(s: Tiers, latest: map<SessionRef, seq<Variant>>, op: Op)
    requires Coherent(s.cache, s.table, latest) && op.Read? && IsActiveResult(s.table, op.k, op.rows)
    ensures Coherent(After(s, op).cache, After(s, op).table, latest)
  {
    TableReadAnswers(s.cache, s.table, latest, op.k, op.rows);
    if op.rows.Some? {
      var vs := op.rows.value;
      var entry := CacheEntry(vs.variants, RewarmTtl(vs.activeUntil, op.now), op.now);
      RefillKeepsCoherence(s.cache, s.table, latest, op.k, entry);
    }
  }

  lemma EvictKeepsCoherence(
    cache: map<SessionRef, Entry>, table: Table, latest: map<SessionRef, seq<Variant>>, k: SessionRef)
    requires Coherent(cache, table, latest)
    ensures Coherent(cache - {k}, table, latest)
  {
  }

  lemma {:induction false} RunsAreCoherent(ops: seq<Op>)
    requires LegalRun(ops)
    ensures Coherent(AfterAll(ops).cache, AfterAll(ops).table, LatestOf(ops))
  {
    if ops == [] {
      NothingWrittenIsCoherent();
    } else {
      var before := ops[..|ops| - 1];
      RunsAreCoherent(before);
      OpKeepsCoherence(AfterAll(before), LatestOf(before), ops[|ops| - 1]);
    }
  }

  /**
   Atomic coherence: after any run of writes, reads, evictions and losses of Redis, at any clock readings, a read
   returns the session's latest set, or nothing if it never had one.
   */
  lemma ReadsReturnLatest(
    ops: seq<Op>, k: SessionRef, readOk: bool, warmOk: bool, now: int, rows: Option<VariantSet>)
    requires LegalRun(ops + [Read(k, readOk, warmOk, now, rows)])
    ensures Answers(LatestOf(ops), k, ReadResult(AfterAll(ops), k, readOk, now, rows))
  {
    var s := AfterAll(ops);
    assert (ops + [Read(k, readOk, warmOk, now, rows)])[..|ops|] == ops;
    RunsAreCoherent(ops);
    if CacheHit(s, k, readOk, now) {
      CacheHitAnswers(s.cache, s.table, LatestOf(ops), k, now);
    } else {
      TableReadAnswers(s.cache, s.table, LatestOf(ops), k, rows);
    }
  }

  // ---------------------------------------------------------------------------
  // Writes that fail
  // ---------------------------------------------------------------------------

  /** SetVariants when either tier may refuse: Redis leaves its entry, the transaction rolls back. */
  function AfterWrite(
    s: Tiers, k: SessionRef, vs: seq<Variant>, ttl: int, now: int, later: int, redisOk: bool, pgOk: bool): Tiers
  {
    Tiers(
      if redisOk then s.cache[k := CacheEntry(vs, ttl, now)] else s.cache,
      if pgOk then Replace(s.table, k, vs, later + ttl) else s.table)
  }

  /** What it takes for a write to leave the tiers coherent, as can be seen before it. */
  ghost predicate WriteTakes(
    s: Tiers, latest: map<SessionRef, seq<Variant>>, k: SessionRef, vs: seq<Variant>, redisOk: bool, pgOk: bool)
  {
    if pgOk then redisOk || k !in s.cache || multiset(s.cache[k].value.variants) == multiset(vs)
    else k in latest && multiset(latest[k]) == multiset(vs)
  }

  /**
   Exactly when a write leaves the tiers coherent with the new set. With the commit, when Redis took it too or held
   nothing else for the session; without the commit, only when the set was the current one already.
   */
  lemma WriteCoherentIff(
    s: Tiers, latest: map<SessionRef, seq<Variant>>, k: SessionRef, vs: seq<Variant>, ttl: int, now: int, later: int,
    redisOk: bool, pgOk: bool)
    requires Coherent(s.cache, s.table, latest) && vs != [] && DistinctIds(vs)
    ensures var s' := AfterWrite(s, k, vs, ttl, now, later, redisOk, pgOk);
            Coherent(s'.cache, s'.table, latest[k := vs]) <==> WriteTakes(s, latest, k, vs, redisOk, pgOk)
  {
    hide Replace, Active;
    var latest' := latest[k := vs];
    if pgOk {
      WriteKeepsCoherence(s.cache, s.table, latest, k, vs, CacheEntry(vs, ttl, now), later + ttl);
      CacheMatters(s.cache[k := CacheEntry(vs, ttl, now)], s.cache, Replace(s.table, k, vs, later + ttl), latest', k);
    } else {
      TableMatters(s.table, latest, k, vs);
    }
  }

  /**
   Exactly when a read after the write, at any clock, sees the new set: a live cache entry answers for itself, and it is
   the old one if Redis refused; otherwise the table answers, with the old set if the transaction failed.
   */
  lemma WriteSeenIff(
    s: Tiers, latest: map<SessionRef, seq<Variant>>, k: SessionRef, vs: seq<Variant>, ttl: int, now: int, later: int,
    redisOk: bool, pgOk: bool, readOk: bool, at: int, rows: Option<VariantSet>)
    requires Coherent(s.cache, s.table, latest) && vs != [] && DistinctIds(vs)
    requires IsActiveResult(AfterWrite(s, k, vs, ttl, now, later, redisOk, pgOk).table, k, rows)
    ensures var s' := AfterWrite(s, k, vs, ttl, now, later, redisOk, pgOk);
            var same := k in latest && multiset(latest[k]) == multiset(vs);
            Answers(latest[k := vs], k, ReadResult(s', k, readOk, at, rows))
            <==> if CacheHit(s', k, readOk, at) then redisOk || same else pgOk || same
  {
    hide Active, Replace;
    var s' := AfterWrite(s, k, vs, ttl, now, later, redisOk, pgOk);
    if CacheHit(s', k, readOk, at) {
      assert CacheLookup(s'.cache, k, at) == Some(s'.cache[k].value);
    } else if pgOk {
      WriteKeepsCoherence(s.cache, s.table, latest, k, vs, CacheEntry(vs, ttl, now), later + ttl);
      TableReadAnswers(s.cache[k := CacheEntry(vs, ttl, now)], s'.table, latest[k := vs], k, rows);
    } else {
      TableReadAnswers(s.cache, s.table, latest, k, rows);
    }
  }

  lemma CacheMatters(
    cache: map<SessionRef, Entry>, cache': map<SessionRef, Entry>, table: Table,
    latest: map<SessionRef, seq<Variant>>, k: SessionRef)
    requires Coherent(cache, table, latest) && k in latest
    requires forall other | other != k ::
               (other in cache' <==> other in cache) && (other in cache ==> cache'[other] == cache[other])
    ensures Coherent(cache', table, latest)
            <==> k !in cache' || multiset(cache'[k].value.variants) == multiset(latest[k])
  {
    hide Active;
  }

  lemma TableMatters(table: Table, latest: map<SessionRef, seq<Variant>>, k: SessionRef, vs: seq<Variant>)
    requires (forall j | j !in latest :: Active(table, j) == {}) && vs != []
    requires forall j | j in latest :: multiset(Active(table, j)) == multiset(latest[j])
    ensures multiset(Active(table, k)) == multiset(vs) <==> k in latest && multiset(latest[k]) == multiset(vs)
  {
    assert vs[0] in multiset(vs);
  }

  // ---------------------------------------------------------------------------
  // What the operations leave behind
  // ---------------------------------------------------------------------------

  /**
   A re-warm: after a miss that Postgres answers, Redis serves the set for what is left of its active time, but at least
   a minute, and not a moment longer.
   */
  lemma RewarmServesRemainingTime(s: Tiers, k: SessionRef, readOk: bool, now: int, vs: VariantSet, at: int)
    requires now >= 0 && !CacheHit(s, k, readOk, now)
    ensures var s' := After(s, Read(k, readOk, true, now, Some(vs)));
            var end := now + Max(vs.activeUntil * SECOND - now, MINUTE);
            && s'.table == s.table
            && (at < end ==> CacheLookup(s'.cache, k, at) == Some(VariantSet(vs.variants, end / SECOND)))
            && (at >= end ==> CacheLookup(s'.cache, k, at) == None)
  {
    var ttl := RewarmTtl(vs.activeUntil, now);
    EntryServedExactlyWhileActive(s.cache, k, vs.variants, ttl, now, at);
  }

  /** A write: Redis serves the new set for its whole ttl, and not a moment longer. */
  lemma WriteServesWholeTtl(
    s: Tiers, k: SessionRef, vs: seq<Variant>, ttl: int, now: int, later: int, pgOk: bool, at: int)
    requires now >= 0 && ttl >= SECOND
    ensures var s' := AfterWrite(s, k, vs, ttl, now, later, true, pgOk);
            && (at < now + ttl ==> CacheLookup(s'.cache, k, at) == Some(VariantSet(vs, (now + ttl) / SECOND)))
            && (at >= now + ttl ==> CacheLookup(s'.cache, k, at) == None)
    ensures After(s, Write(k, vs, ttl, now, later)) == AfterWrite(s, k, vs, ttl, now, later, true, true)
  {
    EntryServedExactlyWhileActive(s.cache, k, vs, ttl, now, at);
  }

  /** Eviction empties one session's cache, losing Redis every session's, and neither touches the table. */
  lemma LossEmptiesCache(s: Tiers, k: SessionRef, other: SessionRef, at: int)
    ensures CacheLookup(After(s, Evict(k)).cache, k, at) == None && CacheLookup(After(s, LoseRedis).cache, k, at) == None
    ensures other != k ==> CacheLookup(After(s, Evict(k)).cache, other, at) == CacheLookup(s.cache, other, at)
    ensures After(s, Evict(k)).table == After(s, LoseRedis).table == s.table
  {
  }

  /** Reads and writes of one session leave what Redis and Postgres hold of another alone. */
  lemma OpIsLocal(s: Tiers, op: Op, other: SessionRef, at: int)
    requires (op.Write? || op.Read?) && other != op.k
    ensures CacheLookup(After(s, op).cache, other, at) == CacheLookup(s.cache, other, at)
    ensures Active(After(s, op).table, other) == Active(s.table, other)
  {
    if op.Write? {
      ReplaceIsLocal(s.table, op.k, op.variants, op.later + op.ttl, other);
    }
  }

  /** Postgres gives a written set back with its expiry, in whole seconds. */
  lemma WrittenSetIsReadBack(table: Table, k: SessionRef, vs: seq<Variant>, until: int, result: Option<VariantSet>)
    requires vs != [] && DistinctIds(vs) && until >= 0 && IsActiveResult(Replace(table, k, vs, until), k, result)
    ensures result.Some? && multiset(result.value.variants) == multiset(vs) && result.value.activeUntil == until / SECOND
  {
    hide Replace;
    var after := Replace(table, k, vs, until);
    ReplaceDistinct(table, k, vs, until);
    ReplaceActivates(table, k, vs, until);
    assert vs[0] in Active(after, k);
    assert ActiveKeys(after, k) != {};
    var p :| p in ActiveKeys(after, k);
    assert after[p].activeUntil == until;
  }

  class LayeredStore {
    const redis: RedisVariants
    const pg: PgVariants?

    ghost function State(): Tiers
      reads this, redis, pg
      requires pg != null
    {
      Tiers(redis.cache, pg.table)
    }

    constructor (redis: RedisVariants, pg: PgVariants?)
      ensures this.redis == redis && this.pg == pg
    {
      this.redis, this.pg := redis, pg;
    }

    /**
     Redis first; on a miss Postgres; on a hit there, re-warm Redis for the rest of the set's active time. A failing
     Postgres query answers like a missing set.
     */
    method GetVariant(k: SessionRef, readOk: bool, pgOk: bool, warmOk: bool, now: int)
      returns (result: Option<VariantSet>)
      modifies redis
      ensures pg != null && CacheHit(old(State()), k, readOk, now) ==>
                result == CacheLookup(redis.cache, k, now) && State() == old(State())
      ensures pg != null && !CacheHit(old(State()), k, readOk, now) && !pgOk ==>
                result == None && State() == old(State())
      ensures pg != null && !CacheHit(old(State()), k, readOk, now) && pgOk ==>
                && IsActiveResult(pg.table, k, result)
                && State() == After(old(State()), Read(k, readOk, warmOk, now, result))
      ensures pg == null ==>
                && result == (if readOk then CacheLookup(redis.cache, k, now) else None)
                && redis.cache == old(redis.cache)
    {
      var vs := None;
      if readOk {
        vs := redis.GetVariant(k, now);
      }
      if vs.Some? {
        return vs;
      }
      if pg == null || !pgOk {
        return None;
      }
      vs := pg.GetActiveVariants(k);
      if vs == None {
        return None;
      }
      var ttl := vs.value.activeUntil * SECOND - now;
      if ttl < MINUTE {
        ttl := MINUTE;
      }
      if warmOk {
        redis.SetVariants(k, vs.value.variants, ttl, now);
      }
      return vs;
    }

    /**
     Both tiers are written, Redis first; `later` is the second reading of the clock. Only the failure of Redis is
     reported.
     */
    method SetVariants(
      k: SessionRef, variants: seq<Variant>, ttl: int, now: int, later: int, redisOk: bool, pgOk: bool)
      returns (ok: bool)
      modifies redis, pg
      ensures ok == redisOk
      ensures redis.cache == if redisOk then old(redis.cache)[k := CacheEntry(variants, ttl, now)] else old(redis.cache)
      ensures pg != null ==> State() == AfterWrite(old(State()), k, variants, ttl, now, later, redisOk, pgOk)
      ensures pg != null && redisOk && pgOk ==> State() == After(old(State()), Write(k, variants, ttl, now, later))
    {
      ok := redisOk;
      if redisOk {
        redis.SetVariants(k, variants, ttl, now);
      }
      if pg != null {
        if pgOk {
          pg.SetVariants(k, variants, later + ttl);
        }
      }
    }
  }
}
