/**
 The two-tier variant store under interference: one writer and any number of readers, interleaved command by command
 (internal/store/layered/store.go: GetVariant and SetVariants), with eviction, loss of Redis and the clock.

 A session's set is compared as the multiset of its variants. `log` and `Origin` are history: they record what was
 committed and who filled the cache, and no step's effect on the table, the cache's contents or its expiry depends on
 them.
 */
module VariantProtocol {
  import opened Common
  import opened StoreTypes
  import opened VariantStore

  type Content = multiset<Variant>

  /** A committed write, and when its variants stop being active. */
  datatype Commit = Commit(content: Content, until: int)

  /** Who filled a cache entry: the writer of commit number `n`, or a reader whose query saw commit number `n`. */
  datatype Origin =
    | ByWriter(n: nat)
    | ByReader(n: nat, measuredAt: int, setAt: int)

  datatype Cached = Cached(content: Content, activeUntil: int, expiresAt: Option<int>, origin: Origin)

  /** The writer between its Redis write and its commit. */
  datatype Writer = Idle | Pending(k: SessionRef, variants: seq<Variant>, ttl: int)

  /** A reader between its steps: after the Redis miss, after the Postgres query, after working out the ttl. */
  datatype Reader =
    | Missed(k: SessionRef)
    | Queried(k: SessionRef, content: Content, activeUntil: int, n: nat)
    | Timed(k: SessionRef, content: Content, activeUntil: int, n: nat, measuredAt: int, ttl: int)

  datatype State = State(
    cache: map<SessionRef, Cached>,
    table: Table,
    now: int,
    writer: Writer,
    readers: map<nat, Reader>,
    log: map<SessionRef, seq<Commit>>)

  datatype Action =
    | WriteRedis(k: SessionRef, variants: seq<Variant>, ttl: int)
    | CommitWrite
    | ReadRedis(reader: nat, k: SessionRef, timedOut: bool)
    | QueryTable(reader: nat)
    | MeasureTtl(reader: nat)
    | Rewarm(reader: nat)
    | EvictKey(k: SessionRef)
    | FlushAll
    | Advance(elapsed: nat)

  const INITIAL := State(map[], map[], 0, Idle, map[], map[])

  function LogOf(s: State, k: SessionRef): seq<Commit> {
    if k in s.log then s.log[k] else []
  }

  predicate Live(s: State, k: SessionRef) {
    k in s.cache
    && (s.cache[k].expiresAt.Some? ==> s.now < s.cache[k].expiresAt.value)
    && (s.cache[k].activeUntil > 0 ==> UnixSeconds(s.now) <= s.cache[k].activeUntil)
  }

  function Filled(content: Content, ttl: int, now: int, origin: Origin): Cached {
    Cached(content, UnixSeconds(now + ttl), if ttl > 0 then Some(now + ttl) else None, origin)
  }

  /** The expiry GetActiveVariants reads off a session's active rows: the latest, if not the zero time. */
  ghost function LatestUntil(table: Table, k: SessionRef): (until: int)
    ensures (exists u: int :: IsLatest(table, ActiveKeys(table, k), u)) ==> IsLatest(table, ActiveKeys(table, k), until)
  {
    if u: int :| IsLatest(table, ActiveKeys(table, k), u) then u else 0
  }

  /** One step; a step that is not enabled changes nothing. */
  ghost function Next(s: State, a: Action): State {
    match a
    case WriteRedis(k, vs, ttl) =>
      if s.writer.Idle? then
        s.(cache := s.cache[k := Filled(multiset(vs), ttl, s.now, ByWriter(|LogOf(s, k)| + 1))],
           writer := Pending(k, vs, ttl))
      else s
    case CommitWrite =>
      if s.writer.Pending? then
        var k, until := s.writer.k, s.now + s.writer.ttl;
        s.(table := Replace(s.table, k, s.writer.variants, until),
           log := s.log[k := LogOf(s, k) + [Commit(multiset(s.writer.variants), until)]],
           writer := Idle)
      else s
    case ReadRedis(r, k, timedOut) =>
      if r in s.readers || (Live(s, k) && !timedOut) then s else s.(readers := s.readers[r := Missed(k)])
    case QueryTable(r) =>
      if r in s.readers && s.readers[r].Missed? then
        var k := s.readers[r].k;
        if Active(s.table, k) == {} then s.(readers := s.readers - {r})
        else s.(readers := s.readers[r :=
                  Queried(k, multiset(Active(s.table, k)), UnixSeconds(LatestUntil(s.table, k)), |LogOf(s, k)|)])
      else s
    case MeasureTtl(r) =>
      if r in s.readers && s.readers[r].Queried? then
        var q := s.readers[r];
        s.(readers := s.readers[r := Timed(q.k, q.content, q.activeUntil, q.n, s.now, RewarmTtl(q.activeUntil, s.now))])
      else s
    case Rewarm(r) =>
      if r in s.readers && s.readers[r].Timed? then
        var q := s.readers[r];
        s.(cache := s.cache[q.k := Filled(q.content, q.ttl, s.now, ByReader(q.n, q.measuredAt, s.now))],
           readers := s.readers - {r})
      else s
    case EvictKey(k) => s.(cache := s.cache - {k})
    case FlushAll => s.(cache := map[])
    case Advance(d) => s.(now := s.now + d)
  }

  /** The writer gives non-empty lists with distinct ids. */
  ghost predicate LegalAction(a: Action) {
    a.WriteRedis? ==> a.variants != [] && DistinctIds(a.variants)
  }

  ghost function Run(actions: seq<Action>): State {
    if actions == [] then INITIAL else Next(Run(actions[..|actions| - 1]), actions[|actions| - 1])
  }

  ghost predicate LegalRun(actions: seq<Action>) {
    forall i | 0 <= i < |actions| :: LegalAction(actions[i])
  }

  // ---------------------------------------------------------------------------
  // The invariant
  // ---------------------------------------------------------------------------

  /** The table holds exactly the last commit of every session, all rows expiring with it. */
  ghost predicate TableIsLastCommit(s: State, k: SessionRef) {
    var log := LogOf(s, k);
    if log == [] then Active(s.table, k) == {}
    else
      && multiset(Active(s.table, k)) == log[|log| - 1].content
      && Active(s.table, k) != {}
      && forall p | p in ActiveKeys(s.table, k) :: s.table[p].activeUntil == log[|log| - 1].until
  }

  /** `content` is what commit number `n` of the session committed. */
  ghost predicate IsCommit(s: State, k: SessionRef, n: nat, content: Content) {
    1 <= n <= |LogOf(s, k)| && content == LogOf(s, k)[n - 1].content
  }

  ghost predicate ReaderOk(s: State, q: Reader) {
    match q
    case Missed(_) => true
    case Queried(k, content, activeUntil, n) =>
      IsCommit(s, k, n, content) && activeUntil == UnixSeconds(Max(LogOf(s, k)[n - 1].until, 0))
    case Timed(k, content, activeUntil, n, measuredAt, ttl) =>
      && IsCommit(s, k, n, content)
      && ttl == RewarmTtl(UnixSeconds(LogOf(s, k)[n - 1].until), measuredAt) && measuredAt <= s.now
  }

  /**
   A writer's entry is its write, committed last or about to be; a reader's entry is some commit, for its remaining
   time.
   */
  ghost predicate CacheOk(s: State, k: SessionRef, e: Cached) {
    match e.origin
    case ByWriter(n) =>
      if s.writer.Pending? && s.writer.k == k
      then n == |LogOf(s, k)| + 1 && e.content == multiset(s.writer.variants)
      else n == |LogOf(s, k)| && IsCommit(s, k, n, e.content)
    case ByReader(n, measuredAt, setAt) =>
      && IsCommit(s, k, n, e.content)
      && measuredAt <= setAt <= s.now
      && e.expiresAt == Some(setAt + RewarmTtl(UnixSeconds(LogOf(s, k)[n - 1].until), measuredAt))
  }

  ghost predicate Inv(s: State) {
    && s.now >= 0
    && (forall k :: TableIsLastCommit(s, k))
    && (forall r | r in s.readers :: ReaderOk(s, s.readers[r]))
    && (forall k | k in s.cache :: CacheOk(s, k, s.cache[k]))
    && (s.writer.Pending? ==> s.writer.variants != [] && DistinctIds(s.writer.variants))
  }

  lemma CommitKeepsTable(s: State)
    requires Inv(s) && s.writer.Pending?
    ensures forall k :: TableIsLastCommit(Next(s, CommitWrite), k)
  {
    hide Active, ActiveKeys, Replace, CacheOk, ReaderOk;
    var k, vs, until := s.writer.k, s.writer.variants, s.now + s.writer.ttl;
    forall other
      ensures TableIsLastCommit(Next(s, CommitWrite), other)
    {
      assert TableIsLastCommit(s, other);
      if other == k {
        CommitInstallsSet(s.table, k, vs, until);
      } else {
        CommitSparesOthers(s.table, k, vs, until, other);
      }
    }
  }

  lemma CommitKeepsCache(s: State, k: SessionRef)
    requires s.writer.Pending? && k in s.cache && CacheOk(s, k, s.cache[k])
    ensures CacheOk(Next(s, CommitWrite), k, s.cache[k])
  {
    hide Replace;
  }

  lemma CommitKeepsReader(s: State, q: Reader)
    requires s.writer.Pending? && ReaderOk(s, q)
    ensures ReaderOk(Next(s, CommitWrite), q)
  {
    hide Replace;
  }

  lemma CommitKeepsInv(s: State)
    requires Inv(s) && s.writer.Pending?
    ensures Inv(Next(s, CommitWrite))
  {
    hide TableIsLastCommit, CacheOk, ReaderOk, Replace;
    CommitKeepsTable(s);
    forall r | r in s.readers
      ensures ReaderOk(Next(s, CommitWrite), s.readers[r])
    {
      CommitKeepsReader(s, s.readers[r]);
    }
    forall k | k in s.cache
      ensures CacheOk(Next(s, CommitWrite), k, s.cache[k])
    {
      CommitKeepsCache(s, k);
    }
  }

  lemma CommitInstallsSet(table: Table, k: SessionRef, vs: seq<Variant>, until: int)
    requires vs != [] && DistinctIds(vs)
    ensures var after := Replace(table, k, vs, until);
            && multiset(Active(after, k)) == multiset(vs)
            && Active(after, k) != {}
            && forall p | p in ActiveKeys(after, k) :: after[p].activeUntil == until
  {
    ReplaceDistinct(table, k, vs, until);
    ReplaceActivates(table, k, vs, until);
    assert vs[0] in Active(Replace(table, k, vs, until), k);
  }

  lemma CommitSparesOthers(table: Table, k: SessionRef, vs: seq<Variant>, until: int, other: SessionRef)
    requires other != k
    ensures var after := Replace(table, k, vs, until);
            && Active(after, other) == Active(table, other)
            && ActiveKeys(after, other) == ActiveKeys(table, other)
            && forall p | p in ActiveKeys(table, other) :: after[p] == table[p]
  {
    ReplaceIsLocal(table, k, vs, until, other);
  }

  /** The rows a query finds all carry the expiry of the last commit. */
  lemma RowsCarryLastCommit(s: State, k: SessionRef)
    requires TableIsLastCommit(s, k) && LogOf(s, k) != []
    ensures LatestUntil(s.table, k) == Max(LogOf(s, k)[|LogOf(s, k)| - 1].until, 0)
  {
    var keys, until := ActiveKeys(s.table, k), LogOf(s, k)[|LogOf(s, k)| - 1].until;
    assert keys != {};
    var p :| p in keys;
    assert s.table[p].activeUntil == until;
    assert IsLatest(s.table, keys, Max(until, 0));
  }

  lemma QueryKeepsInv(s: State, r: nat)
    requires Inv(s)
    ensures Inv(Next(s, QueryTable(r)))
  {
    hide LatestUntil;
    var s' := Next(s, QueryTable(r));
    if r in s.readers && s.readers[r].Missed? {
      var k := s.readers[r].k;
      assert TableIsLastCommit(s, k);
      if LogOf(s, k) != [] {
        RowsCarryLastCommit(s, k);
      }
    }
    SameStores(s, s');
    forall q | q in s'.readers
      ensures ReaderOk(s', s'.readers[q])
    {
      if q != r {
        assert ReaderOk(s, s.readers[q]);
      }
    }
  }

  /** Steps that leave the table, the log and the cache alone leave their share of the invariant alone. */
  lemma SameStores(s: State, s': State)
    requires Inv(s) && s'.table == s.table && s'.log == s.log && s'.cache == s.cache && s'.writer == s.writer
    requires s.now <= s'.now
    ensures forall k :: TableIsLastCommit(s', k)
    ensures forall k | k in s'.cache :: CacheOk(s', k, s'.cache[k])
  {
    forall k
      ensures TableIsLastCommit(s', k)
    {
      assert TableIsLastCommit(s, k);
    }
    forall k | k in s'.cache
      ensures CacheOk(s', k, s'.cache[k])
    {
      assert CacheOk(s, k, s.cache[k]);
    }
  }

  lemma SameReaders(s: State, s': State)
    requires Inv(s) && s'.log == s.log && s.now <= s'.now
    ensures forall r | r in s'.readers && r in s.readers && s'.readers[r] == s.readers[r] :: ReaderOk(s', s'.readers[r])
  {
    forall r | r in s'.readers && r in s.readers && s'.readers[r] == s.readers[r]
      ensures ReaderOk(s', s'.readers[r])
    {
      assert ReaderOk(s, s.readers[r]);
    }
  }

  /** Steps that fill or empty the cache keep the rest. */
  lemma CacheStepKeepsRest(s: State, s': State)
    requires Inv(s) && s'.table == s.table && s'.log == s.log && s'.now == s.now
    ensures forall k :: TableIsLastCommit(s', k)
    ensures forall r | r in s'.readers && r in s.readers && s'.readers[r] == s.readers[r] :: ReaderOk(s', s'.readers[r])
  {
    hide Active, ActiveKeys;
    forall k
      ensures TableIsLastCommit(s', k)
    {
      assert TableIsLastCommit(s, k);
    }
    SameReaders(s, s');
  }

  lemma SameEntry(s: State, s': State, k: SessionRef)
    requires Inv(s) && k in s.cache && k in s'.cache && s'.cache[k] == s.cache[k]
    requires s'.log == s.log && s.now <= s'.now
    requires s'.writer == s.writer || (s.writer.Idle? && s'.writer.Pending? && s'.writer.k != k)
    ensures CacheOk(s', k, s'.cache[k])
  {
    hide TableIsLastCommit, ReaderOk;
    assert CacheOk(s, k, s.cache[k]);
  }

  lemma WriteRedisKeepsInv(s: State, a: Action)
    requires Inv(s) && LegalAction(a) && a.WriteRedis?
    ensures Inv(Next(s, a))
  {
    hide TableIsLastCommit, ReaderOk;
    var s' := Next(s, a);
    CacheStepKeepsRest(s, s');
    forall k | k in s'.cache && (k != a.k || !s.writer.Idle?)
      ensures CacheOk(s', k, s'.cache[k])
    {
      SameEntry(s, s', k);
    }
  }

  lemma RewarmKeepsInv(s: State, r: nat)
    requires Inv(s)
    ensures Inv(Next(s, Rewarm(r)))
  {
    hide TableIsLastCommit, ReaderOk, CacheOk;
    var s' := Next(s, Rewarm(r));
    CacheStepKeepsRest(s, s');
    if r in s.readers && s.readers[r].Timed? {
      RewarmedEntryOk(s, r);
    }
    forall k | k in s'.cache
      ensures CacheOk(s', k, s'.cache[k])
    {
      if k in s.cache && s'.cache[k] == s.cache[k] {
        SameEntry(s, s', k);
      }
    }
  }

  lemma RewarmedEntryOk(s: State, r: nat)
    requires Inv(s) && r in s.readers && s.readers[r].Timed?
    ensures var k, s' := s.readers[r].k, Next(s, Rewarm(r));
            k in s'.cache && CacheOk(s', k, s'.cache[k])
  {
    hide TableIsLastCommit;
    assert ReaderOk(s, s.readers[r]);
  }

  lemma DropKeepsInv(s: State, a: Action)
    requires Inv(s) && (a.EvictKey? || a.FlushAll?)
    ensures Inv(Next(s, a))
  {
    hide TableIsLastCommit, ReaderOk;
    var s' := Next(s, a);
    CacheStepKeepsRest(s, s');
    forall k | k in s'.cache
      ensures CacheOk(s', k, s'.cache[k])
    {
      SameEntry(s, s', k);
    }
  }

  lemma MeasureKeepsInv(s: State, r: nat)
    requires Inv(s)
    ensures Inv(Next(s, MeasureTtl(r)))
  {
    var s' := Next(s, MeasureTtl(r));
    SameStores(s, s');
    SameReaders(s, s');
    if r in s.readers {
      assert ReaderOk(s, s.readers[r]);
      if s.readers[r].Queried? {
        ZeroTimeMeansAMinute(LogOf(s, s.readers[r].k)[s.readers[r].n - 1].until, s.now);
      }
    }
  }

  /** An expiry before the zero time is as good as the zero time: both leave a minute. */
  lemma ZeroTimeMeansAMinute(until: int, now: int)
    requires now >= 0
    ensures RewarmTtl(UnixSeconds(Max(until, 0)), now) == RewarmTtl(UnixSeconds(until), now)
  {
  }

  lemma StepKeepsInv(s: State, a: Action)
    requires Inv(s) && LegalAction(a)
    ensures Inv(Next(s, a))
  {
    hide TableIsLastCommit, CacheOk, Replace, Active, LatestUntil;
    match a
    case WriteRedis(_, _, _) => WriteRedisKeepsInv(s, a);
    case CommitWrite => if s.writer.Pending? { CommitKeepsInv(s); }
    case ReadRedis(_, _, _) => SameStores(s, Next(s, a)); SameReaders(s, Next(s, a));
    case QueryTable(r) => QueryKeepsInv(s, r);
    case MeasureTtl(r) => MeasureKeepsInv(s, r);
    case Rewarm(r) => RewarmKeepsInv(s, r);
    case EvictKey(_) => DropKeepsInv(s, a);
    case FlushAll => DropKeepsInv(s, a);
    case Advance(_) => SameStores(s, Next(s, a)); SameReaders(s, Next(s, a));
  }

  lemma {:induction false} RunKeepsInv(actions: seq<Action>)
    requires LegalRun(actions)
    ensures Inv(Run(actions))
  {
    if actions != [] {
      RunKeepsInv(actions[..|actions| - 1]);
      StepKeepsInv(Run(actions[..|actions| - 1]), actions[|actions| - 1]);
    }
  }

  // ---------------------------------------------------------------------------
  // Whole sets only, and who is to blame for a stale one
  // ---------------------------------------------------------------------------

  /** `content` was passed to SetVariants for `k`, as a whole, at some step of the run. */
  ghost predicate WasWritten(actions: seq<Action>, k: SessionRef, content: Content) {
    exists i :: 0 <= i < |actions| && actions[i].WriteRedis? && actions[i].k == k && multiset(actions[i].variants) == content
  }

  lemma WrittenStays(before: seq<Action>, a: Action, k: SessionRef, content: Content)
    ensures WasWritten(before, k, content) ==> WasWritten(before + [a], k, content)
    ensures a.WriteRedis? && a.k == k && multiset(a.variants) == content ==> WasWritten(before + [a], k, content)
  {
    var actions := before + [a];
    assert actions[|before|] == a;
    if WasWritten(before, k, content) {
      var i :| 0 <= i < |before| && before[i].WriteRedis? && before[i].k == k && multiset(before[i].variants) == content;
      assert actions[i] == before[i];
    }
  }

  /** What a step adds to the log was pending, and what it makes pending is what it writes. */
  lemma StepLogs(s: State, a: Action, k: SessionRef)
    ensures var s' := Next(s, a);
            && (LogOf(s', k) == LogOf(s, k)
                || (s.writer.Pending? && s.writer.k == k && |LogOf(s', k)| == |LogOf(s, k)| + 1
                    && LogOf(s', k)[..|LogOf(s, k)|] == LogOf(s, k)
                    && LogOf(s', k)[|LogOf(s, k)|].content == multiset(s.writer.variants)))
            && (s'.writer == s.writer || s'.writer.Idle?
                || (a.WriteRedis? && s'.writer.k == a.k && s'.writer.variants == a.variants))
  {
    hide Active, Replace;
  }

  /** Everything committed or pending was passed to SetVariants. */
  lemma {:induction false} CommitsWereWritten(actions: seq<Action>, k: SessionRef)
    ensures forall n | 0 <= n < |LogOf(Run(actions), k)| :: WasWritten(actions, k, LogOf(Run(actions), k)[n].content)
    ensures Run(actions).writer.Pending? && Run(actions).writer.k == k ==>
              WasWritten(actions, k, multiset(Run(actions).writer.variants))
  {
    hide Next, WasWritten, LogOf;
    if actions == [] {
      NothingLogged(k);
    } else {
      var before, a := actions[..|actions| - 1], actions[|actions| - 1];
      var s, s' := Run(before), Run(actions);
      assert actions == before + [a];
      CommitsWereWritten(before, k);
      StepLogs(s, a, k);
      forall n | 0 <= n < |LogOf(s', k)|
        ensures WasWritten(actions, k, LogOf(s', k)[n].content)
      {
        WrittenStays(before, a, k, LogOf(s', k)[n].content);
        if n < |LogOf(s, k)| {
          assert LogOf(s', k)[n] == LogOf(s, k)[n];
        }
      }
      if s'.writer.Pending? {
        WrittenStays(before, a, k, multiset(s'.writer.variants));
      }
    }
  }

  lemma NothingLogged(k: SessionRef)
    ensures LogOf(INITIAL, k) == [] && INITIAL.writer.Idle?
  {
  }

  /** In every interleaving the cache holds, for each session, one whole set that was passed to SetVariants: never a mix. */
  lemma CachedSetsAreWhole(actions: seq<Action>, k: SessionRef)
    requires LegalRun(actions) && k in Run(actions).cache
    ensures WasWritten(actions, k, Run(actions).cache[k].content)
  {
    RunKeepsInv(actions);
    CommitsWereWritten(actions, k);
    var s := Run(actions);
    assert CacheOk(s, k, s.cache[k]);
  }

  /**
   While no write of the session is in flight, the cached set is out of date exactly when a reader put it there that had
   queried Postgres before the last commit and found a different set. Its lifetime was then the larger of one minute and
   what was left of the old set's active time when the reader worked it out.
   */
  lemma StaleComesFromSlowReader(actions: seq<Action>, k: SessionRef)
    requires LegalRun(actions)
    requires var s := Run(actions); k in s.cache && !(s.writer.Pending? && s.writer.k == k)
    ensures var s := Run(actions);
            var e, log := s.cache[k], LogOf(s, k);
            e.content != multiset(Active(s.table, k))
            <==> && e.origin.ByReader? && 1 <= e.origin.n < |log|
                 && log[e.origin.n - 1].content != log[|log| - 1].content
    ensures var s := Run(actions);
            var e, log := s.cache[k], LogOf(s, k);
            e.content != multiset(Active(s.table, k)) ==>
              && e.content == log[e.origin.n - 1].content
              && e.origin.measuredAt <= e.origin.setAt <= s.now
              && e.expiresAt == Some(e.origin.setAt
                   + Max(UnixSeconds(log[e.origin.n - 1].until) * SECOND - e.origin.measuredAt, MINUTE))
  {
    hide Run, Active, ActiveKeys, ReaderOk;
    RunKeepsInv(actions);
    var s := Run(actions);
    assert CacheOk(s, k, s.cache[k]) && TableIsLastCommit(s, k);
  }

  // ---------------------------------------------------------------------------
  // When nobody is slow, the cache stays fresh
  // ---------------------------------------------------------------------------

  /** No write of `k` is in flight, the cached set if any is current, and so is whatever a reader holds. */
  ghost predicate Settled(s: State, k: SessionRef) {
    && !(s.writer.Pending? && s.writer.k == k)
    && (k in s.cache ==> s.cache[k].content == multiset(Active(s.table, k)))
    && (forall r | r in s.readers && s.readers[r].k == k && !s.readers[r].Missed? :: s.readers[r].n == |LogOf(s, k)|)
  }

  lemma CommitElsewhereKeepsSettled(s: State, k: SessionRef)
    requires Inv(s) && Settled(s, k) && s.writer.Pending? && s.writer.k != k
    ensures Settled(Next(s, CommitWrite), k)
  {
    hide Active, ActiveKeys, Replace, CacheOk, ReaderOk, TableIsLastCommit;
    CommitSparesOthers(s.table, s.writer.k, s.writer.variants, s.now + s.writer.ttl, k);
  }

  lemma RewarmKeepsSettled(s: State, r: nat, k: SessionRef)
    requires Inv(s) && Settled(s, k)
    ensures Settled(Next(s, Rewarm(r)), k)
  {
    assert TableIsLastCommit(s, k);
    if r in s.readers {
      assert ReaderOk(s, s.readers[r]);
    }
  }

  predicate ReaderStep(a: Action) { a.ReadRedis? || a.QueryTable? || a.MeasureTtl? }

  lemma ReaderStepIsLocal(s: State, a: Action)
    requires ReaderStep(a)
    ensures var s' := Next(s, a);
            && s'.cache == s.cache && s'.table == s.table && s'.log == s.log && s'.writer == s.writer
            && forall r | r in s'.readers && r != a.reader :: r in s.readers && s'.readers[r] == s.readers[r]
  {
    hide Active, Live, LatestUntil, LogOf;
  }

  /** What a reader holds after its step is what it held, or as new as the log. */
  lemma ReaderStepReads(s: State, a: Action)
    requires ReaderStep(a)
    ensures var s' := Next(s, a);
            a.reader in s'.readers && !s'.readers[a.reader].Missed? ==>
              && a.reader in s.readers && s'.readers[a.reader].k == s.readers[a.reader].k
              && s'.readers[a.reader].n
                 == if s.readers[a.reader].Missed? then |LogOf(s, s.readers[a.reader].k)| else s.readers[a.reader].n
  {
    hide Active, Live, LatestUntil, LogOf, RewarmTtl;
  }

  lemma ReaderStepKeepsSettled(s: State, a: Action, k: SessionRef)
    requires Settled(s, k) && ReaderStep(a)
    ensures Settled(Next(s, a), k)
  {
    hide Next, Active, LogOf;
    ReaderStepIsLocal(s, a);
    ReaderStepReads(s, a);
    SameLog(s, Next(s, a), k);
  }

  lemma SameLog(s: State, s': State, k: SessionRef)
    requires s'.log == s.log
    ensures LogOf(s', k) == LogOf(s, k)
  {
  }

  lemma SettledStays(s: State, a: Action, k: SessionRef)
    requires Inv(s) && LegalAction(a) && Settled(s, k)
    requires !(a.WriteRedis? && a.k == k)
    ensures Settled(Next(s, a), k)
  {
    match a
    case WriteRedis(_, _, _) =>
    case CommitWrite => if s.writer.Pending? { CommitElsewhereKeepsSettled(s, k); }
    case ReadRedis(_, _, _) => ReaderStepKeepsSettled(s, a, k);
    case QueryTable(_) => ReaderStepKeepsSettled(s, a, k);
    case MeasureTtl(_) => ReaderStepKeepsSettled(s, a, k);
    case Rewarm(r) => RewarmKeepsSettled(s, r, k);
    case EvictKey(_) =>
    case FlushAll =>
    case Advance(_) =>
  }

  /** From a settled state the cached set stays current through every interleaving that does not write the session. */
  lemma {:induction false} SettledUntilNextWrite(actions: seq<Action>, m: nat, k: SessionRef)
    requires LegalRun(actions) && m <= |actions| && Settled(Run(actions[..m]), k)
    requires forall i | m <= i < |actions| :: !(actions[i].WriteRedis? && actions[i].k == k)
    ensures Settled(Run(actions), k)
    decreases |actions|
  {
    if m == |actions| {
      assert actions[..m] == actions;
    } else {
      var before := actions[..|actions| - 1];
      assert before[..m] == actions[..m];
      RunKeepsInv(before);
      SettledUntilNextWrite(before, m, k);
      SettledStays(Run(before), actions[|actions| - 1], k);
    }
  }

  /**
   A write leaves its session settled when it commits exactly when no reader of the session is past its query and the
   cache, if it holds anything for the session, holds what is being written.
   */
  lemma QuietWriteSettles(s: State, k: SessionRef)
    requires Inv(s) && s.writer.Pending? && s.writer.k == k
    ensures Settled(Next(s, CommitWrite), k)
            <==> && (forall r | r in s.readers && s.readers[r].k == k :: s.readers[r].Missed?)
                 && (k in s.cache ==> s.cache[k].content == multiset(s.writer.variants))
  {
    hide Active, ActiveKeys, Replace, CacheOk;
    var s' := Next(s, CommitWrite);
    CommitInstallsSet(s.table, k, s.writer.variants, s.now + s.writer.ttl);
    assert |LogOf(s', k)| == |LogOf(s, k)| + 1;
    forall r | r in s.readers && s.readers[r].k == k && !s.readers[r].Missed?
      ensures s.readers[r].n != |LogOf(s', k)|
    {
      assert ReaderOk(s, s.readers[r]);
    }
  }

  lemma OneMoreStep(before: seq<Action>, s: State, a: Action) returns (actions: seq<Action>, s': State)
    requires LegalRun(before) && Run(before) == s && LegalAction(a)
    ensures actions == before + [a] && LegalRun(actions) && Run(actions) == s' == Next(s, a)
  {
    actions, s' := before + [a], Next(s, a);
    assert actions[..|before|] == before;
  }

  /** A committed set, gone from the cache. */
  lemma WrittenAndFlushed(k: SessionRef, a: Variant) returns (actions: seq<Action>, s: State)
    ensures LegalRun(actions) && Run(actions) == s
    ensures s.writer.Idle? && s.cache == map[] && s.readers == map[]
    ensures Active(s.table, k) != {} && multiset(Active(s.table, k)) == multiset([a])
  {
    hide Active, Replace;
    actions, s := OneMoreStep([], INITIAL, WriteRedis(k, [a], SECOND));
    CommitInstallsSet(s.table, k, [a], s.now + SECOND);
    actions, s := OneMoreStep(actions, s, CommitWrite);
    actions, s := OneMoreStep(actions, s, FlushAll);
  }

  /** A reader that has read the old set and worked out its ttl, in an otherwise empty cache. */
  lemma SleepingReader(k: SessionRef, a: Variant) returns (actions: seq<Action>, s: State)
    ensures LegalRun(actions) && Run(actions) == s
    ensures s.writer.Idle? && s.cache == map[] && 0 in s.readers && s.readers[0].Timed?
    ensures s.readers[0].k == k && s.readers[0].content == multiset([a])
  {
    hide Active, Replace;
    actions, s := WrittenAndFlushed(k, a);
    actions, s := OneMoreStep(actions, s, ReadRedis(0, k, false));
    actions, s := OneMoreStep(actions, s, QueryTable(0));
    actions, s := OneMoreStep(actions, s, MeasureTtl(0));
  }

  /** The hypothesis is needed: a reader that sleeps across a write leaves the old set in the cache. */
  lemma SlowReaderLeavesStale(k: SessionRef, a: Variant, b: Variant) returns (actions: seq<Action>)
    requires a != b
    ensures LegalRun(actions)
    ensures var s := Run(actions);
            s.writer.Idle? && k in s.cache && s.cache[k].content != multiset(Active(s.table, k))
  {
    hide Active, Replace;
    var s;
    actions, s := SleepingReader(k, a);
    actions, s := OneMoreStep(actions, s, WriteRedis(k, [b], SECOND));
    CommitInstallsSet(s.table, k, [b], s.now + SECOND);
    actions, s := OneMoreStep(actions, s, CommitWrite);
    assert multiset(Active(s.table, k)) == multiset([b]);
    actions, s := OneMoreStep(actions, s, Rewarm(0));
    assert a in s.cache[k].content;
    assert a !in multiset([b]);
  }

  // ---------------------------------------------------------------------------
  // Without interference, the commands are the operations
  // ---------------------------------------------------------------------------

  ghost predicate SameEntryAs(c: Cached, e: Entry) {
    && c.content == multiset(e.value.variants)
    && c.activeUntil == e.value.activeUntil && c.expiresAt == e.expiresAt
  }

  /** The protocol's state is that of the two tiers, but for the order of cached variants. */
  ghost predicate Matches(s: State, t: Tiers) {
    && s.table == t.table
    && (forall k :: k in s.cache <==> k in t.cache)
    && (forall k | k in s.cache :: SameEntryAs(s.cache[k], t.cache[k]))
  }

  /** A cache lookup hits exactly when the entry is live. */
  lemma LiveIsHit(s: State, t: Tiers, k: SessionRef)
    requires Matches(s, t)
    ensures Live(s, k) <==> CacheLookup(t.cache, k, s.now).Some?
  {
    if k in s.cache {
      assert SameEntryAs(s.cache[k], t.cache[k]);
    }
  }

  /** The writer's two commands, undisturbed, are one SetVariants. */
  lemma QuietWriteIsWrite(s: State, t: Tiers, k: SessionRef, vs: seq<Variant>, ttl: int)
    requires Matches(s, t) && s.writer.Idle?
    ensures var end := Next(Next(s, WriteRedis(k, vs, ttl)), CommitWrite);
            && Matches(end, After(t, Write(k, vs, ttl, s.now, s.now)))
            && end.writer.Idle? && end.now == s.now && end.readers == s.readers
            && LogOf(end, k) == LogOf(s, k) + [Commit(multiset(vs), s.now + ttl)]
  {
    hide Replace, Filled, CacheEntry, SameEntryAs;
    FilledIsEntry(vs, ttl, s.now, ByWriter(|LogOf(s, k)| + 1));
  }

  lemma FilledIsEntry(vs: seq<Variant>, ttl: int, now: int, origin: Origin)
    ensures SameEntryAs(Filled(multiset(vs), ttl, now, origin), CacheEntry(vs, ttl, now))
  {
  }

  /** A reader that misses and queries holds the active rows, or is done when there are none. */
  lemma MissThenQuery(s: State, r: nat, k: SessionRef, timedOut: bool)
    requires r !in s.readers && (timedOut || !Live(s, k))
    ensures var end := Next(Next(s, ReadRedis(r, k, timedOut)), QueryTable(r));
            if Active(s.table, k) == {} then end == s
            else end == s.(readers := s.readers[r :=
              Queried(k, multiset(Active(s.table, k)), UnixSeconds(LatestUntil(s.table, k)), |LogOf(s, k)|)])
  {
    hide Active, LatestUntil, Live, LogOf;
    var s1 := Next(s, ReadRedis(r, k, timedOut));
    assert s1 == s.(readers := s.readers[r := Missed(k)]);
    assert s1.readers - {r} == s.readers;
    SameLog(s, s1, k);
  }

  /** A reader that holds rows then fills the cache with them, and is done. */
  lemma MeasureThenRewarm(s: State, r: nat, k: SessionRef, content: Content, activeUntil: int, n: nat)
    requires r in s.readers && s.readers[r] == Queried(k, content, activeUntil, n)
    ensures var end := Next(Next(s, MeasureTtl(r)), Rewarm(r));
            end == s.(cache := s.cache[k :=
                        Filled(content, RewarmTtl(activeUntil, s.now), s.now, ByReader(n, s.now, s.now))],
                      readers := s.readers - {r})
  {
    hide Filled, RewarmTtl;
    var s1 := Next(s, MeasureTtl(r));
    assert s1.readers - {r} == s.readers - {r};
  }

  lemma NobodyThere(s: State, r: nat)
    requires r !in s.readers
    ensures Next(Next(s, MeasureTtl(r)), Rewarm(r)) == s
  {
  }

  /** A reader's commands, undisturbed, are one GetVariant that missed: it reads the rows and fills the cache. */
  lemma QuietReadIsRead(s: State, t: Tiers, r: nat, k: SessionRef, timedOut: bool, rows: Option<VariantSet>)
    requires Inv(s) && Matches(s, t) && r !in s.readers && !CacheHit(t, k, !timedOut, s.now)
    requires IsActiveResult(t.table, k, rows)
    ensures var end := Next(Next(Next(Next(s, ReadRedis(r, k, timedOut)), QueryTable(r)), MeasureTtl(r)), Rewarm(r));
            && Matches(end, After(t, Read(k, !timedOut, true, s.now, rows)))
            && end.now == s.now && end.readers == s.readers && end.writer == s.writer && end.log == s.log
  {
    hide Next, Active, ActiveKeys, LatestUntil, CacheLookup, IsActiveResult, Live, Inv;
    hide Filled, CacheEntry, SameEntryAs, RewarmTtl, LogOf;
    LiveIsHit(s, t, k);
    QueryReadsRows(s, k, rows);
    MissThenQuery(s, r, k, timedOut);
    var s2 := Next(Next(s, ReadRedis(r, k, timedOut)), QueryTable(r));
    if rows == None {
      NobodyThere(s, r);
    } else {
      var vs, n := rows.value, |LogOf(s, k)|;
      MeasureThenRewarm(s2, r, k, multiset(vs.variants), vs.activeUntil, n);
      FilledIsEntry(vs.variants, RewarmTtl(vs.activeUntil, s.now), s.now, ByReader(n, s.now, s.now));
      assert s2.readers - {r} == s.readers;
    }
  }

  /** What a reader's query finds is what GetActiveVariants returns. */
  lemma QueryReadsRows(s: State, k: SessionRef, rows: Option<VariantSet>)
    requires Inv(s) && IsActiveResult(s.table, k, rows)
    ensures rows == None <==> Active(s.table, k) == {}
    ensures rows.Some? ==>
              && multiset(rows.value.variants) == multiset(Active(s.table, k))
              && rows.value.activeUntil == UnixSeconds(LatestUntil(s.table, k))
  {
    hide CacheOk, ReaderOk;
    assert TableIsLastCommit(s, k);
    if rows.Some? {
      var until: int :| rows.value.activeUntil == UnixSeconds(until) && IsLatest(s.table, ActiveKeys(s.table, k), until);
      LatestIsUnique(s.table, ActiveKeys(s.table, k), until, LatestUntil(s.table, k));
    }
  }

  lemma LatestIsUnique(table: Table, keys: set<(SessionRef, string)>, a: int, b: int)
    requires IsLatest(table, keys, a) && IsLatest(table, keys, b)
    ensures a == b
  {
  }

  /** A live entry is left alone by a read, and the other steps lose or pass what they say. */
  lemma QuietStepsMatch(s: State, t: Tiers, r: nat, k: SessionRef, d: nat)
    requires Matches(s, t)
    ensures CacheHit(t, k, true, s.now) ==> Next(s, ReadRedis(r, k, false)) == s
    ensures Matches(Next(s, EvictKey(k)), After(t, Evict(k)))
    ensures Matches(Next(s, FlushAll), After(t, LoseRedis))
    ensures Matches(Next(s, Advance(d)), t) && Next(s, Advance(d)).now == s.now + d
  {
    LiveIsHit(s, t, k);
  }
}
