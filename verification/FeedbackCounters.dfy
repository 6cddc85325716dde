/**
 Vote counters in Redis (internal/store/redis/feedback.go): ratings are counted per conversation, and a rollup moves
 the conversation counts into per-variant counts. Nothing expires and no command fails here.
 */
module FeedbackCounters {
  import opened StoreTypes

  datatype Votes = Votes(up: nat, down: nat)

  const NONE := Votes(0, 0)

  function Plus(a: Votes, b: Votes): Votes { Votes(a.up + b.up, a.down + b.down) }

  /** The up-votes or the down-votes. */
  function Count(v: Votes, up: bool): nat { if up then v.up else v.down }

  function RatingVotes(rating: int): Votes {
    Votes(if rating > 0 then 1 else 0, if rating < 0 then 1 else 0)
  }

  datatype ConversationHash = ConversationHash(votes: Votes, variantId: string, comment: string)

  datatype SessionHash = SessionHash(votes: Votes, totalRated: nat)

  /** The three hash families. A hash that does not exist reads as all zeros and empty strings. */
  datatype Counters = Counters(
    conversations: map<ConversationKey, ConversationHash>,
    variants: map<(SessionRef, string), Votes>,
    sessions: map<SessionRef, SessionHash>)

  const EMPTY := Counters(map[], map[], map[])

  function ReadConversation(s: Counters, key: ConversationKey): ConversationHash {
    if key in s.conversations then s.conversations[key] else ConversationHash(NONE, "", "")
  }

  function VariantVotes(s: Counters, session: SessionRef, variantId: string): Votes {
    if (session, variantId) in s.variants then s.variants[(session, variantId)] else NONE
  }

  function ReadSession(s: Counters, session: SessionRef): SessionHash {
    if session in s.sessions then s.sessions[session] else SessionHash(NONE, 0)
  }

  // ---------------------------------------------------------------------------
  // The operations
  // ---------------------------------------------------------------------------

  /** A conversation hash, and a session hash, after one more rating. */
  function RatedConversation(c: ConversationHash, variantId: string, rating: int, comment: string): ConversationHash {
    ConversationHash(Plus(c.votes, RatingVotes(rating)), variantId, if comment != "" then comment else c.comment)
  }

  function RatedSession(h: SessionHash, rating: int): SessionHash {
    SessionHash(Plus(h.votes, RatingVotes(rating)), h.totalRated + 1)
  }

  function Record(
    s: Counters, session: SessionRef, conversationId: string, variantId: string, rating: int, comment: string): Counters
  {
    if conversationId == "" then s
    else
      var key := ConversationKey(session, conversationId);
      var c := RatedConversation(ReadConversation(s, key), variantId, rating, comment);
      var h := RatedSession(ReadSession(s, session), rating);
      Counters(s.conversations[key := c], s.variants, s.sessions[session := h])
  }

  /** HINCRBY of the positive counts only, so a zero count creates nothing. */
  function Bump(s: Counters, session: SessionRef, variantId: string, v: Votes): Counters {
    if v == NONE then s
    else if variantId == "" then
      var h := ReadSession(s, session);
      s.(sessions := s.sessions[session := h.(votes := Plus(h.votes, v))])
    else s.(variants := s.variants[(session, variantId) := Plus(VariantVotes(s, session, variantId), v)])
  }

  /** One turn of the rollup's inner loop: read the hash, bump where it belongs, delete it. */
  function RollupKey(s: Counters, session: SessionRef, key: ConversationKey): Counters {
    var vals := ReadConversation(s, key);
    var bumped := Bump(s, session, vals.variantId, vals.votes);
    bumped.(conversations := bumped.conversations - {key})
  }

  function RollupKeys(s: Counters, session: SessionRef, keys: seq<ConversationKey>): Counters {
    if keys == [] then s else RollupKey(RollupKeys(s, session, keys[..|keys| - 1]), session, keys[|keys| - 1])
  }

  function Flatten(batches: seq<seq<ConversationKey>>): seq<ConversationKey> {
    if batches == [] then [] else Flatten(batches[..|batches| - 1]) + batches[|batches| - 1]
  }

  /** The keys of all batches, in order, as often as they were handed out. */
  lemma {:induction false} FlattenIsInOrder(
    a: seq<seq<ConversationKey>>, b: seq<seq<ConversationKey>>, keys: seq<ConversationKey>)
    ensures Flatten(a + b) == Flatten(a) + Flatten(b)
    ensures Flatten([keys]) == keys && Flatten([]) == []
  {
    assert [keys][..0] == [];
    if b == [] {
      assert a + b == a;
    } else {
      var n := |b| - 1;
      FlattenIsInOrder(a, b[..n], keys);
      assert (a + b)[..|a| + n] == a + b[..n];
    }
  }

  class FeedbackStore {
    var conversations: map<ConversationKey, ConversationHash>
    var variants: map<(SessionRef, string), Votes>
    var sessions: map<SessionRef, SessionHash>

    ghost function State(): Counters
      reads this
    {
      Counters(conversations, variants, sessions)
    }

    constructor ()
      ensures State() == EMPTY
    {
      conversations, variants, sessions := map[], map[], map[];
    }

    method RecordFeedback(session: SessionRef, conversationId: string, variantId: string, rating: int, comment: string)
      modifies this
      ensures State() == Record(old(State()), session, conversationId, variantId, rating, comment)
    {
      if conversationId == "" {
        return;
      }
      ghost var was := State();
      var key := ConversationKey(session, conversationId);
      var c := if key in conversations then conversations[key] else ConversationHash(NONE, "", "");
      var h := if session in sessions then sessions[session] else SessionHash(NONE, 0);
      assert c == ReadConversation(was, key) && h == ReadSession(was, session);
      var v := NONE;
      if rating > 0 {
        v := Votes(1, 0);
      } else if rating < 0 {
        v := Votes(0, 1);
      }
      assert v == RatingVotes(rating);
      var kept := c.comment;
      if comment != "" {
        kept := comment;
      }
      var c' := ConversationHash(Plus(c.votes, v), variantId, kept);
      var h' := SessionHash(Plus(h.votes, v), h.totalRated + 1);
      conversations := conversations[key := c'];
      sessions := sessions[session := h'];
      assert State() == Counters(was.conversations[key := c'], was.variants, was.sessions[session := h']);
    }

    /** `batches` is what the SCAN cursor hands out, in whatever order and however often. */
    method RollupConversationFeedback(session: SessionRef, batches: seq<seq<ConversationKey>>)
      modifies this
      ensures State() == RollupKeys(old(State()), session, Flatten(batches))
    {
      hide RollupKey;
      for b := 0 to |batches|
        invariant State() == RollupKeys(old(State()), session, Flatten(batches[..b]))
      {
        var keys := batches[b];
        ghost var before := Flatten(batches[..b]);
        assert batches[..b + 1][..b] == batches[..b];
        assert keys[..0] == [] && before + [] == before;
        for i := 0 to |keys|
          invariant State() == RollupKeys(old(State()), session, before + keys[..i])
        {
          assert keys[..i + 1] == keys[..i] + [keys[i]];
          assert (before + keys[..i + 1])[..|before| + i] == before + keys[..i];
          RollupOne(session, keys[i]);
        }
        assert keys[..|keys|] == keys;
      }
      assert batches[..|batches|] == batches;
    }

    method RollupOne(session: SessionRef, key: ConversationKey)
      modifies this
      ensures State() == RollupKey(old(State()), session, key)
    {
      var vals := if key in conversations then conversations[key] else ConversationHash(NONE, "", "");
      var up, down := vals.votes.up, vals.votes.down;
      if vals.variantId == "" {
        var h := if session in sessions then sessions[session] else SessionHash(NONE, 0);
        if up > 0 {
          h := h.(votes := Votes(h.votes.up + up, h.votes.down));
        }
        if down > 0 {
          h := h.(votes := Votes(h.votes.up, h.votes.down + down));
        }
        if up > 0 || down > 0 {
          sessions := sessions[session := h];
        }
      } else {
        var v := if (session, vals.variantId) in variants then variants[(session, vals.variantId)] else NONE;
        if up > 0 {
          v := Votes(v.up + up, v.down);
        }
        if down > 0 {
          v := Votes(v.up, v.down + down);
        }
        if up > 0 || down > 0 {
          variants := variants[(session, vals.variantId) := v];
        }
      }
      conversations := conversations - {key};
    }
  }

  // ---------------------------------------------------------------------------
  // Sums over hash families
  // ---------------------------------------------------------------------------

  /** One token per vote, so that a family's votes can be counted. */
  ghost function Tokens<K(!new)>(m: map<K, Votes>, up: bool): set<(K, nat)> {
    set k, i: nat | k in m && 0 <= i < Count(m[k], up) :: (k, i)
  }

  ghost function Total<K(!new)>(m: map<K, Votes>, up: bool): nat {
    |Tokens(m, up)|
  }

  ghost function Column<K(!new)>(k: K, n: nat): set<(K, nat)> {
    set i: nat | 0 <= i < n :: (k, i)
  }

  lemma {:induction false} ColumnSize<K(!new)>(k: K, n: nat)
    ensures |Column(k, n)| == n
  {
    if n > 0 {
      ColumnSize(k, n - 1);
      assert Column(k, n) == Column(k, n - 1) + {(k, n - 1)};
    }
  }

  lemma TotalWithout<K(!new)>(m: map<K, Votes>, k: K, up: bool)
    requires k in m
    ensures Total(m, up) == Total(m - {k}, up) + Count(m[k], up)
  {
    ColumnSize(k, Count(m[k], up));
    assert Tokens(m, up) == Tokens(m - {k}, up) + Column(k, Count(m[k], up));
    assert Tokens(m - {k}, up) !! Column(k, Count(m[k], up));
  }

  lemma TotalUpdate<K(!new)>(m: map<K, Votes>, k: K, v: Votes, up: bool)
    ensures Total(m[k := v], up) == Total(m - {k}, up) + Count(v, up)
    ensures Total(m, up) == Total(m - {k}, up) + if k in m then Count(m[k], up) else 0
  {
    hide Total;
    TotalWithout(m[k := v], k, up);
    assert m[k := v] - {k} == m - {k};
    if k in m {
      TotalWithout(m, k, up);
    } else {
      assert m - {k} == m;
    }
  }

  lemma TotalOfNothing<K(!new)>(up: bool)
    ensures Total<K>(map[], up) == 0
  {
    assert Tokens<K>(map[], up) == {};
  }

  function ConversationVotes(m: map<ConversationKey, ConversationHash>): map<ConversationKey, Votes> {
    map k | k in m :: m[k].votes
  }

  function SessionVotes(m: map<SessionRef, SessionHash>): map<SessionRef, Votes> {
    map k | k in m :: m[k].votes
  }

  /** The votes of a session's conversations that currently carry a variant. */
  function PendingFor(
    m: map<ConversationKey, ConversationHash>, session: SessionRef, variantId: string): map<ConversationKey, Votes>
  {
    map k | k in m && k.session == session && m[k].variantId == variantId :: m[k].votes
  }

  ghost function InConversations(s: Counters, up: bool): nat { Total(ConversationVotes(s.conversations), up) }

  ghost function InVariants(s: Counters, up: bool): nat { Total(s.variants, up) }

  ghost function InSessions(s: Counters, up: bool): nat { Total(SessionVotes(s.sessions), up) }

  lemma ConversationUpdate(
    m: map<ConversationKey, ConversationHash>, k: ConversationKey, h: ConversationHash, up: bool)
    ensures var rest := Total(ConversationVotes(m - {k}), up);
            && Total(ConversationVotes(m), up) == rest + (if k in m then Count(m[k].votes, up) else 0)
            && Total(ConversationVotes(m[k := h]), up) == rest + Count(h.votes, up)
  {
    hide Total;
    TotalUpdate(ConversationVotes(m), k, h.votes, up);
    assert ConversationVotes(m[k := h]) == ConversationVotes(m)[k := h.votes];
    assert ConversationVotes(m - {k}) == ConversationVotes(m) - {k};
  }

  lemma SessionUpdate(m: map<SessionRef, SessionHash>, k: SessionRef, h: SessionHash, up: bool)
    ensures var rest := Total(SessionVotes(m - {k}), up);
            && Total(SessionVotes(m), up) == rest + (if k in m then Count(m[k].votes, up) else 0)
            && Total(SessionVotes(m[k := h]), up) == rest + Count(h.votes, up)
  {
    hide Total;
    TotalUpdate(SessionVotes(m), k, h.votes, up);
    assert SessionVotes(m[k := h]) == SessionVotes(m)[k := h.votes];
    assert SessionVotes(m - {k}) == SessionVotes(m) - {k};
  }

  lemma PendingUpdate(
    m: map<ConversationKey, ConversationHash>, session: SessionRef, variantId: string,
    k: ConversationKey, h: ConversationHash, up: bool)
    ensures var rest := Total(PendingFor(m - {k}, session, variantId), up);
            && Total(PendingFor(m, session, variantId), up)
               == rest + (if k in m && k.session == session && m[k].variantId == variantId then Count(m[k].votes, up) else 0)
            && Total(PendingFor(m[k := h], session, variantId), up)
               == rest + (if k.session == session && h.variantId == variantId then Count(h.votes, up) else 0)
  {
    hide Total;
    var p := PendingFor(m, session, variantId);
    TotalUpdate(p, k, h.votes, up);
    assert PendingFor(m - {k}, session, variantId) == p - {k};
    if k.session == session && h.variantId == variantId {
      assert PendingFor(m[k := h], session, variantId) == p[k := h.votes];
    } else {
      assert PendingFor(m[k := h], session, variantId) == p - {k};
    }
  }

  // ---------------------------------------------------------------------------
  // Conservation over whole runs
  // ---------------------------------------------------------------------------

  datatype Op =
    | Rate(session: SessionRef, conversationId: string, variantId: string, rating: int, comment: string)
    | Rollup(session: SessionRef, batches: seq<seq<ConversationKey>>)

  function Apply(s: Counters, op: Op): Counters {
    match op
    case Rate(session, conversationId, variantId, rating, comment) =>
      Record(s, session, conversationId, variantId, rating, comment)
    case Rollup(session, batches) => RollupKeys(s, session, Flatten(batches))
  }

  function Run(ops: seq<Op>): Counters {
    if ops == [] then EMPTY else Apply(Run(ops[..|ops| - 1]), ops[|ops| - 1])
  }

  function RecordedBy(op: Op, up: bool): nat {
    if op.Rate? && op.conversationId != "" && (if up then op.rating > 0 else op.rating < 0) then 1 else 0
  }

  /** The positive, or the negative, ratings of a run. */
  function Recorded(ops: seq<Op>, up: bool): nat {
    if ops == [] then 0 else Recorded(ops[..|ops| - 1], up) + RecordedBy(ops[|ops| - 1], up)
  }

  /**
   One rating: a positive one adds an up-vote, a negative one a down-vote, zero neither, to the conversation and to the
   session; the session counts it, the conversation takes its variant and, if there is one, its comment. Without a
   conversation nothing happens. No other hash changes.
   */
  lemma RatingVotesBySign(
    s: Counters, session: SessionRef, conversationId: string, variantId: string, rating: int, comment: string)
    ensures var key := ConversationKey(session, conversationId);
            var c, h := ReadConversation(s, key), ReadSession(s, session);
            var s' := Record(s, session, conversationId, variantId, rating, comment);
            var c', h' := ReadConversation(s', key), ReadSession(s', session);
            if conversationId == "" then s' == s
            else
              && c'.votes.up == c.votes.up + (if rating > 0 then 1 else 0)
              && c'.votes.down == c.votes.down + (if rating < 0 then 1 else 0)
              && h'.votes.up == h.votes.up + (if rating > 0 then 1 else 0)
              && h'.votes.down == h.votes.down + (if rating < 0 then 1 else 0)
              && h'.totalRated == h.totalRated + 1
              && c'.variantId == variantId && c'.comment == (if comment == "" then c.comment else comment)
    ensures var s' := Record(s, session, conversationId, variantId, rating, comment);
            && s'.variants == s.variants
            && (forall k | k != ConversationKey(session, conversationId) ::
                  ReadConversation(s', k) == ReadConversation(s, k))
            && (forall k | k != session :: ReadSession(s', k) == ReadSession(s, k))
  {
  }

  /** All three families together. */
  ghost function Everywhere(s: Counters, up: bool): nat {
    InConversations(s, up) + InVariants(s, up) + InSessions(s, up)
  }

  lemma RecordAddsTwice(s: Counters, op: Op, up: bool)
    requires op.Rate?
    ensures InConversations(Apply(s, op), up) == InConversations(s, up) + RecordedBy(op, up)
    ensures InSessions(Apply(s, op), up) == InSessions(s, up) + RecordedBy(op, up)
    ensures InVariants(Apply(s, op), up) == InVariants(s, up)
  {
    hide Total;
    if op.conversationId != "" {
      var key := ConversationKey(op.session, op.conversationId);
      var s' := Apply(s, op);
      ConversationUpdate(s.conversations, key, s'.conversations[key], up);
      SessionUpdate(s.sessions, op.session, s'.sessions[op.session], up);
    }
  }

  lemma BumpAdds(s: Counters, session: SessionRef, variantId: string, v: Votes, up: bool)
    ensures var s' := Bump(s, session, variantId, v);
            && s'.conversations == s.conversations
            && InVariants(s', up) == InVariants(s, up) + (if variantId == "" then 0 else Count(v, up))
            && InSessions(s', up) == InSessions(s, up) + (if variantId == "" then Count(v, up) else 0)
  {
    hide Total;
    if v != NONE {
      if variantId == "" {
        var h := ReadSession(s, session);
        SessionUpdate(s.sessions, session, h.(votes := Plus(h.votes, v)), up);
      } else {
        TotalUpdate(s.variants, (session, variantId), Plus(VariantVotes(s, session, variantId), v), up);
      }
    }
  }

  /** A rollup turn takes votes out of the conversation hash and puts the same votes somewhere else. */
  lemma RollupKeyMoves(s: Counters, session: SessionRef, key: ConversationKey, up: bool)
    ensures Everywhere(RollupKey(s, session, key), up) == Everywhere(s, up)
  {
    hide Total;
    var vals := ReadConversation(s, key);
    BumpAdds(s, session, vals.variantId, vals.votes, up);
    ConversationUpdate(s.conversations, key, vals, up);
  }

  lemma {:induction false} RollupKeysMove(s: Counters, session: SessionRef, keys: seq<ConversationKey>, up: bool)
    ensures Everywhere(RollupKeys(s, session, keys), up) == Everywhere(s, up)
  {
    hide Everywhere, RollupKey;
    if keys != [] {
      RollupKeysMove(s, session, keys[..|keys| - 1], up);
      RollupKeyMoves(RollupKeys(s, session, keys[..|keys| - 1]), session, keys[|keys| - 1], up);
    }
  }

  lemma NothingCounted(up: bool)
    ensures InConversations(EMPTY, up) == InVariants(EMPTY, up) == InSessions(EMPTY, up) == 0
  {
    hide Total;
    TotalOfNothing<ConversationKey>(up);
    TotalOfNothing<(SessionRef, string)>(up);
    TotalOfNothing<SessionRef>(up);
    assert ConversationVotes(map[]) == map[] && SessionVotes(map[]) == map[];
  }

  lemma ApplyCountsTwice(s: Counters, op: Op, up: bool)
    ensures Everywhere(Apply(s, op), up) == Everywhere(s, up) + 2 * RecordedBy(op, up)
  {
    hide Total, Record, RollupKeys, InConversations, InVariants, InSessions;
    if op.Rate? {
      RecordAddsTwice(s, op, up);
    } else {
      RollupKeysMove(s, op.session, Flatten(op.batches), up);
    }
  }

  /**
   Over every run, whatever the scans return and whether or not variants are named: each rating is counted twice, once
   in its session and once in a conversation, a variant, or (for the unnamed variant) the session again.
   */
  lemma {:induction false} EveryRatingCountedTwice(ops: seq<Op>, up: bool)
    ensures Everywhere(Run(ops), up) == 2 * Recorded(ops, up)
  {
    hide Apply, InConversations, InVariants, InSessions, RecordedBy;
    if ops == [] {
      NothingCounted(up);
    } else {
      EveryRatingCountedTwice(ops[..|ops| - 1], up);
      ApplyCountsTwice(Run(ops[..|ops| - 1]), ops[|ops| - 1], up);
    }
  }

  // ---------------------------------------------------------------------------
  // What the unnamed branch of the rollup sweeps into the sessions
  // ---------------------------------------------------------------------------

  /** The votes a turn books to the session, for want of a variant. */
  function SweptBy(s: Counters, key: ConversationKey, up: bool): nat {
    var vals := ReadConversation(s, key);
    if vals.variantId == "" then Count(vals.votes, up) else 0
  }

  function SweptKeys(s: Counters, session: SessionRef, keys: seq<ConversationKey>, up: bool): nat {
    if keys == [] then 0
    else
      var before := keys[..|keys| - 1];
      SweptKeys(s, session, before, up) + SweptBy(RollupKeys(s, session, before), keys[|keys| - 1], up)
  }

  function SweptByOp(s: Counters, op: Op, up: bool): nat {
    if op.Rollup? then SweptKeys(s, op.session, Flatten(op.batches), up) else 0
  }

  /** The votes all rollups of a run book to sessions. */
  function Swept(ops: seq<Op>, up: bool): nat {
    if ops == [] then 0
    else Swept(ops[..|ops| - 1], up) + SweptByOp(Run(ops[..|ops| - 1]), ops[|ops| - 1], up)
  }

  lemma RollupKeySweeps(s: Counters, session: SessionRef, key: ConversationKey, up: bool)
    ensures InSessions(RollupKey(s, session, key), up) == InSessions(s, up) + SweptBy(s, key, up)
  {
    hide Total;
    var vals := ReadConversation(s, key);
    BumpAdds(s, session, vals.variantId, vals.votes, up);
  }

  lemma {:induction false} RollupKeysSweep(s: Counters, session: SessionRef, keys: seq<ConversationKey>, up: bool)
    ensures InSessions(RollupKeys(s, session, keys), up) == InSessions(s, up) + SweptKeys(s, session, keys, up)
  {
    hide InSessions, RollupKey, SweptBy;
    if keys != [] {
      var before := keys[..|keys| - 1];
      RollupKeysSweep(s, session, before, up);
      RollupKeySweeps(RollupKeys(s, session, before), session, keys[|keys| - 1], up);
    }
  }

  lemma ApplySweeps(s: Counters, op: Op, up: bool)
    ensures InSessions(Apply(s, op), up) == InSessions(s, up) + RecordedBy(op, up) + SweptByOp(s, op, up)
  {
    hide Total, Record, RollupKeys, InConversations, InVariants, InSessions, SweptKeys;
    if op.Rate? {
      RecordAddsTwice(s, op, up);
    } else {
      RollupKeysSweep(s, op.session, Flatten(op.batches), up);
    }
  }

  lemma {:induction false} SessionsHoldSwept(ops: seq<Op>, up: bool)
    ensures InSessions(Run(ops), up) == Recorded(ops, up) + Swept(ops, up)
  {
    hide Apply, InConversations, InVariants, InSessions, RecordedBy, SweptByOp;
    if ops == [] {
      NothingCounted(up);
    } else {
      SessionsHoldSwept(ops[..|ops| - 1], up);
      ApplySweeps(Run(ops[..|ops| - 1]), ops[|ops| - 1], up);
    }
  }

  /**
   Over every run: sessions hold the ratings and what was swept into them, conversations and variants hold the ratings
   less what was swept. So a run conserves its ratings exactly when its rollups meet no votes without a variant.
   */
  lemma ConservedIffNothingSwept(ops: seq<Op>, up: bool)
    ensures InSessions(Run(ops), up) == Recorded(ops, up) + Swept(ops, up)
    ensures InConversations(Run(ops), up) + InVariants(Run(ops), up) == Recorded(ops, up) - Swept(ops, up)
    ensures InConversations(Run(ops), up) + InVariants(Run(ops), up) == Recorded(ops, up) <==> Swept(ops, up) == 0
  {
    hide Run, Recorded, Swept, InConversations, InVariants, InSessions;
    EveryRatingCountedTwice(ops, up);
    SessionsHoldSwept(ops, up);
  }

  /** No scanned conversation holds votes without naming a variant. */
  ghost predicate NamedWhereScanned(s: Counters, keys: seq<ConversationKey>, up: bool) {
    forall k | k in keys :: SweptBy(s, k, up) == 0
  }

  /** A scanned hash is gone, so a key sweeps the first time only. */
  lemma SweptAfter(s: Counters, session: SessionRef, before: seq<ConversationKey>, key: ConversationKey, up: bool)
    ensures SweptBy(RollupKeys(s, session, before), key, up) == if key in before then 0 else SweptBy(s, key, up)
  {
    RollupDeletesScanned(s, session, before);
  }

  lemma {:induction false} SweptOnceEach(s: Counters, session: SessionRef, keys: seq<ConversationKey>, up: bool)
    ensures SweptKeys(s, session, keys, up) == 0 <==> NamedWhereScanned(s, keys, up)
  {
    hide SweptBy, RollupKeys;
    if keys != [] {
      var before, key := keys[..|keys| - 1], keys[|keys| - 1];
      assert keys == before + [key];
      SweptOnceEach(s, session, before, up);
      SweptAfter(s, session, before, key, up);
      assert key in keys;
    }
  }

  /**
   One rollup keeps the votes of conversations and variants together exactly when none of the conversations it scans
   holds votes without a variant, which can be read off the hashes before it starts.
   */
  lemma RollupConservesIffNamed(s: Counters, session: SessionRef, keys: seq<ConversationKey>, up: bool)
    ensures var s' := RollupKeys(s, session, keys);
            InConversations(s', up) + InVariants(s', up) == InConversations(s, up) + InVariants(s, up)
            <==> NamedWhereScanned(s, keys, up)
  {
    hide InConversations, InVariants, InSessions, NamedWhereScanned;
    RollupKeysMove(s, session, keys, up);
    RollupKeysSweep(s, session, keys, up);
    SweptOnceEach(s, session, keys, up);
  }

  /** Every rollup of the run meets named votes only. */
  ghost predicate ScansOnlyNamed(ops: seq<Op>, up: bool) {
    ops != [] ==>
      var before, op := ops[..|ops| - 1], ops[|ops| - 1];
      && ScansOnlyNamed(before, up)
      && (op.Rollup? ==> NamedWhereScanned(Run(before), Flatten(op.batches), up))
  }

  lemma {:induction false} NothingSweptIffNamed(ops: seq<Op>, up: bool)
    ensures Swept(ops, up) == 0 <==> ScansOnlyNamed(ops, up)
  {
    hide Run, SweptKeys, NamedWhereScanned;
    if ops != [] {
      var before, op := ops[..|ops| - 1], ops[|ops| - 1];
      NothingSweptIffNamed(before, up);
      if op.Rollup? {
        SweptOnceEach(Run(before), op.session, Flatten(op.batches), up);
      }
    }
  }

  /** A run conserves its ratings exactly when each of its rollups, as it starts, faces named votes only. */
  lemma RunConservesIffNamed(ops: seq<Op>, up: bool)
    ensures InConversations(Run(ops), up) + InVariants(Run(ops), up) == Recorded(ops, up) <==> ScansOnlyNamed(ops, up)
  {
    hide Run, Recorded, Swept, ScansOnlyNamed, InConversations, InVariants, InSessions;
    ConservedIffNothingSwept(ops, up);
    NothingSweptIffNamed(ops, up);
  }

  ghost predicate AllNamed(ops: seq<Op>) {
    forall i | 0 <= i < |ops| && ops[i].Rate? :: ops[i].variantId != ""
  }

  /** Every conversation hash that exists names a variant. */
  ghost predicate Named(s: Counters) {
    forall k | k in s.conversations :: s.conversations[k].variantId != ""
  }

  lemma {:induction false} NamedRollupSweepsNothing(
    s: Counters, session: SessionRef, keys: seq<ConversationKey>, up: bool)
    requires Named(s)
    ensures Named(RollupKeys(s, session, keys)) && SweptKeys(s, session, keys, up) == 0
  {
    hide Bump;
    RollupDeletesScanned(s, session, keys);
    SweptOnceEach(s, session, keys, up);
  }

  lemma {:induction false} NamedRunSweepsNothing(ops: seq<Op>, up: bool)
    requires AllNamed(ops)
    ensures Named(Run(ops)) && Swept(ops, up) == 0
  {
    hide RollupKeys, SweptKeys;
    if ops != [] {
      var before, op := ops[..|ops| - 1], ops[|ops| - 1];
      assert op == ops[|ops| - 1];
      NamedRunSweepsNothing(before, up);
      if op.Rollup? {
        NamedRollupSweepsNothing(Run(before), op.session, Flatten(op.batches), up);
      }
    }
  }

  /**
   Conservation: when every rating names its variant, conversation and variant counts together hold exactly the ratings
   recorded, up and down, after any run with any scan results.
   */
  lemma NamedRatingsAreConserved(ops: seq<Op>, up: bool)
    requires AllNamed(ops)
    ensures InConversations(Run(ops), up) + InVariants(Run(ops), up) == Recorded(ops, up)
  {
    hide Run, Recorded, Swept, InConversations, InVariants, InSessions;
    NamedRunSweepsNothing(ops, up);
    ConservedIffNothingSwept(ops, up);
  }

  lemma {:induction false} SweptCoversKey(
    s: Counters, session: SessionRef, keys: seq<ConversationKey>, key: ConversationKey, up: bool)
    requires key in keys
    ensures SweptKeys(s, session, keys, up) >= SweptBy(s, key, up)
  {
    var before := keys[..|keys| - 1];
    assert keys == before + [keys[|keys| - 1]];
    if key in before {
      SweptCoversKey(s, session, before, key, up);
    } else {
      SweptAfter(s, session, before, key, up);
    }
  }

  /** Whatever came before, a rating without a variant is swept by the next rollup that scans its conversation. */
  lemma UnnamedRatingIsSwept(
    ops: seq<Op>, session: SessionRef, conversationId: string, rating: int, comment: string,
    batches: seq<seq<ConversationKey>>, up: bool)
    requires conversationId != "" && ConversationKey(session, conversationId) in Flatten(batches)
    ensures var rate := Rate(session, conversationId, "", rating, comment);
            Swept(ops + [rate] + [Rollup(session, batches)], up) >= Swept(ops, up) + RecordedBy(rate, up)
  {
    hide RollupKeys, Flatten, SweptKeys;
    var rate := Rate(session, conversationId, "", rating, comment);
    var rollup := Rollup(session, batches);
    assert (ops + [rate])[..|ops|] == ops;
    assert (ops + [rate] + [rollup])[..|ops| + 1] == ops + [rate];
    SweptCoversKey(Run(ops + [rate]), session, Flatten(batches), ConversationKey(session, conversationId), up);
  }

  /** So one rating and one rollup are enough to lose it from conversations and variants. */
  lemma UnnamedRatingIsMisplaced(session: SessionRef, conversationId: string) returns (ops: seq<Op>)
    requires conversationId != ""
    ensures Recorded(ops, true) == 1
    ensures InConversations(Run(ops), true) + InVariants(Run(ops), true) == 0
  {
    hide Run, Swept, InConversations, InVariants, InSessions;
    var key := ConversationKey(session, conversationId);
    assert Recorded([], true) == 0;
    var rate, rollup := Rate(session, conversationId, "", 1, ""), Rollup(session, [[key]]);
    ops := [] + [rate] + [rollup];
    assert [[key]][..0] == [];
    assert ops[..1] == [rate] && [rate][..0] == [] && ops[1] == rollup;
    assert Recorded([rate], true) == 1;
    UnnamedRatingIsSwept([], session, conversationId, 1, "", [[key]], true);
    ConservedIffNothingSwept(ops, true);
  }

  // ---------------------------------------------------------------------------
  // Session by session
  // ---------------------------------------------------------------------------

  /** What a step records in one session, and what it sweeps into it. */
  function RecordedInBy(op: Op, at: SessionRef, up: bool): nat {
    if op.Rate? && op.session == at then RecordedBy(op, up) else 0
  }

  function SweptInBy(s: Counters, op: Op, at: SessionRef, up: bool): nat {
    if op.Rollup? && op.session == at then SweptByOp(s, op, up) else 0
  }

  function RecordedIn(ops: seq<Op>, at: SessionRef, up: bool): nat {
    if ops == [] then 0 else RecordedIn(ops[..|ops| - 1], at, up) + RecordedInBy(ops[|ops| - 1], at, up)
  }

  function SweptIn(ops: seq<Op>, at: SessionRef, up: bool): nat {
    if ops == [] then 0
    else SweptIn(ops[..|ops| - 1], at, up) + SweptInBy(Run(ops[..|ops| - 1]), ops[|ops| - 1], at, up)
  }

  /** How often the session was rated. */
  function RatingsIn(ops: seq<Op>, at: SessionRef): nat {
    if ops == [] then 0
    else
      var op := ops[|ops| - 1];
      RatingsIn(ops[..|ops| - 1], at) + if op.Rate? && op.conversationId != "" && op.session == at then 1 else 0
  }

  lemma {:induction false} RollupStaysInSession(
    s: Counters, session: SessionRef, keys: seq<ConversationKey>, at: SessionRef, up: bool)
    ensures Count(ReadSession(RollupKeys(s, session, keys), at).votes, up)
            == Count(ReadSession(s, at).votes, up) + if at == session then SweptKeys(s, session, keys, up) else 0
    ensures ReadSession(RollupKeys(s, session, keys), at).totalRated == ReadSession(s, at).totalRated
  {
    hide RollupKey, SweptBy, ReadSession;
    if keys != [] {
      var before := keys[..|keys| - 1];
      RollupStaysInSession(s, session, before, at, up);
      RollupKeyStaysInSession(RollupKeys(s, session, before), session, keys[|keys| - 1], at, up);
    }
  }

  lemma RollupKeyStaysInSession(s: Counters, session: SessionRef, key: ConversationKey, at: SessionRef, up: bool)
    ensures Count(ReadSession(RollupKey(s, session, key), at).votes, up)
            == Count(ReadSession(s, at).votes, up) + if at == session then SweptBy(s, key, up) else 0
    ensures ReadSession(RollupKey(s, session, key), at).totalRated == ReadSession(s, at).totalRated
  {
  }

  lemma ApplyInSession(s: Counters, op: Op, at: SessionRef, up: bool)
    ensures Count(ReadSession(Apply(s, op), at).votes, up)
            == Count(ReadSession(s, at).votes, up) + RecordedInBy(op, at, up) + SweptInBy(s, op, at, up)
    ensures ReadSession(Apply(s, op), at).totalRated
            == ReadSession(s, at).totalRated
               + if op.Rate? && op.conversationId != "" && op.session == at then 1 else 0
  {
    hide Record, ReadSession, RollupKeys, SweptKeys, ReadConversation;
    if op.Rate? {
      RatingVotesBySign(s, op.session, op.conversationId, op.variantId, op.rating, op.comment);
    } else {
      RollupStaysInSession(s, op.session, Flatten(op.batches), at, up);
    }
  }

  /** Over every run, each session holds its own ratings and what was swept into it, and knows how often it was rated. */
  lemma {:induction false} SessionHoldsItsRatings(ops: seq<Op>, at: SessionRef, up: bool)
    ensures Count(ReadSession(Run(ops), at).votes, up) == RecordedIn(ops, at, up) + SweptIn(ops, at, up)
    ensures ReadSession(Run(ops), at).totalRated == RatingsIn(ops, at)
  {
    hide Apply, RecordedInBy, SweptInBy;
    if ops != [] {
      hide ReadSession;
      SessionHoldsItsRatings(ops[..|ops| - 1], at, up);
      ApplyInSession(Run(ops[..|ops| - 1]), ops[|ops| - 1], at, up);
    }
  }

  // ---------------------------------------------------------------------------
  // Exactly what one rollup moves
  // ---------------------------------------------------------------------------

  function Restrict(
    m: map<ConversationKey, ConversationHash>, keys: seq<ConversationKey>): map<ConversationKey, ConversationHash>
  {
    map k | k in m && k in keys :: m[k]
  }

  lemma {:induction false} RollupDeletesScanned(s: Counters, session: SessionRef, keys: seq<ConversationKey>)
    ensures RollupKeys(s, session, keys).conversations == s.conversations - (set k | k in keys)
  {
    if keys != [] {
      var before, key := keys[..|keys| - 1], keys[|keys| - 1];
      assert keys == before + [key];
      RollupDeletesScanned(s, session, before);
    }
  }

  lemma RollupKeyBumps(s: Counters, session: SessionRef, key: ConversationKey, variantId: string, up: bool)
    requires variantId != ""
    ensures Count(VariantVotes(RollupKey(s, session, key), session, variantId), up)
            == Count(VariantVotes(s, session, variantId), up)
               + if key in s.conversations && s.conversations[key].variantId == variantId
                 then Count(s.conversations[key].votes, up) else 0
  {
  }

  /**
   A rollup adds each scanned hash's votes to its variant once. The right-hand side mentions only which keys were
   scanned: neither their order nor their repetition matters.
   */
  lemma {:induction false} RollupMovesExactly(
    s: Counters, session: SessionRef, keys: seq<ConversationKey>, variantId: string, up: bool)
    requires variantId != ""
    requires forall k | k in keys :: k.session == session
    ensures Count(VariantVotes(RollupKeys(s, session, keys), session, variantId), up)
            == Count(VariantVotes(s, session, variantId), up)
               + Total(PendingFor(Restrict(s.conversations, keys), session, variantId), up)
  {
    hide Total, RollupKey, VariantVotes;
    if keys == [] {
      assert PendingFor(Restrict(s.conversations, keys), session, variantId) == map[];
      TotalOfNothing<ConversationKey>(up);
    } else {
      var before, key := keys[..|keys| - 1], keys[|keys| - 1];
      assert keys == before + [key];
      RollupMovesExactly(s, session, before, variantId, up);
      RollupDeletesScanned(s, session, before);
      RollupKeyBumps(RollupKeys(s, session, before), session, key, variantId, up);
      RestrictOneMore(s.conversations, before, key, session, variantId, up);
    }
  }

  lemma RestrictOneMore(
    m: map<ConversationKey, ConversationHash>, before: seq<ConversationKey>, key: ConversationKey,
    session: SessionRef, variantId: string, up: bool)
    requires key.session == session
    ensures Total(PendingFor(Restrict(m, before + [key]), session, variantId), up)
            == Total(PendingFor(Restrict(m, before), session, variantId), up)
               + if key in m && key !in before && m[key].variantId == variantId then Count(m[key].votes, up) else 0
  {
    hide Total;
    var narrow, wide := Restrict(m, before), Restrict(m, before + [key]);
    if key in m && key !in before {
      PendingUpdate(narrow, session, variantId, key, m[key], up);
      assert wide == narrow[key := m[key]];
      assert narrow - {key} == narrow;
    } else {
      assert wide == narrow;
    }
  }

  /** When the scan covers the session, nothing of the session is left pending. */
  lemma CoveringRollupDrains(
    s: Counters, session: SessionRef, batches: seq<seq<ConversationKey>>, variantId: string, up: bool)
    requires variantId != ""
    requires forall k | k in Flatten(batches) :: k.session == session
    requires forall k | k in s.conversations && k.session == session :: k in Flatten(batches)
    ensures var s' := RollupKeys(s, session, Flatten(batches));
            && (forall k | k in s'.conversations :: k.session != session)
            && Count(VariantVotes(s', session, variantId), up)
               == Count(VariantVotes(s, session, variantId), up) + Total(PendingFor(s.conversations, session, variantId), up)
  {
    hide Total, RollupKeys, VariantVotes;
    var keys := Flatten(batches);
    RollupMovesExactly(s, session, keys, variantId, up);
    RollupDeletesScanned(s, session, keys);
    assert PendingFor(Restrict(s.conversations, keys), session, variantId)
        == PendingFor(s.conversations, session, variantId);
  }

  // ---------------------------------------------------------------------------
  // Conservation per variant
  // ---------------------------------------------------------------------------

  /** A variant's votes: rolled up, and still pending under its name. */
  ghost function Held(s: Counters, session: SessionRef, variantId: string, up: bool): nat {
    Count(VariantVotes(s, session, variantId), up) + Total(PendingFor(s.conversations, session, variantId), up)
  }

  function RecordedForBy(op: Op, session: SessionRef, variantId: string, up: bool): nat {
    if op.Rate? && op.session == session && op.variantId == variantId then RecordedBy(op, up) else 0
  }

  function RecordedFor(ops: seq<Op>, session: SessionRef, variantId: string, up: bool): nat {
    if ops == [] then 0
    else RecordedFor(ops[..|ops| - 1], session, variantId, up) + RecordedForBy(ops[|ops| - 1], session, variantId, up)
  }

  /** The rating does not rename a conversation that has votes pending under another variant. */
  predicate KeepsVariant(s: Counters, op: Op) {
    op.Rate? ==>
      var key := ConversationKey(op.session, op.conversationId);
      key in s.conversations && s.conversations[key].variantId != op.variantId ==> s.conversations[key].votes == NONE
  }

  /** Scans meet only their session's keys. */
  ghost predicate ScansOwnKeys(op: Op) {
    op.Rollup? ==> forall k | k in Flatten(op.batches) :: k.session == op.session
  }

  /** Scans meet only their session's keys, and no rating renames pending votes. */
  ghost predicate Steady(ops: seq<Op>) {
    ops != [] ==>
      var before, op := ops[..|ops| - 1], ops[|ops| - 1];
      && Steady(before)
      && KeepsVariant(Run(before), op)
      && ScansOwnKeys(op)
  }

  lemma RollupKeyHolds(
    s: Counters, session: SessionRef, key: ConversationKey, at: SessionRef, variantId: string, up: bool)
    requires variantId != "" && key.session == session
    ensures Held(RollupKey(s, session, key), at, variantId, up) == Held(s, at, variantId, up)
  {
    hide Total;
    PendingUpdate(s.conversations, at, variantId, key, ReadConversation(s, key), up);
  }

  lemma {:induction false} RollupHolds(
    s: Counters, session: SessionRef, keys: seq<ConversationKey>, at: SessionRef, variantId: string, up: bool)
    requires variantId != "" && forall k | k in keys :: k.session == session
    ensures Held(RollupKeys(s, session, keys), at, variantId, up) == Held(s, at, variantId, up)
  {
    hide Held, RollupKey;
    if keys != [] {
      var before, key := keys[..|keys| - 1], keys[|keys| - 1];
      assert key in keys && forall k | k in before :: k in keys;
      RollupHolds(s, session, before, at, variantId, up);
      RollupKeyHolds(RollupKeys(s, session, before), session, key, at, variantId, up);
    }
  }

  /** What a rating does to a variant's votes: it adds itself, and it carries along whatever the conversation had pending. */
  lemma RecordMovesPending(s: Counters, op: Op, at: SessionRef, variantId: string, up: bool)
    requires op.Rate? && op.conversationId != ""
    ensures var key := ConversationKey(op.session, op.conversationId);
            var pending := Count(ReadConversation(s, key).votes, up);
            var mine := at == op.session && op.variantId == variantId;
            var was := at == op.session && key in s.conversations && s.conversations[key].variantId == variantId;
            Held(Apply(s, op), at, variantId, up) + (if was then pending else 0)
            == Held(s, at, variantId, up) + (if mine then pending + RecordedBy(op, up) else 0)
  {
    hide Total;
    var key := ConversationKey(op.session, op.conversationId);
    PendingUpdate(s.conversations, at, variantId, key, Apply(s, op).conversations[key], up);
  }

  /** A rating keeps the books of the variant it names, up and down, exactly when it renames no pending votes. */
  lemma RatingBalancesIffVariantKept(s: Counters, op: Op)
    requires op.Rate? && op.conversationId != ""
    ensures (forall up :: Held(Apply(s, op), op.session, op.variantId, up)
                          == Held(s, op.session, op.variantId, up) + RecordedBy(op, up))
            <==> KeepsVariant(s, op)
  {
    hide Held, Apply, RecordedBy;
    RecordMovesPending(s, op, op.session, op.variantId, true);
    RecordMovesPending(s, op, op.session, op.variantId, false);
    var key := ConversationKey(op.session, op.conversationId);
    if key in s.conversations {
      var v := s.conversations[key].votes;
      assert v == NONE <==> Count(v, true) == 0 && Count(v, false) == 0;
    }
  }

  /** The pending votes a rating renames to the variant, or away from it. */
  function CarriedBy(s: Counters, op: Op, at: SessionRef, variantId: string, up: bool, away: bool): nat {
    if op.Rate? && op.conversationId != "" && op.session == at then
      var key := ConversationKey(op.session, op.conversationId);
      var renames := key in s.conversations &&
        if away then s.conversations[key].variantId == variantId != op.variantId
        else op.variantId == variantId != s.conversations[key].variantId;
      if renames then Count(s.conversations[key].votes, up) else 0
    else 0
  }

  function Carried(ops: seq<Op>, at: SessionRef, variantId: string, up: bool, away: bool): nat {
    if ops == [] then 0
    else
      var before := ops[..|ops| - 1];
      Carried(before, at, variantId, up, away) + CarriedBy(Run(before), ops[|ops| - 1], at, variantId, up, away)
  }

  lemma ApplyBalances(s: Counters, op: Op, at: SessionRef, variantId: string, up: bool)
    requires variantId != "" && ScansOwnKeys(op)
    ensures Held(Apply(s, op), at, variantId, up) + CarriedBy(s, op, at, variantId, up, true)
            == Held(s, at, variantId, up) + CarriedBy(s, op, at, variantId, up, false)
               + RecordedForBy(op, at, variantId, up)
  {
    hide Held, RollupKeys;
    if op.Rollup? {
      RollupHolds(s, op.session, Flatten(op.batches), at, variantId, up);
    } else if op.conversationId != "" {
      RecordMovesPending(s, op, at, variantId, up);
    }
  }

  /**
   Per variant, over every run whose scans meet their own session's keys: what a variant holds and what was renamed away
   from it is what was recorded for it and what was renamed to it. It holds exactly its ratings when the two renamings
   even out.
   */
  lemma {:induction false} VariantHoldsItsRatings(ops: seq<Op>, at: SessionRef, variantId: string, up: bool)
    requires variantId != "" && forall i | 0 <= i < |ops| :: ScansOwnKeys(ops[i])
    ensures Held(Run(ops), at, variantId, up) + Carried(ops, at, variantId, up, true)
            == RecordedFor(ops, at, variantId, up) + Carried(ops, at, variantId, up, false)
    ensures Held(Run(ops), at, variantId, up) == RecordedFor(ops, at, variantId, up)
            <==> Carried(ops, at, variantId, up, true) == Carried(ops, at, variantId, up, false)
  {
    hide Apply, RecordedForBy, Held, CarriedBy, ScansOwnKeys;
    if ops == [] {
      NothingHeld(at, variantId, up);
    } else {
      var before, op := ops[..|ops| - 1], ops[|ops| - 1];
      assert op == ops[|ops| - 1];
      VariantHoldsItsRatings(before, at, variantId, up);
      ApplyBalances(Run(before), op, at, variantId, up);
    }
  }

  lemma SteadyCarriesNothing(s: Counters, op: Op, at: SessionRef, variantId: string, up: bool, away: bool)
    requires KeepsVariant(s, op)
    ensures CarriedBy(s, op, at, variantId, up, away) == 0
  {
  }

  lemma {:induction false} SteadyRunCarriesNothing(ops: seq<Op>, at: SessionRef, variantId: string, up: bool, away: bool)
    requires Steady(ops)
    ensures Carried(ops, at, variantId, up, away) == 0
    ensures forall i | 0 <= i < |ops| :: ScansOwnKeys(ops[i])
  {
    hide Run, KeepsVariant, CarriedBy, ScansOwnKeys;
    if ops != [] {
      var before, op := ops[..|ops| - 1], ops[|ops| - 1];
      SteadyRunCarriesNothing(before, at, variantId, up, away);
      SteadyCarriesNothing(Run(before), op, at, variantId, up, away);
      assert forall i | 0 <= i < |before| :: before[i] == ops[i];
    }
  }

  /** In particular, conservation per variant over every run whose ratings rename no pending votes. */
  lemma VariantRatingsAreConserved(ops: seq<Op>, session: SessionRef, variantId: string, up: bool)
    requires Steady(ops) && variantId != ""
    ensures Held(Run(ops), session, variantId, up) == RecordedFor(ops, session, variantId, up)
  {
    hide Run, Steady, Held, RecordedFor, Carried, ScansOwnKeys;
    SteadyRunCarriesNothing(ops, session, variantId, up, true);
    SteadyRunCarriesNothing(ops, session, variantId, up, false);
    VariantHoldsItsRatings(ops, session, variantId, up);
  }

  lemma NothingHeld(session: SessionRef, variantId: string, up: bool)
    ensures Held(EMPTY, session, variantId, up) == 0
  {
    TotalOfNothing<ConversationKey>(up);
    assert PendingFor(EMPTY.conversations, session, variantId) == map[];
  }
}
