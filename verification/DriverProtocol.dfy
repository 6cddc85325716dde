/**
 The optimiser's cycle (RunOnce in internal/optimizer/driver.go) as a step machine over the tables it reads and writes:
 feedback events, conversation logs and session metadata (internal/store/pg/store.go: ReadySessions,
 LoadConversationSamples, MarkFeedbackUsed, MarkSessionOptimized), and ReadySessions of
 internal/store/redis/feedback.go when there is no Postgres. There is one optimiser; ratings, archived logs and the
 clock move between any two of its steps. Its marks succeed; writing the variants may fail in Redis, whether or not
 Postgres commits them, and RunOnce then goes on without marking the session.
 */
module DriverProtocol {
  import opened StoreTypes

  /** `contributed` is history: the cycles that produced candidates from a sample this event was counted in. */
  datatype Event = Event(
    session: SessionRef, conversationId: string, rating: int, comment: string, timesUsed: nat, contributed: nat)

  /** A sample row: Postgres groups a conversation's unused events by comment. */
  datatype Row = Row(conversationId: string, comment: string)

  /** A committed variant set; `accepted` says whether Redis took it too, so that the session gets marked. */
  datatype Promotion = Promotion(session: SessionRef, at: int, accepted: bool)

  /** Where RunOnce is: between cycles, about to take the next session, or working on one with others still to come. */
  datatype Phase =
    | Sleeping
    | Looping(rest: seq<SessionRef>)
    | Sampled(session: SessionRef, rest: seq<SessionRef>, conversations: set<string>, counted: set<nat>)
    | Marked(session: SessionRef, rest: seq<SessionRef>)
    | Promoting(session: SessionRef, rest: seq<SessionRef>)
    | Promoted(session: SessionRef, rest: seq<SessionRef>)

  datatype State = State(
    now: int,
    events: seq<Event>,
    logs: set<(SessionRef, string)>,
    lastOptimized: map<SessionRef, int>,
    phase: Phase,
    promotions: seq<Promotion>)

  datatype Action =
    | Advance(elapsed: nat)
    | Rate(session: SessionRef, conversationId: string, rating: int, comment: string)
    | Archive(session: SessionRef, conversationId: string)
    | StartCycle(sessions: seq<SessionRef>)
    | LoadSamples(rows: set<Row>)
    | SkipSession
    | AllPositiveSkip
    | MarkUsed
    | WriteVariants
    | WriteRefused(committed: bool)
    | MarkOptimized
    | MarkOptimizedAgain
    | EndCycle

  datatype Mode = Postgres | RedisOnly

  datatype Config = Config(mode: Mode, minSamples: int, optimizeEvery: nat)

  // ---------------------------------------------------------------------------
  // The queries
  // ---------------------------------------------------------------------------

  /** Conversations with feedback whose log row is complete. */
  function Joined(s: State, session: SessionRef): set<string> {
    set e | e in s.events && e.session == session && (session, e.conversationId) in s.logs :: e.conversationId
  }

  /** How many ratings the session has had: totalRated in its Redis hash. */
  function Rated(s: State, session: SessionRef): nat {
    |set i | 0 <= i < |s.events| && s.events[i].session == session|
  }

  /** Postgres waits ten windows; Redis waits one, counted from the whole second of the last mark. */
  predicate IsReady(cfg: Config, s: State, session: SessionRef) {
    match cfg.mode
    case Postgres =>
      && (session in s.lastOptimized ==> s.lastOptimized[session] < s.now - cfg.optimizeEvery * 10)
      && |Joined(s, session)| >= cfg.minSamples
    case RedisOnly =>
      && Rated(s, session) >= cfg.minSamples
      && (session in s.lastOptimized ==>
            var seconds := s.lastOptimized[session] / SECOND;
            !(seconds > 0 && s.now - seconds * SECOND < cfg.optimizeEvery))
  }

  predicate Distinct(sessions: seq<SessionRef>) {
    forall i, j | 0 <= i < j < |sessions| :: sessions[i] != sessions[j]
  }

  /** The unused events behind a row. */
  predicate Behind(s: State, session: SessionRef, row: Row, i: nat) {
    && i < |s.events|
    && s.events[i].session == session
    && s.events[i].conversationId == row.conversationId
    && s.events[i].comment == row.comment
    && s.events[i].timesUsed == 0
  }

  /** The events counted into the chosen rows. */
  function Counted(s: State, session: SessionRef, rows: set<Row>): set<nat> {
    set i | 0 <= i < |s.events| && Row(s.events[i].conversationId, s.events[i].comment) in rows
            && Behind(s, session, Row(s.events[i].conversationId, s.events[i].comment), i) :: i
  }

  /** A row exists when an unused event stands behind it and its conversation is archived. */
  ghost predicate IsRow(s: State, session: SessionRef, row: Row) {
    (session, row.conversationId) in s.logs && exists i :: Behind(s, session, row, i)
  }

  /** MarkFeedbackUsed: every event of the listed conversations, used before or not. */
  function MarkEvents(events: seq<Event>, session: SessionRef, conversations: set<string>): (r: seq<Event>)
    ensures |r| == |events|
  {
    seq(|events|, i requires 0 <= i < |events| =>
      if events[i].session == session && events[i].conversationId in conversations
      then events[i].(timesUsed := events[i].timesUsed + 1) else events[i])
  }

  /** History: the counted events contributed to a cycle that produced candidates. */
  function Credit(events: seq<Event>, counted: set<nat>): (r: seq<Event>)
    ensures |r| == |events|
  {
    seq(|events|, i requires 0 <= i < |events| =>
      if i in counted then events[i].(contributed := events[i].contributed + 1) else events[i])
  }

  class FeedbackTable {
    var events: seq<Event>

    constructor ()
      ensures events == []
    {
      events := [];
    }

    method RecordFeedback(session: SessionRef, conversationId: string, rating: int, comment: string)
      modifies this
      ensures events == old(events) + [Event(session, conversationId, rating, comment, 0, 0)]
    {
      events := events + [Event(session, conversationId, rating, comment, 0, 0)];
    }

    /** The UPDATE, row by row. */
    method MarkFeedbackUsed(session: SessionRef, conversations: set<string>)
      modifies this
      ensures events == MarkEvents(old(events), session, conversations)
    {
      if conversations == {} {
        assert events == MarkEvents(events, session, conversations);
        return;
      }
      ghost var was := events;
      for i := 0 to |events|
        invariant |events| == |was|
        invariant forall j | 0 <= j < |was| ::
                    events[j] == if j < i then MarkEvents(was, session, conversations)[j] else was[j]
      {
        var e := events[i];
        if e.session == session && e.conversationId in conversations {
          events := events[i := e.(timesUsed := e.timesUsed + 1)];
        }
      }
    }
  }

  // ---------------------------------------------------------------------------
  // The steps
  // ---------------------------------------------------------------------------

  /**
   Readiness in Postgres mode: never marked or marked more than ten windows ago, and at least so many conversations of
   the session both rated and archived.
   */
  lemma ReadyIffRestedAndRated(cfg: Config, s: State, session: SessionRef, rated: set<string>)
    requires cfg.mode.Postgres?
    requires forall c :: c in rated
                         <==> (session, c) in s.logs
                              && exists i :: 0 <= i < |s.events| && s.events[i].session == session
                                             && s.events[i].conversationId == c
    ensures IsReady(cfg, s, session)
            <==> && |rated| >= cfg.minSamples
                 && (session !in s.lastOptimized || s.now - s.lastOptimized[session] > 10 * cfg.optimizeEvery)
  {
    forall c
      ensures c in Joined(s, session) <==> c in rated
    {
      if c in Joined(s, session) {
        var e :| e in s.events && e.session == session && e.conversationId == c;
        var i :| 0 <= i < |s.events| && s.events[i] == e;
      }
      if c in rated {
        var i :| 0 <= i < |s.events| && s.events[i].session == session && s.events[i].conversationId == c;
        assert s.events[i] in s.events;
      }
    }
    assert Joined(s, session) == rated;
  }

  /**
   Readiness without Postgres: rated at least so often, and never marked or at least a window past the start of the
   second of the mark; a whole window past the mark is always enough.
   */
  lemma ReadyAloneIffRested(cfg: Config, s: State, session: SessionRef, rated: set<nat>)
    requires cfg.mode.RedisOnly? && (session in s.lastOptimized ==> s.lastOptimized[session] >= SECOND)
    requires forall i :: i in rated <==> 0 <= i < |s.events| && s.events[i].session == session
    ensures IsReady(cfg, s, session)
            <==> && |rated| >= cfg.minSamples
                 && (session !in s.lastOptimized
                     || s.now - (s.lastOptimized[session] - s.lastOptimized[session] % SECOND) >= cfg.optimizeEvery)
    ensures |rated| >= cfg.minSamples && session in s.lastOptimized ==>
              s.now - s.lastOptimized[session] >= cfg.optimizeEvery ==> IsReady(cfg, s, session)
  {
    assert (set i | 0 <= i < |s.events| && s.events[i].session == session) == rated;
  }

  /** A step that is not next changes nothing. */
  function Next(s: State, a: Action): State {
    match a
    case Advance(d) => s.(now := s.now + d)
    case Rate(session, conversationId, rating, comment) =>
      if conversationId == "" then s
      else s.(events := s.events + [Event(session, conversationId, rating, comment, 0, 0)])
    case Archive(session, conversationId) => s.(logs := s.logs + {(session, conversationId)})
    case StartCycle(sessions) =>
      if s.phase.Sleeping? then s.(phase := Looping(sessions)) else s
    case LoadSamples(rows) =>
      if s.phase.Looping? && s.phase.rest != [] then
        var session := s.phase.rest[0];
        s.(phase := Sampled(session, s.phase.rest[1..], set r | r in rows :: r.conversationId, Counted(s, session, rows)))
      else s
    case SkipSession =>
      if s.phase.Looping? && s.phase.rest != [] then s.(phase := Looping(s.phase.rest[1..]))
      else if s.phase.Sampled? || s.phase.Marked? then s.(phase := Looping(s.phase.rest))
      else s
    case AllPositiveSkip =>
      if s.phase.Sampled? then
        s.(lastOptimized := s.lastOptimized[s.phase.session := s.now], phase := Looping(s.phase.rest))
      else s
    case MarkUsed =>
      if s.phase.Sampled? then
        s.(events := MarkEvents(Credit(s.events, s.phase.counted), s.phase.session, s.phase.conversations),
           phase := Marked(s.phase.session, s.phase.rest))
      else s
    case WriteVariants =>
      if s.phase.Marked? then
        s.(promotions := s.promotions + [Promotion(s.phase.session, s.now, true)],
           phase := Promoting(s.phase.session, s.phase.rest))
      else s
    case WriteRefused(committed) =>
      if s.phase.Marked? then
        s.(promotions := s.promotions + if committed then [Promotion(s.phase.session, s.now, false)] else [],
           phase := Looping(s.phase.rest))
      else s
    case MarkOptimized =>
      if s.phase.Promoting? then
        s.(lastOptimized := s.lastOptimized[s.phase.session := s.now], phase := Promoted(s.phase.session, s.phase.rest))
      else s
    case MarkOptimizedAgain =>
      if s.phase.Promoted? then
        s.(lastOptimized := s.lastOptimized[s.phase.session := s.now], phase := Looping(s.phase.rest))
      else s
    case EndCycle =>
      if s.phase.Looping? && s.phase.rest == [] then s.(phase := Sleeping) else s
  }

  /** A cycle works through distinct ready sessions; sampling chooses among the rows the query finds. */
  ghost predicate LegalAction(cfg: Config, s: State, a: Action) {
    match a
    case StartCycle(sessions) =>
      Distinct(sessions) && forall i | 0 <= i < |sessions| :: IsReady(cfg, s, sessions[i])
    case LoadSamples(rows) =>
      s.phase.Looping? && s.phase.rest != [] ==> forall r | r in rows :: IsRow(s, s.phase.rest[0], r)
    case WriteRefused(committed) => committed ==> cfg.mode.Postgres?
    case _ => true
  }

  /** The clock starts at least a second after the epoch. */
  function Run(start: nat, actions: seq<Action>): State {
    if actions == [] then State(SECOND + start, [], {}, map[], Sleeping, [])
    else Next(Run(start, actions[..|actions| - 1]), actions[|actions| - 1])
  }

  ghost predicate LegalRun(cfg: Config, start: nat, actions: seq<Action>) {
    actions != [] ==>
      && LegalRun(cfg, start, actions[..|actions| - 1])
      && LegalAction(cfg, Run(start, actions[..|actions| - 1]), actions[|actions| - 1])
  }

  /** Nothing but the phase and, for one session, the mark. */
  ghost predicate OnlyMarks(s: State, s': State, session: SessionRef) {
    && s'.events == s.events && s'.logs == s.logs && s'.promotions == s.promotions && s'.now == s.now
    && s'.lastOptimized == s.lastOptimized[session := s.now]
  }

  /** An all-positive sample marks the session optimised and moves on; so do both marks after a promotion. */
  lemma SkipAndMarksStampNow(s: State)
    ensures s.phase.Sampled? ==>
              var s' := Next(s, AllPositiveSkip); OnlyMarks(s, s', s.phase.session) && s'.phase == Looping(s.phase.rest)
    ensures s.phase.Promoting? ==>
              var s' := Next(s, MarkOptimized);
              OnlyMarks(s, s', s.phase.session) && s'.phase == Promoted(s.phase.session, s.phase.rest)
    ensures s.phase.Promoted? ==>
              var s' := Next(s, MarkOptimizedAgain);
              OnlyMarks(s, s', s.phase.session) && s'.phase == Looping(s.phase.rest)
  {
  }

  /** What others do: ratings of a conversation are new, unused events at the end; archived logs accumulate; time passes. */
  lemma OutsideStepsAdd(s: State, session: SessionRef, conversationId: string, rating: int, comment: string, d: nat)
    ensures var s' := Next(s, Rate(session, conversationId, rating, comment));
            if conversationId == "" then s' == s
            else s' == s.(events := s.events + [Event(session, conversationId, rating, comment, 0, 0)])
    ensures var s' := Next(s, Archive(session, conversationId));
            s' == s.(logs := s'.logs) && forall l :: l in s'.logs <==> l in s.logs || l == (session, conversationId)
    ensures Next(s, Advance(d)) == s.(now := s.now + d)
  {
  }

  /** The mark of used feedback: every event of the sampled conversations counts one more use, and no other event does. */
  lemma MarkUsedCountsUp(s: State, i: nat)
    requires s.phase.Sampled? && i < |s.events|
    ensures var e, s' := s.events[i], Next(s, MarkUsed);
            var e' := s'.events[i];
            && s'.phase == Marked(s.phase.session, s.phase.rest) && s'.lastOptimized == s.lastOptimized
            && |s'.events| == |s.events|
            && e'.timesUsed == e.timesUsed
                 + (if e.session == s.phase.session && e.conversationId in s.phase.conversations then 1 else 0)
            && e'.session == e.session && e'.conversationId == e.conversationId
            && e'.rating == e.rating && e'.comment == e.comment
  {
  }

  /** A ready list is worked through in order: each session is sampled once, and its promotion is recorded at that time. */
  lemma CycleTakesSessionsInOrder(s: State, sessions: seq<SessionRef>, rows: set<Row>)
    ensures s.phase.Sleeping? ==> Next(s, StartCycle(sessions)).phase == Looping(sessions)
    ensures s.phase.Looping? && s.phase.rest != [] ==>
              var s' := Next(s, LoadSamples(rows));
              && s'.phase.Sampled? && s'.phase.session == s.phase.rest[0] && s'.phase.rest == s.phase.rest[1..]
              && (forall c :: c in s'.phase.conversations <==> exists r :: r in rows && r.conversationId == c)
              && s' == s.(phase := s'.phase)
    ensures s.phase.Looping? && s.phase.rest != [] ==> Next(s, SkipSession) == s.(phase := Looping(s.phase.rest[1..]))
    ensures s.phase.Looping? && s.phase.rest == [] ==> Next(s, EndCycle) == s.(phase := Sleeping)
    ensures s.phase.Marked? ==>
              var s' := Next(s, WriteVariants);
              && s'.promotions == s.promotions + [Promotion(s.phase.session, s.now, true)]
              && s'.phase == Promoting(s.phase.session, s.phase.rest) && s'.lastOptimized == s.lastOptimized
  {
  }

  // ---------------------------------------------------------------------------
  // Each event feeds at most one productive cycle
  // ---------------------------------------------------------------------------

  /** An event that has contributed is marked used; the events of the current sample have not contributed. */
  ghost predicate UsedOnce(s: State) {
    && (forall i | 0 <= i < |s.events| ::
          s.events[i].contributed <= 1 && (s.events[i].contributed == 1 ==> s.events[i].timesUsed >= 1))
    && (s.phase.Sampled? ==> forall i | i in s.phase.counted ::
          && i < |s.events|
          && s.events[i].contributed == 0
          && s.events[i].session == s.phase.session
          && s.events[i].conversationId in s.phase.conversations)
  }

  lemma StepKeepsUsedOnce(s: State, a: Action)
    requires UsedOnce(s)
    ensures UsedOnce(Next(s, a))
  {
    if a.LoadSamples? && s.phase.Looping? && s.phase.rest != [] {
      var session := s.phase.rest[0];
      forall i | i in Counted(s, session, a.rows)
        ensures i < |s.events| && s.events[i].contributed == 0 && s.events[i].session == session
        ensures s.events[i].conversationId in set r | r in a.rows :: r.conversationId
      {
        assert Row(s.events[i].conversationId, s.events[i].comment).conversationId == s.events[i].conversationId;
      }
    }
  }

  /** Over every run, each feedback event is counted in at most one cycle that produced candidates. */
  lemma {:induction false} EventsContributeAtMostOnce(start: nat, actions: seq<Action>)
    ensures UsedOnce(Run(start, actions))
    ensures forall i | 0 <= i < |Run(start, actions).events| :: Run(start, actions).events[i].contributed <= 1
  {
    hide Next;
    if actions != [] {
      EventsContributeAtMostOnce(start, actions[..|actions| - 1]);
      StepKeepsUsedOnce(Run(start, actions[..|actions| - 1]), actions[|actions| - 1]);
    }
  }

  /** What others do between two steps of the optimiser. */
  predicate FromOutside(a: Action) { a.Advance? || a.Rate? || a.Archive? }

  function RunFrom(s: State, actions: seq<Action>): State {
    if actions == [] then s else Next(RunFrom(s, actions[..|actions| - 1]), actions[|actions| - 1])
  }

  lemma {:induction false} OutsideOnlyAdds(s: State, actions: seq<Action>)
    requires forall a | a in actions :: FromOutside(a)
    ensures RunFrom(s, actions).phase == s.phase && s.events <= RunFrom(s, actions).events
  {
    if actions != [] {
      assert forall a | a in actions[..|actions| - 1] :: a in actions;
      assert FromOutside(actions[|actions| - 1]);
      OutsideOnlyAdds(s, actions[..|actions| - 1]);
    }
  }

  /** Marked used by the cycle although the cycle did not count it. */
  predicate SpentUncounted(was: Event, now: Event) {
    was.timesUsed == 0 && now.timesUsed == 1 && now.contributed == was.contributed
  }

  /**
   At most, not exactly. From the sample to the mark, through whatever ratings, archived logs and time: an unused event
   is spent uncounted exactly when it is of a sampled conversation of the session and either arrived after the sample
   or belongs to a row, a conversation's events under one comment, that the sample left out.
   */
  lemma SpentUncountedIffLateOrLeftOut(s: State, rows: set<Row>, between: seq<Action>, i: nat)
    requires s.phase.Looping? && s.phase.rest != []
    requires forall a | a in between :: FromOutside(a)
    requires var events := RunFrom(Next(s, LoadSamples(rows)), between).events; i < |events| && events[i].timesUsed == 0
    ensures var before := RunFrom(Next(s, LoadSamples(rows)), between);
            var e, e' := before.events[i], Next(before, MarkUsed).events[i];
            SpentUncounted(e, e')
            <==> && e.session == s.phase.rest[0]
                 && (exists r :: r in rows && r.conversationId == e.conversationId)
                 && (i >= |s.events| || Row(e.conversationId, e.comment) !in rows)
  {
    var sampled := Next(s, LoadSamples(rows));
    OutsideOnlyAdds(sampled, between);
    var before := RunFrom(sampled, between);
    var e := before.events[i];
    assert before.phase == sampled.phase;
    assert i < |s.events| ==> s.events[i] == e;
    assert e.conversationId in sampled.phase.conversations
      <==> exists r :: r in rows && r.conversationId == e.conversationId;
    assert i in sampled.phase.counted ==> Row(e.conversationId, e.comment) in rows;
  }

  /** A rating left out: of one conversation rated under two comments, the sample may take one row; the mark takes both. */
  lemma OtherCommentIsSpent(s: State, conversationId: string, i: nat, j: nat)
    requires s.phase.Looping? && s.phase.rest != [] && i < |s.events| && j < |s.events|
    requires s.events[i].timesUsed == 0 && s.events[j].timesUsed == 0
    requires s.events[i].session == s.events[j].session == s.phase.rest[0]
    requires s.events[i].conversationId == s.events[j].conversationId == conversationId
    requires s.events[i].comment != s.events[j].comment && (s.phase.rest[0], conversationId) in s.logs
    ensures var rows := {Row(conversationId, s.events[i].comment)};
            && (forall r | r in rows :: IsRow(s, s.phase.rest[0], r))
            && SpentUncounted(s.events[j], Next(Next(s, LoadSamples(rows)), MarkUsed).events[j])
  {
    var rows := {Row(conversationId, s.events[i].comment)};
    assert Behind(s, s.phase.rest[0], Row(conversationId, s.events[i].comment), i);
    SpentUncountedIffLateOrLeftOut(s, rows, [], j);
    assert Row(conversationId, s.events[i].comment) in rows;
  }

  /** A late rating: of a sampled conversation, before the mark. */
  lemma LateRatingIsSpent(s: State, rating: int, comment: string, conversationId: string)
    requires UsedOnce(s) && s.phase.Sampled? && conversationId in s.phase.conversations && conversationId != ""
    ensures var end := Next(Next(s, Rate(s.phase.session, conversationId, rating, comment)), MarkUsed);
            end.events[|s.events|].timesUsed == 1 && end.events[|s.events|].contributed == 0
  {
    var mid := Next(s, Rate(s.phase.session, conversationId, rating, comment));
    assert |s.events| !in s.phase.counted;
    assert mid.events[|s.events|] == Event(s.phase.session, conversationId, rating, comment, 0, 0);
  }

  // ---------------------------------------------------------------------------
  // Promotions of a session keep their distance
  // ---------------------------------------------------------------------------

  /** The least time between two promotions of a session. */
  function Gap(cfg: Config): int {
    if cfg.mode.Postgres? then cfg.optimizeEvery * 10 else cfg.optimizeEvery - SECOND
  }

  lemma ReadyMeansRested(cfg: Config, s: State, session: SessionRef)
    requires IsReady(cfg, s, session)
    requires session in s.lastOptimized ==> s.lastOptimized[session] >= SECOND
    ensures session in s.lastOptimized ==> s.lastOptimized[session] + Gap(cfg) < s.now
  {
  }

  /** Promoting the session now would keep the distance from all its earlier accepted promotions. */
  ghost predicate Rested(cfg: Config, s: State, session: SessionRef) {
    forall p | p in s.promotions && p.session == session && p.accepted :: p.at + Gap(cfg) < s.now
  }

  /** The sessions the current cycle may still promote. */
  function ToDo(phase: Phase): seq<SessionRef> {
    match phase
    case Sleeping => []
    case Looping(rest) => rest
    case Sampled(session, rest, _, _) => [session] + rest
    case Marked(session, rest) => [session] + rest
    case Promoting(session, rest) => rest
    case Promoted(session, rest) => rest
  }

  ghost predicate Spaced(cfg: Config, s: State) {
    && s.now >= SECOND
    && (forall r | r in s.lastOptimized :: SECOND <= s.lastOptimized[r] <= s.now)
    && (forall p | p in s.promotions :: p.at <= s.now)
    && (forall p | p in s.promotions && p.accepted && !(s.phase.Promoting? && s.phase.session == p.session) ::
          p.session in s.lastOptimized && p.at <= s.lastOptimized[p.session])
    && Distinct(ToDo(s.phase))
    && (s.phase.Promoting? ==> s.phase.session !in ToDo(s.phase))
    && (forall i | 0 <= i < |ToDo(s.phase)| :: Rested(cfg, s, ToDo(s.phase)[i]))
    && (forall i, j | 0 <= i < j < |s.promotions| && s.promotions[i].session == s.promotions[j].session
                      && s.promotions[i].accepted ::
          s.promotions[i].at + Gap(cfg) < s.promotions[j].at)
  }

  lemma StartKeepsSpaced(cfg: Config, s: State, a: Action)
    requires Spaced(cfg, s) && LegalAction(cfg, s, a) && a.StartCycle? && s.phase.Sleeping?
    ensures Spaced(cfg, Next(s, a))
  {
    forall i | 0 <= i < |a.sessions|
      ensures Rested(cfg, Next(s, a), a.sessions[i])
    {
      ReadyMeansRested(cfg, s, a.sessions[i]);
    }
  }

  /** The sessions still to do are others, and the new promotion leaves them rested. */
  lemma OthersStayRested(cfg: Config, s: State, a: Action)
    requires Spaced(cfg, s) && s.phase.Marked? && (a.WriteVariants? || a == WriteRefused(true))
    ensures forall i | 0 <= i < |s.phase.rest| ::
              s.phase.rest[i] != s.phase.session && Rested(cfg, Next(s, a), s.phase.rest[i])
  {
    var todo := ToDo(s.phase);
    forall i | 0 <= i < |s.phase.rest|
      ensures s.phase.rest[i] != s.phase.session && Rested(cfg, Next(s, a), s.phase.rest[i])
    {
      assert todo[i + 1] == s.phase.rest[i] && todo[0] == s.phase.session;
      assert Rested(cfg, s, todo[i + 1]);
    }
  }

  lemma NewPromotionIsSpaced(cfg: Config, s: State, a: Action, i: nat)
    requires Spaced(cfg, s) && s.phase.Marked? && (a.WriteVariants? || a == WriteRefused(true))
    requires i < |s.promotions| && s.promotions[i].session == s.phase.session && s.promotions[i].accepted
    ensures s.promotions[i].at + Gap(cfg) < s.now
  {
    assert ToDo(s.phase)[0] == s.phase.session;
    assert Rested(cfg, s, ToDo(s.phase)[0]);
    assert s.promotions[i] in s.promotions;
  }

  lemma WriteKeepsSpaced(cfg: Config, s: State, a: Action)
    requires Spaced(cfg, s) && s.phase.Marked? && (a.WriteVariants? || a == WriteRefused(true))
    ensures Spaced(cfg, Next(s, a))
  {
    hide Rested, Gap;
    var s' := Next(s, a);
    OthersStayRested(cfg, s, a);
    assert ToDo(s.phase)[1..] == s.phase.rest == ToDo(s'.phase);
    forall i, j | 0 <= i < j < |s'.promotions| && s'.promotions[i].session == s'.promotions[j].session
                  && s'.promotions[i].accepted
      ensures s'.promotions[i].at + Gap(cfg) < s'.promotions[j].at
    {
      if j == |s.promotions| {
        NewPromotionIsSpaced(cfg, s, a, i);
      }
    }
  }

  /** Steps that add no promotion and no session to do, and forget no mark, keep the distance. */
  lemma ShorterListKeepsSpaced(cfg: Config, s: State, s': State)
    requires Spaced(cfg, s) && s'.now == s.now && s'.promotions == s.promotions
    requires forall r | r in s.lastOptimized :: r in s'.lastOptimized && s'.lastOptimized[r] >= s.lastOptimized[r]
    requires forall r | r in s'.lastOptimized :: SECOND <= s'.lastOptimized[r] <= s.now
    requires s.phase.Promoting? ==> s.phase.session in s'.lastOptimized && s'.lastOptimized[s.phase.session] == s.now
    requires !s'.phase.Promoting?
    requires ToDo(s'.phase) == ToDo(s.phase) || (ToDo(s.phase) != [] && ToDo(s'.phase) == ToDo(s.phase)[1..])
    ensures Spaced(cfg, s')
  {
    hide ToDo;
    var todo, todo' := ToDo(s.phase), ToDo(s'.phase);
    forall i | 0 <= i < |todo'|
      ensures Rested(cfg, s', todo'[i])
    {
      if todo' == todo {
        assert Rested(cfg, s, todo[i]);
      } else {
        assert Rested(cfg, s, todo[i + 1]);
      }
    }
  }

  lemma MarkingNeverRewinds(cfg: Config, s: State, a: Action)
    requires Spaced(cfg, s)
    requires a.LoadSamples? || a.SkipSession? || a.AllPositiveSkip? || a.MarkUsed? || a.EndCycle?
             || a.MarkOptimized? || a.MarkOptimizedAgain? || a == WriteRefused(false)
    ensures var s' := Next(s, a);
            && (forall r | r in s.lastOptimized :: r in s'.lastOptimized && s'.lastOptimized[r] >= s.lastOptimized[r])
            && (forall r | r in s'.lastOptimized :: SECOND <= s'.lastOptimized[r] <= s.now)
  {
    hide Rested, ToDo;
  }

  lemma QuietKeepsSpaced(cfg: Config, s: State, a: Action)
    requires Spaced(cfg, s)
    requires a.LoadSamples? || a.SkipSession? || a.AllPositiveSkip? || a.MarkUsed? || a.EndCycle?
             || a.MarkOptimized? || a.MarkOptimizedAgain? || a == WriteRefused(false)
    ensures Spaced(cfg, Next(s, a))
  {
    hide Spaced;
    MarkingNeverRewinds(cfg, s, a);
    if Next(s, a) != s {
      ShorterListKeepsSpaced(cfg, s, Next(s, a));
    }
  }

  lemma OutsideKeepsSpaced(cfg: Config, s: State, a: Action)
    requires Spaced(cfg, s) && (a.Advance? || a.Rate? || a.Archive?)
    ensures Spaced(cfg, Next(s, a))
  {
    forall i | 0 <= i < |ToDo(s.phase)|
      ensures Rested(cfg, Next(s, a), ToDo(s.phase)[i])
    {
      assert Rested(cfg, s, ToDo(s.phase)[i]);
    }
  }

  lemma StepKeepsSpaced(cfg: Config, s: State, a: Action)
    requires Spaced(cfg, s) && LegalAction(cfg, s, a)
    ensures Spaced(cfg, Next(s, a))
  {
    hide Spaced, LegalAction;
    match a
    case Advance(_) => OutsideKeepsSpaced(cfg, s, a);
    case Rate(_, _, _, _) => OutsideKeepsSpaced(cfg, s, a);
    case Archive(_, _) => OutsideKeepsSpaced(cfg, s, a);
    case StartCycle(_) => if s.phase.Sleeping? { StartKeepsSpaced(cfg, s, a); }
    case WriteVariants => if s.phase.Marked? { WriteKeepsSpaced(cfg, s, a); }
    case WriteRefused(committed) =>
      if s.phase.Marked? && committed { WriteKeepsSpaced(cfg, s, a); } else if !committed { QuietKeepsSpaced(cfg, s, a); }
    case _ => QuietKeepsSpaced(cfg, s, a);
  }

  lemma {:induction false} RunIsSpaced(cfg: Config, start: nat, actions: seq<Action>)
    requires LegalRun(cfg, start, actions)
    ensures Spaced(cfg, Run(start, actions))
  {
    hide Next, LegalAction;
    if actions != [] {
      hide Spaced;
      RunIsSpaced(cfg, start, actions[..|actions| - 1]);
      StepKeepsSpaced(cfg, Run(start, actions[..|actions| - 1]), actions[|actions| - 1]);
    }
  }

  /**
   Over every run, a promotion that Redis accepted and any later one of the same session are more than ten optimisation
   windows apart with Postgres, and more than one window less a second apart without it.
   */
  lemma PromotionsKeepTheirDistance(cfg: Config, start: nat, actions: seq<Action>, i: nat, j: nat)
    requires LegalRun(cfg, start, actions)
    requires var ps := Run(start, actions).promotions; i < j < |ps| && ps[i].session == ps[j].session && ps[i].accepted
    ensures var ps := Run(start, actions).promotions;
            && (cfg.mode.Postgres? ==> ps[j].at - ps[i].at > 10 * cfg.optimizeEvery)
            && (cfg.mode.RedisOnly? ==> ps[j].at - ps[i].at > cfg.optimizeEvery - SECOND)
  {
    RunIsSpaced(cfg, start, actions);
  }

  // ---------------------------------------------------------------------------
  // Promotions that Redis refuses do not
  // ---------------------------------------------------------------------------

  lemma JoinedStays(s: State, s': State, session: SessionRef)
    requires s'.logs == s.logs && |s'.events| == |s.events|
    requires forall i | 0 <= i < |s.events| ::
               s'.events[i].session == s.events[i].session && s'.events[i].conversationId == s.events[i].conversationId
    ensures Joined(s', session) == Joined(s, session)
  {
    forall c
      ensures c in Joined(s', session) <==> c in Joined(s, session)
    {
      if c in Joined(s, session) {
        var i :| 0 <= i < |s.events| && s.events[i].session == session && s.events[i].conversationId == c;
        assert s'.events[i] in s'.events;
      }
      if c in Joined(s', session) {
        var i :| 0 <= i < |s'.events| && s'.events[i].session == session && s'.events[i].conversationId == c;
        assert s.events[i] in s.events;
      }
    }
  }

  /** After a refused promotion the session is as ready as before it; after an accepted one it is not. */
  lemma ReadyAgainIffRefused(cfg: Config, s: State)
    requires cfg.mode.Postgres? && s.phase.Marked? && IsReady(cfg, s, s.phase.session)
    ensures IsReady(cfg, Next(s, WriteRefused(true)), s.phase.session)
    ensures !IsReady(cfg, Next(Next(s, WriteVariants), MarkOptimized), s.phase.session)
  {
    JoinedStays(s, Next(s, WriteRefused(true)), s.phase.session);
  }

  ghost predicate LegalFrom(cfg: Config, s: State, actions: seq<Action>) {
    actions != [] ==>
      var before, a := actions[..|actions| - 1], actions[|actions| - 1];
      LegalFrom(cfg, s, before) && LegalAction(cfg, RunFrom(s, before), a)
  }

  lemma OneMoreAction(cfg: Config, s: State, before: seq<Action>, last: State, a: Action)
    returns (actions: seq<Action>, now: State)
    requires LegalFrom(cfg, s, before) && RunFrom(s, before) == last && LegalAction(cfg, last, a)
    ensures actions == before + [a] && LegalFrom(cfg, s, actions) && RunFrom(s, actions) == now == Next(last, a)
  {
    actions, now := before + [a], Next(last, a);
    assert actions[..|before|] == before;
  }

  lemma NoActions(cfg: Config, s: State)
    ensures LegalFrom(cfg, s, []) && RunFrom(s, []) == s
  {
  }

  /** An event to sample: of the session, unused and archived. */
  predicate Fresh(s: State, session: SessionRef, i: nat) {
    && i < |s.events|
    && s.events[i].session == session && s.events[i].timesUsed == 0 && (session, s.events[i].conversationId) in s.logs
  }

  lemma MarkSpares(events: seq<Event>, counted: set<nat>, session: SessionRef, conversations: set<string>)
    ensures var after := MarkEvents(Credit(events, counted), session, conversations);
            && |after| == |events|
            && forall i | 0 <= i < |events| ::
                 && after[i].session == events[i].session && after[i].conversationId == events[i].conversationId
                 && (events[i].conversationId !in conversations ==> after[i].timesUsed == events[i].timesUsed)
  {
  }

  /** Sampling one conversation and marking it leaves another one fresh, and the session as ready. */
  lemma SampleAndMark(
    cfg: Config, s: State, before: seq<Action>, last: State, session: SessionRef, rest: seq<SessionRef>, i: nat, j: nat)
    returns (actions: seq<Action>, now: State)
    requires LegalFrom(cfg, s, before) && RunFrom(s, before) == last
    requires last.phase == Looping([session] + rest) && Fresh(last, session, i)
    ensures LegalFrom(cfg, s, actions) && RunFrom(s, actions) == now
    ensures now.phase == Marked(session, rest) && now.now == last.now && now.logs == last.logs
    ensures now.lastOptimized == last.lastOptimized && now.promotions == last.promotions
    ensures |now.events| == |last.events| && Joined(now, session) == Joined(last, session)
    ensures Fresh(last, session, j) && last.events[j].conversationId != last.events[i].conversationId ==>
              Fresh(now, session, j)
    ensures forall k | 0 <= k < |last.events| :: now.events[k].conversationId == last.events[k].conversationId
  {
    hide MarkEvents, Credit, Counted, Joined;
    var row := Row(last.events[i].conversationId, last.events[i].comment);
    assert Behind(last, session, row, i);
    assert last.phase.rest[0] == session && last.phase.rest[1..] == rest;
    actions, now := OneMoreAction(cfg, s, before, last, LoadSamples({row}));
    var sampled := now;
    assert sampled.phase.conversations == {row.conversationId} by {
      assert row in {row};
    }
    actions, now := OneMoreAction(cfg, s, actions, now, MarkUsed);
    MarkSpares(last.events, sampled.phase.counted, session, sampled.phase.conversations);
    JoinedStays(last, now, session);
  }

  lemma SameTables(s: State, s': State, session: SessionRef, i: nat)
    requires s'.events == s.events && s'.logs == s.logs
    ensures Fresh(s', session, i) <==> Fresh(s, session, i)
    ensures Joined(s', session) == Joined(s, session)
  {
    JoinedStays(s, s', session);
  }

  /** So a session with two fresh conversations may be promoted twice at one moment, the first time refused. */
  lemma RefusedPromotionRepeats(cfg: Config, s: State, session: SessionRef, i: nat, j: nat) returns (actions: seq<Action>)
    requires cfg.mode.Postgres? && s.phase == Looping([session]) && IsReady(cfg, s, session)
    requires Fresh(s, session, i) && Fresh(s, session, j)
    requires s.events[i].conversationId != s.events[j].conversationId
    ensures LegalFrom(cfg, s, actions)
    ensures RunFrom(s, actions).promotions
            == s.promotions + [Promotion(session, s.now, false), Promotion(session, s.now, true)]
  {
    hide Fresh, Joined, MarkEvents, Credit, Counted, IsRow, LegalFrom, RunFrom;
    var now;
    NoActions(cfg, s);
    assert [session] + [] == [session];
    actions, now := SampleAndMark(cfg, s, [], s, session, [], i, j);
    var marked := now;
    actions, now := OneMoreAction(cfg, s, actions, now, WriteRefused(true));
    actions, now := OneMoreAction(cfg, s, actions, now, EndCycle);
    SameTables(marked, now, session, j);
    actions, now := OneMoreAction(cfg, s, actions, now, StartCycle([session]));
    SameTables(marked, now, session, j);
    actions, now := SampleAndMark(cfg, s, actions, now, session, [], j, j);
    actions, now := OneMoreAction(cfg, s, actions, now, WriteVariants);
  }
}
