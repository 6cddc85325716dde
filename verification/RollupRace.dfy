/**
 One rollup running against live ratings (RollupConversationFeedback and RecordFeedback in
 internal/store/redis/feedback.go). Redis runs each command by itself and a pipeline is not a transaction: a rollup turn
 is four commands (read the hash, add its up-votes, add its down-votes, delete it), a rating is up to five, and any
 number of ratings may be under way, their commands falling between any two others.
 */
module RollupRace {
  import opened StoreTypes
  import opened FeedbackCounters

  /** What a rating sends next: its vote and name and comment to the conversation, its count and vote to the session. */
  datatype Command = Vote | Name | Comment | Rated | SessionVote | Done

  datatype Sending = Sending(key: ConversationKey, variantId: string, rating: int, comment: string, next: Command)

  /** Between turns, or inside the turn of one key, with what was read and which counts are already added. */
  datatype Phase =
    | Between
    | Holding(session: SessionRef, key: ConversationKey, read: ConversationHash, upDone: bool, downDone: bool)

  /**
   The last five fields are history. `recorded` and `settled` count the votes that reached a conversation and a session;
   `landed` those that reached the held conversation since it was read; `lost` those that a delete swept away;
   `misfiled` those that the rollup booked to a session because the hash it read named no variant.
   */
  datatype Race = Race(
    counters: Counters,
    sending: seq<Sending>,
    phase: Phase,
    recorded: Votes,
    settled: Votes,
    landed: Votes,
    lost: Votes,
    misfiled: Votes)

  datatype Action =
    | Start(session: SessionRef, conversationId: string, variantId: string, rating: int, comment: string)
    | Send(i: nat)
    | ReadHash(session: SessionRef, key: ConversationKey)
    | AddUps
    | AddDowns
    | DeleteHash

  const START := Race(EMPTY, [], Between, NONE, NONE, NONE, NONE, NONE)

  function Following(c: Command): Command {
    match c
    case Vote => Name
    case Name => Comment
    case Comment => Rated
    case Rated => SessionVote
    case SessionVote => Done
    case Done => Done
  }

  /** Votes of zero and an empty comment are not sent. */
  predicate ToConversation(p: Sending) {
    (p.next == Vote && RatingVotes(p.rating) != NONE) || p.next == Name || (p.next == Comment && p.comment != "")
  }

  predicate ToSession(p: Sending) {
    p.next == Rated || (p.next == SessionVote && RatingVotes(p.rating) != NONE)
  }

  function SentConversation(c: ConversationHash, p: Sending): ConversationHash {
    match p.next
    case Vote => c.(votes := Plus(c.votes, RatingVotes(p.rating)))
    case Name => c.(variantId := p.variantId)
    case Comment => if p.comment == "" then c else c.(comment := p.comment)
    case _ => c
  }

  function SentSession(h: SessionHash, p: Sending): SessionHash {
    match p.next
    case Rated => h.(totalRated := h.totalRated + 1)
    case SessionVote => h.(votes := Plus(h.votes, RatingVotes(p.rating)))
    case _ => h
  }

  function ConversationsAfter(
    m: map<ConversationKey, ConversationHash>, p: Sending): map<ConversationKey, ConversationHash>
  {
    if ToConversation(p)
    then m[p.key := SentConversation(if p.key in m then m[p.key] else ConversationHash(NONE, "", ""), p)] else m
  }

  function SessionsAfter(m: map<SessionRef, SessionHash>, p: Sending): map<SessionRef, SessionHash> {
    if ToSession(p)
    then m[p.key.session := SentSession(if p.key.session in m then m[p.key.session] else SessionHash(NONE, 0), p)] else m
  }

  function SendCommand(s: Counters, p: Sending): Counters {
    Counters(ConversationsAfter(s.conversations, p), s.variants, SessionsAfter(s.sessions, p))
  }

  /** The votes of a rating, by its sign, when its next command is `c`. */
  function VotesAt(p: Sending, c: Command): Votes {
    Votes(if p.next == c && p.rating > 0 then 1 else 0, if p.next == c && p.rating < 0 then 1 else 0)
  }

  /** What the rollup adds next. */
  function Adding(phase: Phase, ups: bool): Votes
    requires phase.Holding?
  {
    if ups then Votes(phase.read.votes.up, 0) else Votes(0, phase.read.votes.down)
  }

  function Add(s: Race, ups: bool): Race
    requires s.phase.Holding?
  {
    var v := Adding(s.phase, ups);
    s.(counters := Bump(s.counters, s.phase.session, s.phase.read.variantId, v),
       misfiled := if s.phase.read.variantId == "" then Plus(s.misfiled, v) else s.misfiled)
  }

  /** One command; a command that is not next in its turn changes nothing. */
  function Next(s: Race, a: Action): Race {
    match a
    case Start(session, conversationId, variantId, rating, comment) =>
      if conversationId == "" then s
      else s.(sending := s.sending + [Sending(ConversationKey(session, conversationId), variantId, rating, comment, Vote)])
    case Send(i) =>
      if i < |s.sending| then
        var p := s.sending[i];
        s.(counters := SendCommand(s.counters, p),
           sending := s.sending[i := p.(next := Following(p.next))],
           recorded := Plus(s.recorded, VotesAt(p, Vote)),
           settled := Plus(s.settled, VotesAt(p, SessionVote)),
           landed := if s.phase.Holding? && s.phase.key == p.key then Plus(s.landed, VotesAt(p, Vote)) else s.landed)
      else s
    case ReadHash(session, key) =>
      if s.phase.Between?
      then s.(phase := Holding(session, key, ReadConversation(s.counters, key), false, false), landed := NONE)
      else s
    case AddUps =>
      if s.phase.Holding? && !s.phase.upDone then Add(s, true).(phase := s.phase.(upDone := true)) else s
    case AddDowns =>
      if s.phase.Holding? && s.phase.upDone && !s.phase.downDone
      then Add(s, false).(phase := s.phase.(downDone := true)) else s
    case DeleteHash =>
      if s.phase.Holding? && s.phase.upDone && s.phase.downDone then
        s.(counters := s.counters.(conversations := s.counters.conversations - {s.phase.key}),
           phase := Between,
           lost := Plus(s.lost, s.landed),
           landed := NONE)
      else s
  }

  function Run(actions: seq<Action>): Race {
    if actions == [] then START else Next(Run(actions[..|actions| - 1]), actions[|actions| - 1])
  }

  // ---------------------------------------------------------------------------
  // The books
  // ---------------------------------------------------------------------------

  /** The votes of the held key already added to their target but not yet deleted at their source. */
  function Copied(s: Race, up: bool): nat {
    if s.phase.Holding? && (if up then s.phase.upDone else s.phase.downDone) then Count(s.phase.read.votes, up) else 0
  }

  /** A rating between its two votes. */
  function HalfSentBy(p: Sending, up: bool): nat {
    if p.next != Vote && p.next != Done && (if up then p.rating > 0 else p.rating < 0) then 1 else 0
  }

  /** The votes that have reached a conversation but not yet its session. */
  function HalfSent(sending: seq<Sending>, up: bool): nat {
    if sending == [] then 0 else HalfSent(sending[..|sending| - 1], up) + HalfSentBy(sending[|sending| - 1], up)
  }

  /**
   The books of the race. Everything counted and everything swept away is the votes sent, twice each but for the
   half-sent ones, and what is held twice; the sessions hold their votes and what was misfiled.
   */
  ghost predicate Balanced(s: Race, up: bool) {
    && Everywhere(s.counters, up) + Count(s.lost, up)
       == Count(s.recorded, up) + Count(s.settled, up) + Copied(s, up)
    && InSessions(s.counters, up) == Count(s.settled, up) + Count(s.misfiled, up)
    && Count(s.recorded, up) == Count(s.settled, up) + HalfSent(s.sending, up)
  }

  /** The held hash contains what was read and what has landed since. */
  predicate Tracked(s: Race, up: bool) {
    s.phase.Holding? ==>
      Count(ReadConversation(s.counters, s.phase.key).votes, up) == Count(s.phase.read.votes, up) + Count(s.landed, up)
  }

  lemma {:induction false} HalfSentUpdate(sending: seq<Sending>, i: nat, p: Sending, up: bool)
    requires i < |sending|
    ensures HalfSent(sending[i := p], up) == HalfSent(sending, up) - HalfSentBy(sending[i], up) + HalfSentBy(p, up)
    decreases |sending|
  {
    var n := |sending| - 1;
    if i < n {
      HalfSentUpdate(sending[..n], i, p, up);
      assert sending[i := p][..n] == sending[..n][i := p];
    } else {
      assert sending[i := p][..n] == sending[..n];
    }
  }

  lemma CommandAddsToConversation(s: Counters, p: Sending, up: bool)
    ensures InConversations(SendCommand(s, p), up) == InConversations(s, up) + Count(VotesAt(p, Vote), up)
  {
    hide Total;
    ConversationUpdate(s.conversations, p.key, SentConversation(ReadConversation(s, p.key), p), up);
  }

  lemma CommandAddsToSession(s: Counters, p: Sending, up: bool)
    ensures InSessions(SendCommand(s, p), up) == InSessions(s, up) + Count(VotesAt(p, SessionVote), up)
  {
    hide Total;
    SessionUpdate(s.sessions, p.key.session, SentSession(ReadSession(s, p.key.session), p), up);
  }

  lemma CommandSparesVariants(s: Counters, p: Sending, up: bool)
    ensures InVariants(SendCommand(s, p), up) == InVariants(s, up)
  {
    hide Total;
  }

  lemma CommandReaches(s: Counters, p: Sending, up: bool)
    ensures var s' := SendCommand(s, p);
            && Count(ReadConversation(s', p.key).votes, up)
               == Count(ReadConversation(s, p.key).votes, up) + Count(VotesAt(p, Vote), up)
            && forall key | key != p.key :: ReadConversation(s', key) == ReadConversation(s, key)
  {
  }

  lemma SendKeepsBooks(s: Race, i: nat, up: bool)
    requires Balanced(s, up) && Tracked(s, up)
    ensures Balanced(Next(s, Send(i)), up) && Tracked(Next(s, Send(i)), up)
  {
    hide InConversations, InVariants, InSessions, SendCommand, HalfSent;
    if i < |s.sending| {
      var p := s.sending[i];
      CommandAddsToConversation(s.counters, p, up);
      CommandAddsToSession(s.counters, p, up);
      CommandSparesVariants(s.counters, p, up);
      CommandReaches(s.counters, p, up);
      HalfSentUpdate(s.sending, i, p.(next := Following(p.next)), up);
    }
  }

  lemma StartKeepsBooks(s: Race, a: Action, up: bool)
    requires a.Start? && Balanced(s, up) && Tracked(s, up)
    ensures Balanced(Next(s, a), up) && Tracked(Next(s, a), up)
  {
    hide Everywhere, InSessions, HalfSent, RatingVotes, ReadConversation;
    if a.conversationId != "" {
      var p := Sending(ConversationKey(a.session, a.conversationId), a.variantId, a.rating, a.comment, Vote);
      HalfSentAppend(s.sending, p, up);
    }
  }

  lemma HalfSentAppend(sending: seq<Sending>, p: Sending, up: bool)
    ensures HalfSent(sending + [p], up) == HalfSent(sending, up) + HalfSentBy(p, up)
  {
    assert (sending + [p])[..|sending|] == sending;
  }

  lemma AddKeepsBooks(s: Race, a: Action, up: bool)
    requires (a.AddUps? || a.AddDowns?) && Balanced(s, up) && Tracked(s, up)
    ensures Balanced(Next(s, a), up) && Tracked(Next(s, a), up)
  {
    hide InConversations, InVariants, InSessions, Bump;
    if s.phase.Holding? {
      BumpMoves(s.counters, s.phase.session, s.phase.read.variantId, Adding(s.phase, a.AddUps?), up);
    }
  }

  lemma BumpMoves(s: Counters, session: SessionRef, variantId: string, v: Votes, up: bool)
    ensures var s' := Bump(s, session, variantId, v);
            && s'.conversations == s.conversations
            && Everywhere(s', up) == Everywhere(s, up) + Count(v, up)
            && InSessions(s', up) == InSessions(s, up) + (if variantId == "" then Count(v, up) else 0)
  {
    hide InVariants, InSessions, Bump;
    BumpAdds(s, session, variantId, v, up);
  }

  lemma DeleteKeepsBooks(s: Race, up: bool)
    requires Balanced(s, up) && Tracked(s, up)
    ensures Balanced(Next(s, DeleteHash), up) && Tracked(Next(s, DeleteHash), up)
  {
    hide Total;
    if s.phase.Holding? {
      ConversationUpdate(s.counters.conversations, s.phase.key, s.phase.read, up);
    }
  }

  lemma StepKeepsBooks(s: Race, a: Action, up: bool)
    requires Balanced(s, up) && Tracked(s, up)
    ensures Balanced(Next(s, a), up) && Tracked(Next(s, a), up)
  {
    hide Everywhere, InSessions, HalfSent;
    match a
    case Start(_, _, _, _, _) => StartKeepsBooks(s, a, up);
    case Send(i) => SendKeepsBooks(s, i, up);
    case ReadHash(_, _) =>
    case AddUps => AddKeepsBooks(s, a, up);
    case AddDowns => AddKeepsBooks(s, a, up);
    case DeleteHash => DeleteKeepsBooks(s, up);
  }

  lemma {:induction false} RunKeepsBooks(actions: seq<Action>, up: bool)
    ensures Balanced(Run(actions), up) && Tracked(Run(actions), up)
  {
    hide Next, Tracked, Balanced;
    if actions == [] {
      StartBalanced(up);
    } else {
      RunKeepsBooks(actions[..|actions| - 1], up);
      StepKeepsBooks(Run(actions[..|actions| - 1]), actions[|actions| - 1], up);
    }
  }

  lemma StartBalanced(up: bool)
    ensures Balanced(START, up) && Tracked(START, up)
  {
    hide InConversations, InVariants, InSessions;
    NothingCounted(up);
  }

  /**
   At every moment of every interleaving, variants named or not: the votes in variants and conversations, less those
   copied but not yet deleted, fall short of the votes recorded by exactly those that landed between a key's read and
   its delete and those misfiled to a session; so they never exceed them.
   */
  lemma ShortfallIsWhatLanded(actions: seq<Action>, up: bool)
    ensures var s := Run(actions);
            var visible := InConversations(s.counters, up) + InVariants(s.counters, up) - Copied(s, up);
            && visible + Count(s.lost, up) + Count(s.misfiled, up) == Count(s.recorded, up)
            && visible <= Count(s.recorded, up)
  {
    hide Run, InConversations, InVariants, InSessions, Copied, HalfSent;
    RunKeepsBooks(actions, up);
  }

  // ---------------------------------------------------------------------------
  // Exactly when nothing goes missing
  // ---------------------------------------------------------------------------

  /** The votes a command finds without a variant, when it is the read that opens a turn. */
  function UnnamedMet(s: Race, a: Action, up: bool): nat {
    if a.ReadHash? && s.phase.Between? then SweptBy(s.counters, a.key, up) else 0
  }

  predicate Deletes(s: Race, a: Action) {
    a.DeleteHash? && s.phase.Holding? && s.phase.upDone && s.phase.downDone
  }

  /** The votes a command sweeps away, when it is the delete that closes a turn: those beyond what the turn read. */
  function SweptAway(s: Race, a: Action, up: bool): int {
    if Deletes(s, a)
    then Count(ReadConversation(s.counters, s.phase.key).votes, up) - Count(s.phase.read.votes, up) else 0
  }

  /** The votes the held turn read without a variant and has yet to book. */
  function Doomed(s: Race, up: bool): nat {
    if s.phase.Holding? && s.phase.read.variantId == "" && !(if up then s.phase.upDone else s.phase.downDone)
    then Count(s.phase.read.votes, up) else 0
  }

  function AllUnnamedMet(actions: seq<Action>, up: bool): nat {
    if actions == [] then 0
    else
      var before := actions[..|actions| - 1];
      AllUnnamedMet(before, up) + UnnamedMet(Run(before), actions[|actions| - 1], up)
  }

  function AllSweptAway(actions: seq<Action>, up: bool): int {
    if actions == [] then 0
    else
      var before := actions[..|actions| - 1];
      AllSweptAway(before, up) + SweptAway(Run(before), actions[|actions| - 1], up)
  }

  lemma StepMisfiles(s: Race, a: Action, up: bool)
    ensures Count(Next(s, a).misfiled, up) + Doomed(Next(s, a), up)
            == Count(s.misfiled, up) + Doomed(s, up) + UnnamedMet(s, a, up)
  {
    hide Bump, SendCommand, ReadConversation;
  }

  lemma StepLoses(s: Race, a: Action, up: bool)
    requires Tracked(s, up)
    ensures Count(Next(s, a).lost, up) == Count(s.lost, up) + SweptAway(s, a, up) && SweptAway(s, a, up) >= 0
  {
    hide Bump, SendCommand, ReadConversation;
  }

  /** What is misfiled was met without a variant by a read; what is lost was found by a delete beyond what was read. */
  lemma {:induction false} MissingWasMet(actions: seq<Action>, up: bool)
    ensures Count(Run(actions).misfiled, up) + Doomed(Run(actions), up) == AllUnnamedMet(actions, up)
    ensures Count(Run(actions).lost, up) == AllSweptAway(actions, up)
  {
    hide Next, UnnamedMet, SweptAway, Doomed, Balanced, Tracked;
    if actions == [] {
      NothingMissingYet(up);
    } else {
      var before, a := actions[..|actions| - 1], actions[|actions| - 1];
      MissingWasMet(before, up);
      RunKeepsBooks(before, up);
      StepMisfiles(Run(before), a, up);
      StepLoses(Run(before), a, up);
    }
  }

  lemma NothingMissingYet(up: bool)
    ensures Count(START.misfiled, up) == Count(START.lost, up) == Doomed(START, up) == 0
  {
  }

  /** Every turn reads named votes only, and deletes no more than it read. */
  ghost predicate Undisturbed(actions: seq<Action>, up: bool) {
    actions != [] ==>
      var before, a := actions[..|actions| - 1], actions[|actions| - 1];
      var s := Run(before);
      && Undisturbed(before, up)
      && (a.ReadHash? && s.phase.Between? ==> SweptBy(s.counters, a.key, up) == 0)
      && (Deletes(s, a) ==>
            Count(ReadConversation(s.counters, s.phase.key).votes, up) == Count(s.phase.read.votes, up))
  }

  lemma {:induction false} UndisturbedMeetsNothing(actions: seq<Action>, up: bool)
    ensures Undisturbed(actions, up) <==> AllUnnamedMet(actions, up) == 0 && AllSweptAway(actions, up) == 0
    ensures AllSweptAway(actions, up) >= 0
  {
    hide Next, SweptBy, ReadConversation, Balanced, Tracked;
    if actions != [] {
      var before, a := actions[..|actions| - 1], actions[|actions| - 1];
      UndisturbedMeetsNothing(before, up);
      RunKeepsBooks(before, up);
      StepLoses(Run(before), a, up);
    }
  }

  /**
   At every moment of every interleaving, all votes recorded are in variants and conversations, and none is about to be
   misfiled, exactly when every turn so far read named votes only and deleted no more than it read. Both can be seen in
   the hash as the command meets it.
   */
  lemma NothingMissingIffUndisturbed(actions: seq<Action>, up: bool)
    ensures var s := Run(actions);
            var visible := InConversations(s.counters, up) + InVariants(s.counters, up) - Copied(s, up);
            visible == Count(s.recorded, up) && Doomed(s, up) == 0 <==> Undisturbed(actions, up)
  {
    hide Run, InConversations, InVariants, InSessions, Copied, Doomed, AllUnnamedMet, AllSweptAway, Undisturbed;
    ShortfallIsWhatLanded(actions, up);
    MissingWasMet(actions, up);
    UndisturbedMeetsNothing(actions, up);
  }

  // ---------------------------------------------------------------------------
  // What can be misfiled when every rating names its variant
  // ---------------------------------------------------------------------------

  ghost predicate AllRatingsNamed(actions: seq<Action>) {
    forall i | 0 <= i < |actions| && actions[i].Start? :: actions[i].variantId != ""
  }

  /** A rating has sent its vote to the conversation but not its variant. */
  predicate HalfNamed(sending: seq<Sending>, key: ConversationKey) {
    exists i :: 0 <= i < |sending| && sending[i].key == key && sending[i].next == Name
  }

  ghost predicate NamedOrHalf(s: Race) {
    && (forall i | 0 <= i < |s.sending| :: s.sending[i].variantId != "")
    && (forall key | key in s.counters.conversations ::
          var c := s.counters.conversations[key];
          c.variantId != "" || c.votes == NONE || HalfNamed(s.sending, key))
  }

  lemma SendKeepsNamed(s: Race, i: nat)
    requires NamedOrHalf(s)
    ensures NamedOrHalf(Next(s, Send(i)))
  {
    if i < |s.sending| {
      var s', p := Next(s, Send(i)), s.sending[i];
      assert s'.sending[i] == p.(next := Following(p.next));
      forall key | key in s'.counters.conversations
        ensures var c := s'.counters.conversations[key];
                c.variantId != "" || c.votes == NONE || HalfNamed(s'.sending, key)
      {
        if HalfNamed(s.sending, key) {
          var j :| 0 <= j < |s.sending| && s.sending[j].key == key && s.sending[j].next == Name;
          assert j != i ==> s'.sending[j] == s.sending[j];
        }
      }
    }
  }

  lemma StepKeepsNamed(s: Race, a: Action)
    requires NamedOrHalf(s) && (a.Start? ==> a.variantId != "")
    ensures NamedOrHalf(Next(s, a))
  {
    hide Bump;
    if a.Send? {
      SendKeepsNamed(s, a.i);
    } else if a.Start? {
      forall key | HalfNamed(s.sending, key)
        ensures HalfNamed(Next(s, a).sending, key)
      {
        var j :| 0 <= j < |s.sending| && s.sending[j].key == key && s.sending[j].next == Name;
        assert Next(s, a).sending[j] == s.sending[j];
      }
    } else if (a.AddUps? || a.AddDowns?) && s.phase.Holding? {
      BumpAdds(s.counters, s.phase.session, s.phase.read.variantId, Adding(s.phase, a.AddUps?), true);
    }
  }

  /** When every rating names its variant, a conversation holds votes without one only while a rating is half-named. */
  lemma {:induction false} UnnamedMeansHalfNamed(actions: seq<Action>)
    requires AllRatingsNamed(actions)
    ensures NamedOrHalf(Run(actions))
  {
    hide Next, NamedOrHalf;
    if actions == [] {
      NothingUnnamed();
    } else {
      var before, a := actions[..|actions| - 1], actions[|actions| - 1];
      assert a == actions[|actions| - 1];
      UnnamedMeansHalfNamed(before);
      StepKeepsNamed(Run(before), a);
    }
  }

  lemma NothingUnnamed()
    ensures NamedOrHalf(START)
  {
  }

  /** No turn of the run reads a conversation while a rating of it is half-named. */
  ghost predicate ReadsWhole(actions: seq<Action>) {
    actions != [] ==>
      var before, a := actions[..|actions| - 1], actions[|actions| - 1];
      ReadsWhole(before) && (a.ReadHash? ==> !HalfNamed(Run(before).sending, a.key))
  }

  /** Nothing is misfiled, nor about to be. */
  predicate NothingMisfiled(s: Race) {
    && s.misfiled == NONE
    && (s.phase.Holding? ==> s.phase.read.variantId != "" || s.phase.read.votes == NONE)
  }

  /** What the held turn read without a variant and has booked is among the misfiled votes. */
  predicate BookedIsMisfiled(s: Race, up: bool) {
    s.phase.Holding? && s.phase.read.variantId == "" && (if up then s.phase.upDone else s.phase.downDone) ==>
      Count(s.misfiled, up) >= Count(s.phase.read.votes, up)
  }

  lemma StepKeepsBooked(s: Race, a: Action, up: bool)
    requires BookedIsMisfiled(s, up)
    ensures BookedIsMisfiled(Next(s, a), up)
  {
    hide Bump, SendCommand, ReadConversation;
  }

  lemma {:induction false} RunKeepsBooked(actions: seq<Action>, up: bool)
    ensures BookedIsMisfiled(Run(actions), up)
  {
    hide Next;
    if actions != [] {
      RunKeepsBooked(actions[..|actions| - 1], up);
      StepKeepsBooked(Run(actions[..|actions| - 1]), actions[|actions| - 1], up);
    }
  }

  /** Every read that opens a turn finds a variant, or no votes. */
  ghost predicate ReadsNamed(actions: seq<Action>) {
    actions != [] ==>
      var before, a := actions[..|actions| - 1], actions[|actions| - 1];
      var s := Run(before);
      && ReadsNamed(before)
      && (a.ReadHash? && s.phase.Between? ==>
            ReadConversation(s.counters, a.key).variantId != "" || ReadConversation(s.counters, a.key).votes == NONE)
  }

  lemma {:induction false} ReadsNamedMeetsNothing(actions: seq<Action>)
    ensures ReadsNamed(actions) <==> AllUnnamedMet(actions, true) == 0 && AllUnnamedMet(actions, false) == 0
  {
    hide Next, ReadConversation;
    if actions != [] {
      ReadsNamedMeetsNothing(actions[..|actions| - 1]);
    }
  }

  lemma NothingMisfiledByCounts(s: Race)
    requires BookedIsMisfiled(s, true) && BookedIsMisfiled(s, false)
    ensures NothingMisfiled(s)
            <==> forall up :: Count(s.misfiled, up) + Doomed(s, up) == 0
  {
    assert s.misfiled == NONE <==> Count(s.misfiled, true) == 0 && Count(s.misfiled, false) == 0;
    assert Count(s.misfiled, true) + Doomed(s, true) == 0 && Count(s.misfiled, false) + Doomed(s, false) == 0 ==>
        forall up :: Count(s.misfiled, up) + Doomed(s, up) == 0;
  }

  /** In every interleaving, nothing is misfiled or about to be exactly when every turn read named votes only. */
  lemma NothingMisfiledIffReadsNamed(actions: seq<Action>)
    ensures NothingMisfiled(Run(actions)) <==> ReadsNamed(actions)
  {
    hide Run, NothingMisfiled, BookedIsMisfiled, ReadsNamed, AllUnnamedMet, AllSweptAway, Doomed;
    ReadsNamedMeetsNothing(actions);
    MissingWasMet(actions, true);
    MissingWasMet(actions, false);
    RunKeepsBooked(actions, true);
    RunKeepsBooked(actions, false);
    NothingMisfiledByCounts(Run(actions));
  }

  /** In particular, when every rating names its variant and no key is read while a rating of it is half-named. */
  lemma WholeReadsMisfileNothing(actions: seq<Action>)
    requires AllRatingsNamed(actions) && ReadsWhole(actions)
    ensures NothingMisfiled(Run(actions))
  {
    WholeReadsAreNamed(actions);
    NothingMisfiledIffReadsNamed(actions);
  }

  lemma {:induction false} WholeReadsAreNamed(actions: seq<Action>)
    requires AllRatingsNamed(actions) && ReadsWhole(actions)
    ensures ReadsNamed(actions)
  {
    hide Next, HalfNamed;
    if actions != [] {
      var before := actions[..|actions| - 1];
      assert forall i | 0 <= i < |before| :: before[i] == actions[i];
      WholeReadsAreNamed(before);
      UnnamedMeansHalfNamed(before);
    }
  }

  // ---------------------------------------------------------------------------
  // Whole ratings and whole turns
  // ---------------------------------------------------------------------------

  /** The four commands of a turn, with one action between the read and the first addition. */
  function Turn(s: Race, session: SessionRef, key: ConversationKey, between: Action): Race {
    Next(Next(Next(Next(Next(s, ReadHash(session, key)), between), AddUps), AddDowns), DeleteHash)
  }

  /** A turn runs its course whatever is sent meanwhile: what it read is booked, and what landed since is lost. */
  lemma TurnRunsThrough(s: Race, session: SessionRef, key: ConversationKey, i: nat)
    requires s.phase.Between?
    ensures var vals := ReadConversation(s.counters, key);
            var end := Turn(s, session, key, Send(i));
            && end.phase.Between?
            && end.misfiled == (if vals.variantId == "" then Plus(s.misfiled, vals.votes) else s.misfiled)
            && end.lost == if i < |s.sending| && s.sending[i].key == key
                           then Plus(s.lost, VotesAt(s.sending[i], Vote)) else Plus(s.lost, NONE)
  {
    hide Bump, SendCommand, ReadConversation, VotesAt;
    var vals := ReadConversation(s.counters, key);
    var s1 := Next(s, ReadHash(session, key));
    var s2 := Next(s1, Send(i));
    assert s1.sending == s.sending && s1.landed == NONE && s1.lost == s.lost && s1.misfiled == s.misfiled;
    assert s2.phase == s1.phase == Holding(session, key, vals, false, false);
    assert s2.misfiled == s.misfiled && s2.lost == s.lost;
    var s3 := Next(s2, AddUps);
    assert s3.phase == Holding(session, key, vals, true, false) && s3.lost == s.lost && s3.landed == s2.landed;
    var s4 := Next(s3, AddDowns);
    assert s4.phase == Holding(session, key, vals, true, true) && s4.lost == s.lost && s4.landed == s2.landed;
  }

  /** The shortfall is real: a vote for a key that a turn holds is lost when the turn ends, whatever came before. */
  lemma RatingDuringTurnIsLost(s: Race, i: nat, up: bool)
    requires s.phase.Between? && i < |s.sending| && s.sending[i].next == Vote
    ensures var p := s.sending[i];
            var end := Turn(s, p.key.session, p.key, Send(i));
            && end.phase.Between?
            && Count(end.lost, up)
               == Count(s.lost, up) + if up then (if p.rating > 0 then 1 else 0) else (if p.rating < 0 then 1 else 0)
  {
    hide Turn;
    TurnRunsThrough(s, s.sending[i].key.session, s.sending[i].key, i);
  }

  /** A turn books the votes it read to the session when it read no variant with them, whatever is sent meanwhile. */
  lemma TurnMisfilesUnnamed(s: Race, session: SessionRef, key: ConversationKey, i: nat)
    requires s.phase.Between?
    ensures var vals := ReadConversation(s.counters, key);
            var end := Turn(s, session, key, Send(i));
            && end.phase.Between?
            && end.misfiled == if vals.variantId == "" then Plus(s.misfiled, vals.votes) else s.misfiled
  {
    hide Turn;
    TurnRunsThrough(s, session, key, i);
  }

  /** And so is misfiling: a turn that reads a conversation between a rating's vote and its name books it to the session. */
  lemma HalfNamedIsMisfiled(s: Race, i: nat)
    requires s.phase.Between? && i < |s.sending| && s.sending[i].next == Vote
    requires s.sending[i].key !in s.counters.conversations
    ensures var p := s.sending[i];
            Turn(Next(s, Send(i)), p.key.session, p.key, Send(i)).misfiled == Plus(s.misfiled, VotesAt(p, Vote))
  {
    hide Turn;
    var p := s.sending[i];
    var vals := ReadConversation(Next(s, Send(i)).counters, p.key);
    assert vals.votes == VotesAt(p, Vote) && vals.variantId == "";
    TurnMisfilesUnnamed(Next(s, Send(i)), p.key.session, p.key, i);
  }

  /** Left alone, the four commands of a turn do what the sequential rollup does to that key. */
  lemma QuietTurnIsRollupKey(s: Race, session: SessionRef, key: ConversationKey)
    requires s.phase.Between?
    ensures var end := Next(Next(Next(Next(s, ReadHash(session, key)), AddUps), AddDowns), DeleteHash);
            end.phase.Between? && end.counters == RollupKey(s.counters, session, key)
  {
    var vals := ReadConversation(s.counters, key);
    TwoBumps(s.counters, session, vals.variantId, vals.votes);
  }

  lemma TwoBumps(s: Counters, session: SessionRef, variantId: string, v: Votes)
    ensures Bump(Bump(s, session, variantId, Votes(v.up, 0)), session, variantId, Votes(0, v.down))
            == Bump(s, session, variantId, v)
  {
    var mid := Bump(s, session, variantId, Votes(v.up, 0));
    if variantId == "" {
      var h := ReadSession(s, session);
      assert ReadSession(mid, session).votes == Votes(h.votes.up + v.up, h.votes.down);
    } else {
      var w := VariantVotes(s, session, variantId);
      assert VariantVotes(mid, session, variantId) == Votes(w.up + v.up, w.down);
    }
  }

  /** The commands of a rating, one after the other. */
  function SendAll(s: Counters, p: Sending): Counters {
    var voted := SendCommand(s, p.(next := Vote));
    var named := SendCommand(voted, p.(next := Name));
    var commented := SendCommand(named, p.(next := Comment));
    var rated := SendCommand(commented, p.(next := Rated));
    SendCommand(rated, p.(next := SessionVote))
  }

  lemma SecondWriteWins<K, V>(m: map<K, V>, k: K, v: V, w: V)
    ensures m[k := v][k := w] == m[k := w]
  {
  }

  lemma NoVotes(v: Votes)
    ensures Plus(v, NONE) == v
  {
  }

  /** Each command overwrites the hash with one more field set, or has nothing to set. */
  lemma ConversationIsRated(m: map<ConversationKey, ConversationHash>, p: Sending)
    ensures var c := if p.key in m then m[p.key] else ConversationHash(NONE, "", "");
            var voted := ConversationsAfter(m, p.(next := Vote));
            var named := ConversationsAfter(voted, p.(next := Name));
            ConversationsAfter(named, p.(next := Comment))
            == m[p.key := RatedConversation(c, p.variantId, p.rating, p.comment)]
  {
    hide RatingVotes, Plus;
    var k, v := p.key, RatingVotes(p.rating);
    var c := if k in m then m[k] else ConversationHash(NONE, "", "");
    var c1 := ConversationHash(Plus(c.votes, v), c.variantId, c.comment);
    var c2 := ConversationHash(c1.votes, p.variantId, c.comment);
    var m1 := ConversationsAfter(m, p.(next := Vote));
    NoVotes(c.votes);
    assert m1 == if v == NONE then m else m[k := c1];
    var m2 := ConversationsAfter(m1, p.(next := Name));
    assert m2 == m1[k := c2];
    SecondWriteWins(m, k, c1, c2);
    assert m2 == m[k := c2];
    var c3 := ConversationHash(c2.votes, c2.variantId, p.comment);
    SecondWriteWins(m, k, c2, c3);
    assert p.comment != "" ==> ConversationsAfter(m2, p.(next := Comment)) == m2[k := c3];
  }

  lemma SessionIsRated(m: map<SessionRef, SessionHash>, p: Sending)
    ensures var h := if p.key.session in m then m[p.key.session] else SessionHash(NONE, 0);
            SessionsAfter(SessionsAfter(m, p.(next := Rated)), p.(next := SessionVote))
            == m[p.key.session := RatedSession(h, p.rating)]
  {
    hide RatingVotes, Plus;
    var k, v := p.key.session, RatingVotes(p.rating);
    var h := if k in m then m[k] else SessionHash(NONE, 0);
    var h1 := SessionHash(h.votes, h.totalRated + 1);
    var h2 := SessionHash(Plus(h.votes, v), h.totalRated + 1);
    var m1 := SessionsAfter(m, p.(next := Rated));
    assert m1 == m[k := h1];
    NoVotes(h.votes);
    SecondWriteWins(m, k, h1, h2);
    assert v != NONE ==> SessionsAfter(m1, p.(next := SessionVote)) == m1[k := h2];
  }

  lemma OtherFamilySpared(s: Counters, p: Sending)
    ensures p.next == Vote || p.next == Name || p.next == Comment ==> SessionsAfter(s.sessions, p) == s.sessions
    ensures p.next == Rated || p.next == SessionVote ==> ConversationsAfter(s.conversations, p) == s.conversations
  {
  }

  /** Left alone, the commands of a rating do what the sequential RecordFeedback does. */
  lemma QuietRatingIsRecord(s: Counters, p: Sending)
    requires p.key.conversationId != ""
    ensures SendAll(s, p) == Record(s, p.key.session, p.key.conversationId, p.variantId, p.rating, p.comment)
  {
    hide ConversationsAfter, SessionsAfter, RatedConversation, RatedSession;
    ConversationIsRated(s.conversations, p);
    SessionIsRated(s.sessions, p);
    var voted := SendCommand(s, p.(next := Vote));
    OtherFamilySpared(s, p.(next := Vote));
    var named := SendCommand(voted, p.(next := Name));
    OtherFamilySpared(voted, p.(next := Name));
    var commented := SendCommand(named, p.(next := Comment));
    OtherFamilySpared(named, p.(next := Comment));
    OtherFamilySpared(commented, p.(next := Rated));
    OtherFamilySpared(SendCommand(commented, p.(next := Rated)), p.(next := SessionVote));
    assert ConversationKey(p.key.session, p.key.conversationId) == p.key;
  }

  /** The rating's next command is sent: it takes effect, and the one after it is next. */
  lemma SendAdvances(s: Race, n: nat, p: Sending)
    requires n < |s.sending| && s.sending[n] == p
    ensures var s' := Next(s, Send(n));
            && s'.counters == SendCommand(s.counters, p) && s'.phase == s.phase
            && s'.sending == s.sending[n := p.(next := Following(p.next))]
  {
  }

  /** A rating sent without interference, from its start to its last command, is one call of RecordFeedback. */
  lemma WholeRatingIsRecord(s: Race, a: Action)
    requires a.Start? && a.conversationId != ""
    ensures var n, started := |s.sending|, Next(s, a);
            var end := Next(Next(Next(Next(Next(started, Send(n)), Send(n)), Send(n)), Send(n)), Send(n));
            && end.counters == Record(s.counters, a.session, a.conversationId, a.variantId, a.rating, a.comment)
            && |end.sending| == n + 1 && end.sending[..n] == s.sending && end.sending[n].next == Done
  {
    hide Next, SendCommand, Record;
    var n, key := |s.sending|, ConversationKey(a.session, a.conversationId);
    var p := Sending(key, a.variantId, a.rating, a.comment, Vote);
    var s0 := Next(s, a);
    StartQueues(s, a);
    var s1, s2 := Next(s0, Send(n)), Next(Next(s0, Send(n)), Send(n));
    var s3, s4 := Next(s2, Send(n)), Next(Next(s2, Send(n)), Send(n));
    SendAdvances(s0, n, p);
    SendAdvances(s1, n, p.(next := Name));
    SendAdvances(s2, n, p.(next := Comment));
    SendAdvances(s3, n, p.(next := Rated));
    SendAdvances(s4, n, p.(next := SessionVote));
    QuietRatingIsRecord(s.counters, p);
  }

  lemma StartQueues(s: Race, a: Action)
    requires a.Start? && a.conversationId != ""
    ensures var p := Sending(ConversationKey(a.session, a.conversationId), a.variantId, a.rating, a.comment, Vote);
            Next(s, a) == s.(sending := s.sending + [p])
  {
  }
}
