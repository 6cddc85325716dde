/**
 The rolling log of a session and what becomes of it: the bounded list in Redis and the pairing of requests with
 responses (internal/store/redis/log.go), and the copy into Postgres (copyLogs in
 internal/optimizer/janitor/janitor.go, InsertConversationLog in internal/store/pg/store.go).
 */
module ConversationLogs {
  import opened Common
  import opened StoreTypes

  datatype Role = Request | Response

  datatype Entry = Entry(
    role: Role,
    conversationId: string,
    variantId: string,
    prompt: string,
    promptOriginal: string,
    promptSnippet: string,
    responseText: string,
    responseSnippet: string)

  // ---------------------------------------------------------------------------
  // The window
  // ---------------------------------------------------------------------------

  const WINDOW := 100

  /** LPUSH then LTRIM. */
  function Push(list: seq<Entry>, e: Entry): seq<Entry> {
    ([e] + list)[..Min(WINDOW, |list| + 1)]
  }

  function PushAll(entries: seq<Entry>): seq<Entry> {
    if entries == [] then [] else Push(PushAll(entries[..|entries| - 1]), entries[|entries| - 1])
  }

  /** After any sequence of logs the list is the newest hundred, newest first. */
  lemma {:induction false} WindowIsNewest(entries: seq<Entry>)
    ensures |PushAll(entries)| == Min(100, |entries|)
    ensures forall i | 0 <= i < |PushAll(entries)| :: PushAll(entries)[i] == entries[|entries| - 1 - i]
  {
    if entries != [] {
      WindowIsNewest(entries[..|entries| - 1]);
    }
  }

  /** LRANGE 0 stop, where a negative stop counts from the end. */
  function Range(list: seq<Entry>, stop: int): seq<Entry> {
    if stop >= 0 then list[..Min(stop + 1, |list|)]
    else if |list| + stop + 1 <= 0 then []
    else list[..|list| + stop + 1]
  }

  class RedisLog {
    var entries: seq<Entry>

    constructor ()
      ensures entries == []
    {
      entries := [];
    }

    method LogRequest(conversationId: string, variantId: string, snippet: string, prompt: string, original: string)
      modifies this
      ensures entries == Push(old(entries), Entry(Request, conversationId, variantId, prompt, original, snippet, "", ""))
    {
      entries := [Entry(Request, conversationId, variantId, prompt, original, snippet, "", "")] + entries;
      entries := Range(entries, 99);
    }

    method LogResponse(conversationId: string, variantId: string, text: string, snippet: string)
      modifies this
      ensures entries == Push(old(entries), Entry(Response, conversationId, variantId, "", "", "", text, snippet))
    {
      entries := [Entry(Response, conversationId, variantId, "", "", "", text, snippet)] + entries;
      entries := Range(entries, 99);
    }

    method ReadConversationLogs(maxEntries: int) returns (m: map<string, Pair>)
      ensures m == Paired(Range(entries, maxEntries - 1))
    {
      m := PairUp(Range(entries, maxEntries - 1));
    }
  }

  /** A read of two hundred entries, which is what the janitor asks for, sees the whole window. */
  lemma JanitorReadsWholeWindow(entries: seq<Entry>)
    ensures Range(PushAll(entries), 200 - 1) == PushAll(entries)
  {
    WindowIsNewest(entries);
  }

  // ---------------------------------------------------------------------------
  // Pairing
  // ---------------------------------------------------------------------------

  datatype Pair = Pair(prompt: string, responseText: string, variantId: string)

  /** What a request offers as the prompt; a response offers none. */
  function PromptIn(e: Entry): string {
    if e.role != Request then ""
    else if e.promptOriginal != "" then e.promptOriginal
    else if e.prompt != "" then e.prompt
    else e.promptSnippet
  }

  function ResponseIn(e: Entry): string {
    if e.role != Response then ""
    else if e.responseText != "" then e.responseText
    else e.responseSnippet
  }

  function VariantIn(e: Entry): string { e.variantId }

  /** The first non-empty `f` of a conversation's entries; in a newest-first list, the newest. */
  function Newest(list: seq<Entry>, c: string, f: Entry -> string): string {
    if list == [] then ""
    else if list[0].conversationId == c && f(list[0]) != "" then f(list[0])
    else Newest(list[1..], c, f)
  }

  /** ... that is, the one nothing usable of its conversation precedes; empty exactly when no entry has anything. */
  lemma {:induction false} NewestIsFirstUsable(list: seq<Entry>, c: string, f: Entry -> string) returns (i: nat)
    ensures Newest(list, c, f) != "" ==>
              && i < |list| && list[i].conversationId == c && f(list[i]) == Newest(list, c, f)
              && forall j | 0 <= j < i && list[j].conversationId == c :: f(list[j]) == ""
    ensures Newest(list, c, f) == "" <==> forall j | 0 <= j < |list| && list[j].conversationId == c :: f(list[j]) == ""
  {
    i := 0;
    if list != [] && (list[0].conversationId != c || f(list[0]) == "") {
      var k := NewestIsFirstUsable(list[1..], c, f);
      i := k + 1;
      assert forall j | 1 <= j < |list| :: list[j] == list[1..][j - 1];
    }
  }

  /**
   The text an entry offers: a request its original prompt before the one forwarded before its snippet, a response its
   text before its snippet, and neither anything for the other side.
   */
  lemma PreferredText(e: Entry)
    ensures e.role == Request ==>
              && ResponseIn(e) == ""
              && (e.promptOriginal != "" ==> PromptIn(e) == e.promptOriginal)
              && (e.promptOriginal == "" && e.prompt != "" ==> PromptIn(e) == e.prompt)
              && (e.promptOriginal == e.prompt == "" ==> PromptIn(e) == e.promptSnippet)
    ensures e.role == Response ==>
              && PromptIn(e) == ""
              && (e.responseText != "" ==> ResponseIn(e) == e.responseText)
              && (e.responseText == "" ==> ResponseIn(e) == e.responseSnippet)
    ensures VariantIn(e) == e.variantId
  {
  }

  /** LRANGE from the head: the first entries for a positive number, all for the -1 that asking for none comes to. */
  lemma RangeIsHead(list: seq<Entry>, maxEntries: int)
    ensures maxEntries > 0 ==>
              |Range(list, maxEntries - 1)| == Min(maxEntries, |list|) && Range(list, maxEntries - 1) <= list
    ensures maxEntries == 0 ==> Range(list, maxEntries - 1) == list
    ensures maxEntries < 0 ==>
              Range(list, maxEntries - 1) == if |list| + maxEntries <= 0 then [] else list[..|list| + maxEntries]
  {
  }

  /** Every named conversation of the list is paired, and nothing else; prompt, response and variant are its newest. */
  lemma PairedIsNewest(list: seq<Entry>, c: string)
    ensures c in Paired(list) <==> c != "" && exists i :: 0 <= i < |list| && list[i].conversationId == c
    ensures c in Paired(list) ==>
              && Paired(list)[c].prompt == Newest(list, c, PromptIn)
              && Paired(list)[c].responseText == Newest(list, c, ResponseIn)
              && Paired(list)[c].variantId == Newest(list, c, VariantIn)
  {
    hide Newest;
    if c != "" {
      if i :| 0 <= i < |list| && list[i].conversationId == c {
        assert list[i] in list;
      }
    }
    if c in Paired(list) {
      var e :| e in list && e.conversationId == c;
      var i :| 0 <= i < |list| && list[i] == e;
    }
  }

  predicate Mentions(list: seq<Entry>, c: string) {
    exists i :: 0 <= i < |list| && list[i].conversationId == c
  }

  function PairOf(list: seq<Entry>, c: string): Pair {
    Pair(Newest(list, c, PromptIn), Newest(list, c, ResponseIn), Newest(list, c, VariantIn))
  }

  /** Every conversation of the list, entries without one aside, with its newest usable prompt, response and variant. */
  function Paired(list: seq<Entry>): map<string, Pair> {
    map e | e in list && e.conversationId != "" :: e.conversationId := PairOf(list, e.conversationId)
  }

  lemma {:induction false} NewestSnoc(list: seq<Entry>, k: nat, c: string, f: Entry -> string)
    requires k < |list|
    ensures Newest(list[..k + 1], c, f)
            == if Newest(list[..k], c, f) != "" then Newest(list[..k], c, f)
               else if list[k].conversationId == c then f(list[k]) else ""
    decreases k
  {
    if k == 0 {
      assert list[..1] == [list[0]];
    } else {
      NewestSnoc(list[1..], k - 1, c, f);
      assert list[..k + 1][1..] == list[1..][..k] && list[..k][1..] == list[1..][..k - 1];
    }
  }

  lemma PairSnoc(list: seq<Entry>, k: nat, c: string)
    requires k < |list|
    ensures var p, e := PairOf(list[..k], c), list[k];
            PairOf(list[..k + 1], c)
            == if e.conversationId != c then p
               else Pair(
                 if p.prompt != "" then p.prompt else PromptIn(e),
                 if p.responseText != "" then p.responseText else ResponseIn(e),
                 if p.variantId != "" then p.variantId else e.variantId)
  {
    hide Newest, PromptIn, ResponseIn;
    NewestSnoc(list, k, c, PromptIn);
    NewestSnoc(list, k, c, ResponseIn);
    NewestSnoc(list, k, c, VariantIn);
  }

  lemma {:induction false} NewestUnmentioned(list: seq<Entry>, c: string, f: Entry -> string)
    requires !Mentions(list, c)
    ensures Newest(list, c, f) == ""
  {
    if list != [] {
      assert list[0].conversationId != c;
      assert forall i | 0 <= i < |list[1..]| :: list[1..][i] == list[i + 1];
      NewestUnmentioned(list[1..], c, f);
    }
  }

  /** The map built so far is the pairing of the entries seen so far. */
  ghost predicate PairsUpTo(list: seq<Entry>, k: nat, m: map<string, Pair>)
    requires k <= |list|
  {
    && (forall c :: c in m <==> c != "" && Mentions(list[..k], c))
    && (forall c | c in m :: m[c] == PairOf(list[..k], c))
  }

  /** What the loop does with one entry. */
  function Updated(m: map<string, Pair>, e: Entry): map<string, Pair> {
    if e.conversationId == "" then m
    else
      var p := if e.conversationId in m then m[e.conversationId] else Pair("", "", e.variantId);
      m[e.conversationId := Pair(
        if p.prompt != "" then p.prompt else PromptIn(e),
        if p.responseText != "" then p.responseText else ResponseIn(e),
        if p.variantId != "" then p.variantId else e.variantId)]
  }

  lemma MentionsSnoc(list: seq<Entry>, k: nat, c: string)
    requires k < |list|
    ensures Mentions(list[..k + 1], c) <==> Mentions(list[..k], c) || list[k].conversationId == c
  {
    if Mentions(list[..k], c) {
      var i :| 0 <= i < k && list[..k][i].conversationId == c;
      assert list[..k + 1][i].conversationId == c;
    }
    if list[k].conversationId == c {
      assert list[..k + 1][k].conversationId == c;
    }
    if Mentions(list[..k + 1], c) {
      var i :| 0 <= i < k + 1 && list[..k + 1][i].conversationId == c;
      if i < k {
        assert list[..k][i].conversationId == c;
      }
    }
  }

  lemma PairsGrow(list: seq<Entry>, k: nat, m: map<string, Pair>)
    requires k < |list| && PairsUpTo(list, k, m)
    ensures PairsUpTo(list, k + 1, Updated(m, list[k]))
  {
    hide PairOf, Mentions, PromptIn, ResponseIn;
    var e, m' := list[k], Updated(m, list[k]);
    forall c
      ensures c in m' <==> c != "" && Mentions(list[..k + 1], c)
      ensures c in m' ==> m'[c] == PairOf(list[..k + 1], c)
    {
      MentionsSnoc(list, k, c);
      PairSnoc(list, k, c);
      if c == e.conversationId && c != "" && c !in m {
        FreshPair(list[..k], c);
      }
    }
  }

  lemma FreshPair(list: seq<Entry>, c: string)
    requires !Mentions(list, c)
    ensures PairOf(list, c) == Pair("", "", "")
  {
    NewestUnmentioned(list, c, PromptIn);
    NewestUnmentioned(list, c, ResponseIn);
    NewestUnmentioned(list, c, VariantIn);
  }

  lemma PairsDone(list: seq<Entry>, m: map<string, Pair>)
    requires PairsUpTo(list, |list|, m)
    ensures m == Paired(list)
  {
    hide PairOf;
    assert list[..|list|] == list;
    forall c
      ensures c in m <==> c in Paired(list)
    {
      if c in m {
        var i :| 0 <= i < |list| && list[i].conversationId == c;
        assert list[i] in list;
      }
      if e :| e in list && e.conversationId != "" && e.conversationId == c {
        var i :| 0 <= i < |list| && list[i] == e;
      }
    }
  }

  method PairUp(list: seq<Entry>) returns (m: map<string, Pair>)
    ensures m == Paired(list)
  {
    m := map[];
    for k := 0 to |list|
      invariant PairsUpTo(list, k, m)
    {
      PairsGrow(list, k, m);
      var entry := list[k];
      if entry.conversationId == "" {
        continue;
      }
      var p := if entry.conversationId in m then m[entry.conversationId] else Pair("", "", entry.variantId);
      var prompt, response, variant := p.prompt, p.responseText, p.variantId;
      if entry.role == Request && prompt == "" {
        prompt := if entry.promptOriginal != "" then entry.promptOriginal
                  else if entry.prompt != "" then entry.prompt else entry.promptSnippet;
      }
      if entry.role == Response && response == "" {
        response := if entry.responseText != "" then entry.responseText else entry.responseSnippet;
      }
      if variant == "" && entry.variantId != "" {
        variant := entry.variantId;
      }
      m := m[entry.conversationId := Pair(prompt, response, variant)];
    }
    PairsDone(list, m);
  }

  // ---------------------------------------------------------------------------
  // Requests and responses may overtake each other
  // ---------------------------------------------------------------------------

  function Only(list: seq<Entry>, role: Role): seq<Entry> {
    if list == [] then []
    else if list[0].role == role then [list[0]] + Only(list[1..], role)
    else Only(list[1..], role)
  }

  lemma {:induction false} NewestOfRole(list: seq<Entry>, c: string, f: Entry -> string, role: Role)
    requires forall e: Entry | e.role != role :: f(e) == ""
    ensures Newest(list, c, f) == Newest(Only(list, role), c, f)
  {
    if list != [] {
      NewestOfRole(list[1..], c, f, role);
      assert list[0].role == role ==> Only(list, role)[1..] == Only(list[1..], role);
    }
  }

  /** `other` holds the same requests in the same order and the same responses in the same order. */
  predicate SameButInterleaved(list: seq<Entry>, other: seq<Entry>) {
    Only(list, Request) == Only(other, Request) && Only(list, Response) == Only(other, Response)
  }

  lemma {:induction false} OnlyMembers(list: seq<Entry>)
    ensures forall e :: e in list <==> e in Only(list, Request) || e in Only(list, Response)
  {
    if list != [] {
      OnlyMembers(list[1..]);
      assert list == [list[0]] + list[1..];
    }
  }

  /** Logs are written concurrently; pairing does not care how requests and responses interleave. */
  lemma PairingIgnoresInterleaving(list: seq<Entry>, other: seq<Entry>, c: string)
    requires SameButInterleaved(list, other)
    ensures Paired(list).Keys == Paired(other).Keys
    ensures Newest(list, c, PromptIn) == Newest(other, c, PromptIn)
    ensures Newest(list, c, ResponseIn) == Newest(other, c, ResponseIn)
  {
    hide PairOf, Newest;
    NewestOfRole(list, c, PromptIn, Request);
    NewestOfRole(other, c, PromptIn, Request);
    NewestOfRole(list, c, ResponseIn, Response);
    NewestOfRole(other, c, ResponseIn, Response);
    OnlyMembers(list);
    OnlyMembers(other);
  }

  lemma {:induction false} OnlyOfConcat(a: seq<Entry>, b: seq<Entry>, role: Role)
    ensures Only(a + b, role) == Only(a, role) + Only(b, role)
  {
    if a == [] {
      assert a + b == b;
    } else {
      OnlyOfConcat(a[1..], b, role);
      assert (a + b)[1..] == a[1..] + b;
      Regroup(a[0], Only(a[1..], role), Only(b, role));
    }
  }

  lemma Regroup(e: Entry, a: seq<Entry>, b: seq<Entry>)
    ensures [e] + (a + b) == ([e] + a) + b
  {
  }

  lemma {:induction false} OnlyTwice(list: seq<Entry>, role: Role, other: Role)
    ensures Only(Only(list, role), other) == if role == other then Only(list, role) else []
  {
    if list != [] {
      OnlyTwice(list[1..], role, other);
      assert list[0].role == role ==> Only(list, role)[1..] == Only(list[1..], role);
    }
  }

  lemma {:induction false} NewestOfConcat(a: seq<Entry>, b: seq<Entry>, c: string, f: Entry -> string)
    ensures Newest(a + b, c, f) == if Newest(a, c, f) != "" then Newest(a, c, f) else Newest(b, c, f)
  {
    if a == [] {
      assert a + b == b;
    } else {
      NewestOfConcat(a[1..], b, c, f);
      assert (a + b)[1..] == a[1..] + b;
    }
  }

  /** The newest variant named by a request of the conversation, or by a response. */
  function NewestVariantIn(list: seq<Entry>, c: string, role: Role): string {
    Newest(Only(list, role), c, VariantIn)
  }

  /** The paired variant is the newest request's or the newest response's; whichever names one. */
  lemma {:induction false} VariantIsOneOfTwo(list: seq<Entry>, c: string)
    ensures var v, r, s := Newest(list, c, VariantIn), NewestVariantIn(list, c, Request), NewestVariantIn(list, c, Response);
            && (v == r || v == s)
            && (r == "" ==> v == s) && (s == "" ==> v == r)
  {
    if list != [] {
      VariantIsOneOfTwo(list[1..], c);
      assert list[0].role == Request ==> Only(list, Request)[1..] == Only(list[1..], Request);
      assert list[0].role == Response ==> Only(list, Response)[1..] == Only(list[1..], Response);
    }
  }

  /** All requests before all responses, or the other way round. */
  function Grouped(list: seq<Entry>, first: Role, second: Role): seq<Entry> {
    Only(list, first) + Only(list, second)
  }

  lemma GroupedIsInterleaving(list: seq<Entry>, c: string, first: Role, second: Role)
    requires first != second
    ensures SameButInterleaved(list, Grouped(list, first, second))
    ensures Newest(Grouped(list, first, second), c, VariantIn)
            == if NewestVariantIn(list, c, first) != "" then NewestVariantIn(list, c, first)
               else NewestVariantIn(list, c, second)
  {
    hide Newest, Only;
    var a, b := Only(list, first), Only(list, second);
    forall role: Role
      ensures Only(a + b, role) == Only(list, role)
    {
      OnlyOfConcat(a, b, role);
      OnlyTwice(list, first, role);
      OnlyTwice(list, second, role);
    }
    NewestOfConcat(a, b, c, VariantIn);
  }

  /**
   The paired variant does not: it is the same for every interleaving exactly when the newest request and the newest
   response that name a variant name the same one, or only one of the two kinds names any.
   */
  lemma VariantIgnoresInterleaving(list: seq<Entry>, c: string)
    ensures (forall other | SameButInterleaved(list, other) :: Newest(other, c, VariantIn) == Newest(list, c, VariantIn))
            <==> var r, s := NewestVariantIn(list, c, Request), NewestVariantIn(list, c, Response);
                 r == "" || s == "" || r == s
  {
    hide Newest, Only;
    GroupedIsInterleaving(list, c, Request, Response);
    GroupedIsInterleaving(list, c, Response, Request);
    VariantIsOneOfTwo(list, c);
    forall other | SameButInterleaved(list, other)
      ensures NewestVariantIn(other, c, Request) == NewestVariantIn(list, c, Request)
      ensures NewestVariantIn(other, c, Response) == NewestVariantIn(list, c, Response)
    {
    }
    forall other
      ensures var v, r, s :=
                Newest(other, c, VariantIn), NewestVariantIn(other, c, Request), NewestVariantIn(other, c, Response);
              (v == r || v == s) && (r == "" ==> v == s) && (s == "" ==> v == r)
    {
      VariantIsOneOfTwo(other, c);
    }
  }

  /** Such lists exist: two variants in one conversation, and the later arrival decides. */
  lemma VariantCanDependOnInterleaving(c: string, v: string, w: string) returns (list: seq<Entry>, other: seq<Entry>)
    requires v != "" && w != "" && v != w
    ensures SameButInterleaved(list, other)
    ensures Newest(list, c, VariantIn) != Newest(other, c, VariantIn)
  {
    var request := Entry(Request, c, v, "p", "", "", "", "");
    var response := Entry(Response, c, w, "", "", "", "r", "");
    list, other := [request, response], [response, request];
    assert list[1..] == [response] && other[1..] == [request];
    assert [response][1..] == [] && [request][1..] == [];
  }

  // ---------------------------------------------------------------------------
  // The archive
  // ---------------------------------------------------------------------------

  datatype Row = Row(variantId: Option<string>, prompt: Option<string>, responseText: Option<string>)

  function NilIfEmpty(s: string): Option<string> { if s == "" then None else Some(s) }

  function RowOf(p: Pair): Row {
    Row(NilIfEmpty(p.variantId), NilIfEmpty(p.prompt), NilIfEmpty(p.responseText))
  }

  predicate WorthStoring(p: Pair) { p.prompt != "" || p.responseText != "" }

  /** INSERT ... ON CONFLICT DO NOTHING. */
  function Insert(table: map<ConversationKey, Row>, key: ConversationKey, row: Row): map<ConversationKey, Row> {
    if key in table then table else table[key := row]
  }

  lemma InsertNeverOverwrites(table: map<ConversationKey, Row>, key: ConversationKey, row: Row, other: ConversationKey)
    ensures key in table ==> Insert(table, key, row) == table
    ensures key !in table ==> key in Insert(table, key, row) && Insert(table, key, row)[key] == row
    ensures other != key ==> (other in Insert(table, key, row) <==> other in table)
    ensures other != key && other in table ==> Insert(table, key, row)[other] == table[other]
  {
  }

  /** The keys a copy of `m` may insert, and the table after it. */
  function Offered(session: SessionRef, m: map<string, Pair>): map<ConversationKey, Row> {
    map c | c in m && WorthStoring(m[c]) :: ConversationKey(session, c) := RowOf(m[c])
  }

  function Archived(table: map<ConversationKey, Row>, session: SessionRef, m: map<string, Pair>): map<ConversationKey, Row> {
    Offered(session, m) + table
  }

  class LogTable {
    var rows: map<ConversationKey, Row>

    constructor ()
      ensures rows == map[]
    {
      rows := map[];
    }

    method InsertConversationLog(key: ConversationKey, p: Pair)
      modifies this
      ensures rows == Insert(old(rows), key, RowOf(p))
    {
      if key !in rows {
        rows := rows[key := RowOf(p)];
      }
    }

    /** One session's turn of copyLogs, in whatever order Go walks the pairs. */
    method CopyLogs(session: SessionRef, m: map<string, Pair>)
      modifies this
      ensures rows == Archived(old(rows), session, m)
    {
      ghost var was := rows;
      var todo := m.Keys;
      while todo != {}
        invariant todo <= m.Keys
        invariant forall key :: key in rows <==> key in was || (key in Offered(session, m) && key.conversationId !in todo)
        invariant forall key | key in rows :: rows[key] == if key in was then was[key] else Offered(session, m)[key]
        decreases todo
      {
        var c :| c in todo;
        todo := todo - {c};
        var p := m[c];
        if p.prompt == "" && p.responseText == "" {
          continue;
        }
        assert ConversationKey(session, c) in Offered(session, m);
        InsertConversationLog(ConversationKey(session, c), p);
      }
    }
  }

  /** Archiving twice is archiving once; no existing row changes; a row appears for exactly what was worth storing. */
  lemma ArchiveIsIdempotent(table: map<ConversationKey, Row>, session: SessionRef, m: map<string, Pair>)
    ensures Archived(Archived(table, session, m), session, m) == Archived(table, session, m)
    ensures forall key | key in table :: key in Archived(table, session, m) && Archived(table, session, m)[key] == table[key]
    ensures forall c :: ConversationKey(session, c) in Archived(table, session, m)
                        <==> ConversationKey(session, c) in table || (c in m && WorthStoring(m[c]))
  {
  }

  function ArchiveRounds(
    table: map<ConversationKey, Row>, session: SessionRef, copies: seq<map<string, Pair>>): map<ConversationKey, Row>
  {
    if copies == [] then table
    else Archived(ArchiveRounds(table, session, copies[..|copies| - 1]), session, copies[|copies| - 1])
  }

  /** The row archived for a new conversation holds its prompt, response and variant, an empty text as NULL. */
  lemma ArchivedRowIsPair(table: map<ConversationKey, Row>, session: SessionRef, m: map<string, Pair>, c: string)
    requires ConversationKey(session, c) !in table
    ensures var key, after := ConversationKey(session, c), Archived(table, session, m);
            && (key in after <==> c in m && (m[c].prompt != "" || m[c].responseText != ""))
            && (key in after ==>
                  && after[key].prompt == (if m[c].prompt == "" then None else Some(m[c].prompt))
                  && after[key].responseText == (if m[c].responseText == "" then None else Some(m[c].responseText))
                  && after[key].variantId == (if m[c].variantId == "" then None else Some(m[c].variantId)))
    ensures forall key | key !in table && key.session != session :: key !in Archived(table, session, m)
  {
  }

  /** The read offers something for the conversation. */
  predicate Offers(m: map<string, Pair>, c: string) { c in m && WorthStoring(m[c]) }

  lemma {:induction false} NothingOfferedNothingStored(
    table: map<ConversationKey, Row>, session: SessionRef, copies: seq<map<string, Pair>>, c: string)
    requires forall i | 0 <= i < |copies| :: !Offers(copies[i], c)
    ensures ConversationKey(session, c) in ArchiveRounds(table, session, copies) <==> ConversationKey(session, c) in table
  {
    if copies != [] {
      NothingOfferedNothingStored(table, session, copies[..|copies| - 1], c);
      ArchiveIsIdempotent(ArchiveRounds(table, session, copies[..|copies| - 1]), session, copies[|copies| - 1]);
      assert !Offers(copies[|copies| - 1], c);
    }
  }

  /** Over any rounds of copying, a conversation's row is what the first read with anything to store offered. */
  lemma {:induction false} FirstOfferWins(
    table: map<ConversationKey, Row>, session: SessionRef, copies: seq<map<string, Pair>>, c: string, n: nat)
    requires ConversationKey(session, c) !in table
    requires n < |copies| && Offers(copies[n], c) && forall i | 0 <= i < n :: !Offers(copies[i], c)
    ensures ConversationKey(session, c) in ArchiveRounds(table, session, copies)
    ensures ArchiveRounds(table, session, copies)[ConversationKey(session, c)] == RowOf(copies[n][c])
  {
    var last, key := |copies| - 1, ConversationKey(session, c);
    var before := ArchiveRounds(table, session, copies[..last]);
    ArchiveIsIdempotent(before, session, copies[last]);
    if n < last {
      FirstOfferWins(table, session, copies[..last], c, n);
    } else {
      NothingOfferedNothingStored(table, session, copies[..last], c);
      assert key in Offered(session, copies[last]);
    }
  }

  /**
   So a conversation copied before its response was logged stays without one: no later copy completes the row, and the
   optimiser, which asks for both, never sees the conversation.
   */
  lemma HalfRowStaysHalf(
    table: map<ConversationKey, Row>, session: SessionRef, copies: seq<map<string, Pair>>, c: string, n: nat)
    requires ConversationKey(session, c) !in table
    requires n < |copies| && Offers(copies[n], c) && forall i | 0 <= i < n :: !Offers(copies[i], c)
    ensures var key, after := ConversationKey(session, c), ArchiveRounds(table, session, copies);
            key in after &&
            var row := after[key];
            (row.prompt.Some? && row.responseText.Some?) <==> (copies[n][c].prompt != "" && copies[n][c].responseText != "")
  {
    FirstOfferWins(table, session, copies, c, n);
  }

  lemma PairOfTwo(newer: Entry, older: Entry, c: string, f: Entry -> string)
    requires newer.conversationId == older.conversationId == c
    ensures Newest([older], c, f) == f(older)
    ensures Newest([newer, older], c, f) == if f(newer) != "" then f(newer) else f(older)
  {
    assert [newer, older][1..] == [older];
    assert [older][1..] == [];
  }

  /** The usual way there: the janitor copies between a request and its response. */
  lemma CopiedBeforeResponse(session: SessionRef, c: string, request: Entry, response: Entry)
    requires c != "" && request.role == Request && request.conversationId == c && PromptIn(request) != ""
    requires response.role == Response && response.conversationId == c && ResponseIn(response) != ""
    ensures var early, late := Paired([request]), Paired([response, request]);
            var key, after := ConversationKey(session, c), ArchiveRounds(map[], session, [early, late]);
            && c in late && late[c].prompt != "" && late[c].responseText != ""
            && key in after && after[key].responseText == None
  {
    hide Newest, ArchiveRounds, PromptIn, ResponseIn;
    var early, late := Paired([request]), Paired([response, request]);
    PairOfTwo(response, request, c, PromptIn);
    PairOfTwo(response, request, c, ResponseIn);
    EmptySides(request, response);
    assert request in [request] && response in [response, request];
    assert early[c] == PairOf([request], c) && late[c] == PairOf([response, request], c);
    assert Offers(early, c);
    FirstOfferWins(map[], session, [early, late], c, 0);
  }

  lemma EmptySides(request: Entry, response: Entry)
    requires request.role == Request && response.role == Response
    ensures ResponseIn(request) == "" && PromptIn(response) == ""
  {
  }
}
