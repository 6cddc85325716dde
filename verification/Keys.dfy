/**
 Redis key names (internal/store/schema.go) and the code that takes them apart again: splitLogKey in
 internal/store/redis/log.go, the SCAN patterns of keys and ReadySessions in internal/store/redis/feedback.go.
 */
module Keys {
  import opened Common
  import opened StoreTypes
  import opened Glob

  const LOG_PREFIX := "pg:log:"
  const CONVERSATION_PREFIX := "pg:conversation_feedback:"

  function KeyLog(keyHash: string, sessionId: string): string {
    LOG_PREFIX + (keyHash + (":" + sessionId))
  }

  function KeySessionFeedback(keyHash: string, sessionId: string): string {
    "pg" + (":" + ("session_feedback" + (":" + (keyHash + (":" + sessionId)))))
  }

  /** The part of a conversation key before the conversation: the SCAN pattern without its trailing star. */
  function ConversationScope(keyHash: string, sessionId: string): string {
    CONVERSATION_PREFIX + (keyHash + (":" + (sessionId + ":")))
  }

  function KeyConversationFeedback(keyHash: string, sessionId: string, conversationId: string): string {
    ConversationScope(keyHash, sessionId) + conversationId
  }

  predicate NoColon(s: string) {
    ':' !in s
  }

  /** The position of the first colon, or the length when there is none. */
  function FirstColon(s: string): (n: nat)
    ensures n <= |s|
  {
    if s == "" || s[0] == ':' then 0 else 1 + FirstColon(s[1..])
  }

  lemma {:induction false} FirstColonAfter(a: string, b: string)
    requires NoColon(a)
    ensures FirstColon(a + (":" + b)) == |a|
  {
    if a == "" {
      assert a + (":" + b) == ":" + b;
    } else {
      assert a == [a[0]] + a[1..];
      FirstColonAfter(a[1..], b);
      assert (a + (":" + b))[1..] == a[1..] + (":" + b);
    }
  }

  lemma {:induction false} FirstColonIsFree(s: string)
    ensures NoColon(s[..FirstColon(s)])
    ensures FirstColon(s) < |s| ==> s[FirstColon(s)] == ':'
    ensures NoColon(s) ==> FirstColon(s) == |s|
  {
    if s != "" && s[0] != ':' {
      assert s == [s[0]] + s[1..];
      FirstColonIsFree(s[1..]);
      assert s[..FirstColon(s)] == [s[0]] + s[1..][..FirstColon(s[1..])];
    }
  }

  // ---------------------------------------------------------------------------
  // Log keys
  // ---------------------------------------------------------------------------

  function SplitLog(key: string): Option<SessionRef> {
    if |key| <= |LOG_PREFIX| then None
    else
      var rest := key[|LOG_PREFIX|..];
      var i := FirstColon(rest);
      if i < |rest| then Some(SessionRef(rest[..i], rest[i + 1..])) else None
  }

  method SplitLogKey(key: string) returns (ref: Option<SessionRef>)
    ensures ref == SplitLog(key)
  {
    if |key| <= |LOG_PREFIX| {
      return None;
    }
    var rest := key[|LOG_PREFIX|..];
    for i := 0 to |rest|
      invariant FirstColon(rest) == i + FirstColon(rest[i..])
    {
      if rest[i] == ':' {
        return Some(SessionRef(rest[..i], rest[i + 1..]));
      }
      assert rest[i..][1..] == rest[i + 1..];
    }
    return None;
  }

  /** A log key splits back into its session exactly when the key hash is free of colons, whatever the session id. */
  lemma SplitLogRoundTrip(keyHash: string, sessionId: string)
    ensures SplitLog(KeyLog(keyHash, sessionId)) == Some(SessionRef(keyHash, sessionId)) <==> NoColon(keyHash)
  {
    var rest := keyHash + (":" + sessionId);
    assert KeyLog(keyHash, sessionId)[|LOG_PREFIX|..] == rest;
    if NoColon(keyHash) {
      FirstColonAfter(keyHash, sessionId);
      assert rest[..|keyHash|] == keyHash && rest[|keyHash| + 1..] == sessionId;
    } else {
      FirstColonIsFree(rest);
      assert rest[..FirstColon(rest)] != keyHash;
    }
  }

  /** Whatever the key: a split is its text behind the prefix, cut at the first colon, and it fails without one. */
  lemma SplitLogInverts(key: string)
    ensures match SplitLog(key)
            case None => |key| <= 7 || NoColon(key[7..])
            case Some(ref) =>
              && |key| > 7 && NoColon(ref.keyHash) && key[7..] == ref.keyHash + (":" + ref.sessionId)
  {
    if |key| > 7 {
      var rest := key[7..];
      FirstColonIsFree(rest);
      var i := FirstColon(rest);
      if i < |rest| {
        assert rest == rest[..i] + (":" + rest[i + 1..]);
      } else {
        assert rest[..i] == rest;
      }
    }
  }

  // ---------------------------------------------------------------------------
  // Conversation keys
  // ---------------------------------------------------------------------------

  lemma {:induction false} FirstFieldMatches(a: string, b: string, x: string, y: string)
    requires NoColon(a) && NoColon(b)
    ensures a + (":" + x) <= b + (":" + y) <==> a == b && x <= y
  {
    var l, r := a + (":" + x), b + (":" + y);
    if a == "" || b == "" {
      assert a == "" ==> l[0] == ':' && l[1..] == x;
      assert b == "" ==> r[0] == ':' && r[1..] == y;
      assert a != "" ==> l[0] == a[0] && a[0] in a;
      assert b != "" ==> r[0] == b[0] && b[0] in b;
      HeadAndTail(l, r);
    } else {
      assert a == [a[0]] + a[1..] && b == [b[0]] + b[1..];
      FirstFieldMatches(a[1..], b[1..], x, y);
      assert l[1..] == a[1..] + (":" + x) && r[1..] == b[1..] + (":" + y);
      HeadAndTail(l, r);
    }
  }

  lemma HeadAndTail(l: string, r: string)
    requires l != "" && r != ""
    ensures l <= r <==> l[0] == r[0] && l[1..] <= r[1..]
  {
    if l[0] == r[0] && l[1..] <= r[1..] {
      assert forall i | 1 <= i < |l| :: l[i] == l[1..][i - 1] && r[i] == r[1..][i - 1];
    }
  }

  /** When a session's name and colon lead another's name, colon and conversation. */
  lemma FieldLeads(s: string, s': string, cid: string)
    ensures s + ":" <= s' + (":" + cid)
            <==> || s == s'
                 || s + ":" <= s'
                 || (s' + ":" <= s && s[|s'| + 1..] + ":" <= cid)
  {
    var l, r := s + ":", s' + (":" + cid);
    if |s| < |s'| {
      LeadsWithin(l, s', ":" + cid);
    } else if |s| == |s'| {
      assert r[..|s'|] == s' && l[..|s|] == s;
      if l <= r {
        assert l[..|s|] == r[..|s|];
      }
    } else {
      var rest := s[|s'| + 1..];
      assert s' + ":" + cid == r;
      if l <= r {
        assert s == l[..|s|] == r[..|s|];
        assert s[..|s'| + 1] == r[..|s'| + 1] == s' + ":";
      }
      if s' + ":" <= s {
        assert l == s' + ":" + (rest + ":");
        SamePrefix(s' + ":", rest + ":", cid);
      }
    }
  }

  lemma LeadsWithin(l: string, a: string, b: string)
    requires |l| <= |a|
    ensures l <= a + b <==> l <= a
  {
    assert (a + b)[..|a|] == a;
  }

  /** SCAN over a session's conversation pattern returns the key. */
  predicate ScanMeets(keyHash: string, sessionId: string, key: string) {
    Match(KeyConversationFeedback(keyHash, sessionId, "*"), key)
  }

  /**
   Whatever the ids, a scan stays within its key hash, and behind it the session id is read as a pattern over the other
   session's id, colon and conversation id.
   */
  lemma ScanReadsIdAsPattern(
    keyHash: string, sessionId: string, keyHash': string, sessionId': string, conversationId: string)
    requires NoColon(keyHash) && NoColon(keyHash') && GlobFree(keyHash)
    ensures ScanMeets(keyHash, sessionId, KeyConversationFeedback(keyHash', sessionId', conversationId))
            <==> keyHash == keyHash' && Match(sessionId + ":*", sessionId' + (":" + conversationId))
  {
    hide Match;
    var lit, y := CONVERSATION_PREFIX + (keyHash + ":"), sessionId' + (":" + conversationId);
    var key := CONVERSATION_PREFIX + (keyHash' + (":" + y));
    assert KeyConversationFeedback(keyHash, sessionId, "*") == lit + (sessionId + ":*");
    assert KeyConversationFeedback(keyHash', sessionId', conversationId) == key;
    PrefixIsPlain(keyHash);
    LiteralFirst(lit, sessionId + ":*", key);
    SamePrefix(CONVERSATION_PREFIX, keyHash + (":" + ""), keyHash' + (":" + y));
    FirstFieldMatches(keyHash, keyHash', "", y);
    assert keyHash + (":" + "") == keyHash + ":";
    if keyHash == keyHash' {
      assert key == lit + y && key[|lit|..] == y;
    }
  }

  lemma PrefixIsPlain(keyHash: string)
    requires GlobFree(keyHash)
    ensures GlobFree(CONVERSATION_PREFIX + (keyHash + ":"))
  {
    assert GlobFree(CONVERSATION_PREFIX);
  }

  /**
   For a session id without pattern characters, the scan meets exactly: the session's own conversations; those of a
   session whose id continues past this one's with a colon; and those of a session whose id, with a colon, this one's
   continues, when the conversation id begins with the rest.
   */
  lemma ScanMeetsExactly(keyHash: string, sessionId: string, keyHash': string, sessionId': string, conversationId: string)
    requires NoColon(keyHash) && NoColon(keyHash') && GlobFree(keyHash) && GlobFree(sessionId)
    ensures ScanMeets(keyHash, sessionId, KeyConversationFeedback(keyHash', sessionId', conversationId))
            <==> && keyHash == keyHash'
                 && (|| sessionId == sessionId'
                     || sessionId + ":" <= sessionId'
                     || (sessionId' + ":" <= sessionId && sessionId[|sessionId'| + 1..] + ":" <= conversationId))
  {
    hide Match;
    ScanReadsIdAsPattern(keyHash, sessionId, keyHash', sessionId', conversationId);
    assert sessionId + ":*" == (sessionId + ":") + "*";
    LiteralThenStar(sessionId + ":", sessionId' + (":" + conversationId));
    FieldLeads(sessionId, sessionId', conversationId);
  }

  /** Between sessions whose ids have no colons or pattern characters, a scan meets only the session's own keys. */
  lemma ScanMeetsOwnKeys(keyHash: string, sessionId: string, keyHash': string, sessionId': string, conversationId: string)
    requires NoColon(keyHash) && NoColon(sessionId) && NoColon(keyHash') && NoColon(sessionId')
    requires GlobFree(keyHash) && GlobFree(sessionId)
    ensures ScanMeets(keyHash, sessionId, KeyConversationFeedback(keyHash', sessionId', conversationId))
            <==> keyHash == keyHash' && sessionId == sessionId'
  {
    ScanMeetsExactly(keyHash, sessionId, keyHash', sessionId', conversationId);
    ColonShows(sessionId, sessionId');
    ColonShows(sessionId', sessionId);
  }

  lemma ColonShows(a: string, b: string)
    requires NoColon(b)
    ensures !(a + ":" <= b)
  {
    assert (a + ":")[|a|] == ':';
  }

  lemma SamePrefix(p: string, a: string, b: string)
    ensures p + a <= p + b <==> a <= b
  {
    if p + a <= p + b {
      assert a == (p + a)[|p|..] && b == (p + b)[|p|..];
    }
  }

  /** So a scan strays into every session whose id continues past a colon, such as "a:b" for session "a" ... */
  lemma ColonLetsScanStray(keyHash: string, sessionId: string, more: string, conversationId: string)
    requires NoColon(keyHash) && GlobFree(keyHash) && GlobFree(sessionId)
    ensures ScanMeets(keyHash, sessionId, KeyConversationFeedback(keyHash, sessionId + (":" + more), conversationId))
  {
    assert sessionId + (":" + more) == sessionId + ":" + more;
    ScanMeetsExactly(keyHash, sessionId, keyHash, sessionId + (":" + more), conversationId);
  }

  /** ... and, with a colon in a conversation id, back from session "a:b" into conversation "b:c" of session "a". */
  lemma ConversationColonLetsScanStray(keyHash: string, sessionId: string, more: string, conversationId: string)
    requires NoColon(keyHash) && GlobFree(keyHash) && GlobFree(sessionId + (":" + more))
    ensures ScanMeets(keyHash, sessionId + (":" + more),
                      KeyConversationFeedback(keyHash, sessionId, more + (":" + conversationId)))
  {
    var longer := sessionId + (":" + more);
    assert longer == sessionId + ":" + more && longer[|sessionId| + 1..] == more;
    assert more + (":" + conversationId) == more + ":" + conversationId;
    ScanMeetsExactly(keyHash, longer, keyHash, sessionId, more + (":" + conversationId));
  }

  /** A star in a session id strays into every session that begins alike: "a*" into "ab". */
  lemma StarLetsScanStray(keyHash: string, sessionId: string, more: string, conversationId: string)
    requires NoColon(keyHash) && GlobFree(keyHash) && GlobFree(sessionId)
    ensures ScanMeets(keyHash, sessionId + "*", KeyConversationFeedback(keyHash, sessionId + more, conversationId))
  {
    hide Match;
    var y := more + (":" + conversationId);
    ScanReadsIdAsPattern(keyHash, sessionId + "*", keyHash, sessionId + more, conversationId);
    assert sessionId + "*" + ":*" == sessionId + ("*" + ":*");
    assert sessionId + more + (":" + conversationId) == sessionId + y && (sessionId + y)[|sessionId|..] == y;
    LiteralFirst(sessionId, "*" + ":*", sessionId + y);
    LiteralThenStar(":", ":" + conversationId);
    assert ":" + "*" == ":*";
    StarSwallows(":*", more, ":" + conversationId);
  }

  /** A bracket in a session id makes the scan miss the session's own conversations: "[a]" meets those of "a". */
  lemma BracketHidesOwnKeys(keyHash: string, c: char, conversationId: string)
    requires NoColon(keyHash) && GlobFree(keyHash) && Plain(c) && c != ']' && c != '^'
    ensures !ScanMeets(keyHash, ['[', c, ']'], KeyConversationFeedback(keyHash, ['[', c, ']'], conversationId))
    ensures ScanMeets(keyHash, ['[', c, ']'], KeyConversationFeedback(keyHash, [c], conversationId))
  {
    hide Match;
    var id, end := ['[', c, ']'], ":" + conversationId;
    ScanReadsIdAsPattern(keyHash, id, keyHash, id, conversationId);
    ScanReadsIdAsPattern(keyHash, id, keyHash, [c], conversationId);
    SingleBracket(c, ":*", id + end);
    SingleBracket(c, ":*", [c] + end);
    LiteralThenStar(":", end);
    assert ":" + "*" == ":*" && ([c] + end)[1..] == end && (id + end)[0] == '[';
  }

  /** The janitor's pattern meets the log key of every session, whatever the names. */
  lemma LogScanMeetsEveryLog(keyHash: string, sessionId: string)
    ensures Match("pg:log:*:*", KeyLog(keyHash, sessionId))
  {
    hide Match;
    var name := keyHash + (":" + sessionId);
    assert "pg:log:*:*" == LOG_PREFIX + ("*" + ":*") && ":*" == ":" + "*";
    LiteralThenStar(":", ":" + sessionId);
    StarSwallows(":*", keyHash, ":" + sessionId);
    LiteralFirst(LOG_PREFIX, "*" + ":*", LOG_PREFIX + name);
    assert (LOG_PREFIX + name)[|LOG_PREFIX|..] == name;
  }

  /** Trimming the scope off a conversation key leaves the conversation id. */
  lemma ConversationIdComesBack(keyHash: string, sessionId: string, conversationId: string)
    ensures KeyConversationFeedback(keyHash, sessionId, conversationId)[|ConversationScope(keyHash, sessionId)|..]
            == conversationId
  {
  }

  // ---------------------------------------------------------------------------
  // Session keys
  // ---------------------------------------------------------------------------

  /** strings.Split at colons. */
  function SplitColons(s: string): (parts: seq<string>)
    ensures parts != []
    decreases |s|
  {
    var i := FirstColon(s);
    if i == |s| then [s] else [s[..i]] + SplitColons(s[i + 1..])
  }

  lemma SplitOff(a: string, b: string)
    requires NoColon(a)
    ensures SplitColons(a + (":" + b)) == [a] + SplitColons(b)
  {
    FirstColonAfter(a, b);
    var s := a + (":" + b);
    assert s[..|a|] == a && s[|a| + 1..] == b;
  }

  function Colons(s: string): nat {
    if s == "" then 0 else (if s[0] == ':' then 1 else 0) + Colons(s[1..])
  }

  lemma {:induction false} ColonsAddUp(a: string, b: string)
    ensures Colons(a + b) == Colons(a) + Colons(b)
  {
    if a == "" {
      assert a + b == b;
    } else {
      ColonsAddUp(a[1..], b);
      assert (a + b)[1..] == a[1..] + b;
    }
  }

  lemma {:induction false} NoColonsCounted(s: string)
    ensures Colons(s) == 0 <==> NoColon(s)
  {
    if s != "" {
      NoColonsCounted(s[1..]);
      assert s == [s[0]] + s[1..];
    }
  }

  lemma {:induction false} PartsCountColons(s: string)
    ensures |SplitColons(s)| == Colons(s) + 1
    decreases |s|
  {
    var i := FirstColon(s);
    FirstColonIsFree(s);
    NoColonsCounted(s[..i]);
    if i == |s| {
      assert s[..i] == s;
    } else {
      PartsCountColons(s[i + 1..]);
      ColonsAddUp(s[..i], s[i..]);
      assert s == s[..i] + s[i..] && s[i..][1..] == s[i + 1..];
    }
  }

  /** The session ReadySessions reads off a session-feedback key, if the key has the four parts it insists on. */
  function SessionOfKey(key: string): Option<SessionRef> {
    var parts := SplitColons(key);
    if |parts| != 4 then None else Some(SessionRef(parts[2], parts[3]))
  }

  /** Redis mode sees a session, under its own name, exactly when neither the key hash nor the session id has a colon. */
  lemma SessionSeenIffNoColons(keyHash: string, sessionId: string)
    ensures SessionOfKey(KeySessionFeedback(keyHash, sessionId)) == Some(SessionRef(keyHash, sessionId))
            <==> NoColon(keyHash) && NoColon(sessionId)
    ensures SessionOfKey(KeySessionFeedback(keyHash, sessionId)).Some? <==> NoColon(keyHash) && NoColon(sessionId)
  {
    var name := keyHash + (":" + sessionId);
    SessionKeyParts(keyHash, sessionId);
    PartsCountColons(name);
    ColonsAddUp(keyHash, ":" + sessionId);
    assert (":" + sessionId)[1..] == sessionId;
    NoColonsCounted(keyHash);
    NoColonsCounted(sessionId);
    if NoColon(keyHash) && NoColon(sessionId) {
      SplitOff(keyHash, sessionId);
      OnePart(sessionId);
    }
  }

  lemma OnePart(s: string)
    requires NoColon(s)
    ensures SplitColons(s) == [s]
  {
    FirstColonIsFree(s);
  }

  lemma SessionKeyParts(keyHash: string, sessionId: string)
    ensures SplitColons(KeySessionFeedback(keyHash, sessionId))
            == ["pg", "session_feedback"] + SplitColons(keyHash + (":" + sessionId))
  {
    hide SplitColons, NoColon;
    var name := keyHash + (":" + sessionId);
    FixedPartsHaveNoColon();
    SplitOff("session_feedback", name);
    SplitOff("pg", "session_feedback" + (":" + name));
    TwoParts("pg", "session_feedback", SplitColons(name));
  }

  lemma FixedPartsHaveNoColon()
    ensures NoColon("pg") && NoColon("session_feedback")
  {
  }

  lemma TwoParts<T>(a: T, b: T, rest: seq<T>)
    ensures [a] + ([b] + rest) == [a, b] + rest
  {
  }
}
