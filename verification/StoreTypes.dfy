/** What the stores hold and how they name it (internal/store/store.go). Clock readings are in nanoseconds. */
module StoreTypes {

  datatype SessionRef = SessionRef(keyHash: string, sessionId: string)

  datatype ConversationKey = ConversationKey(session: SessionRef, conversationId: string)

  datatype Variant = Variant(id: string, systemPrompt: string, weight: real)

  const SECOND: int := 1_000_000_000
  const MINUTE: int := 60 * SECOND
}
