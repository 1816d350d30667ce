/**
 The vocabulary every protocol of the runtime shares: chat messages, who wrote
 them, and the obligation ("exchange") they belong to.

 Identifiers are naturals. The source uses uuid strings; only their equality and,
 in one SQL tiebreak, their order is ever looked at.
 */
module Domain {

  datatype Option<+T> = None | Some(value: T)

  type ExchangeId = nat
  type TaskId = nat

  datatype Role = System | User | Assistant | Tool

  /** What a user message is: the user's own words, or content they forwarded. */
  datatype Kind = Own | Material

  datatype Message = Message(role: Role, content: string, kind: Kind, exchange: Option<ExchangeId>)

  /** The user speaking to exchange `e`: the only messages an answer is owed to. */
  predicate Spoken(m: Message, e: ExchangeId) {
    m.role == User && m.kind == Own && m.exchange == Some(e)
  }

  /** Any user message of exchange `e`, forwarded material included. */
  predicate UserMessageOf(m: Message, e: ExchangeId) {
    m.role == User && m.exchange == Some(e)
  }
}
