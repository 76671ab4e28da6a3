/** Telling apart what an agent may send on its JSON-RPC connection. */
module Protocol {
  import opened Wrappers

  datatype RequestId = Number(number: int) | Name(name: string)

  /** A JSON value, of which nothing matters here. */
  type Json = string

  datatype IncomingMessage = IncomingMessage(
    id: Option<RequestId>,
    verb: Option<string>,
    params: Option<Json>,
    result: Option<Json>,
    error: Option<Json>)

  const JSON_NULL: Json := "null"

  datatype IncomingKind =
    | Request(id: RequestId, verb: string, params: Json)
    | Response(id: RequestId, result: Option<Json>, error: Option<Json>)
    | Notification(verb: string, params: Json)
    | Invalid

  function Or(value: Option<Json>): Json {
    if value.Some? then value.value else JSON_NULL
  }

  /** `IncomingMessage::classify` */
  function Classify(m: IncomingMessage): IncomingKind {
    match (m.id, m.verb)
    case (Some(id), Some(verb)) => Request(id, verb, Or(m.params))
    case (Some(id), None) => Response(id, m.result, m.error)
    case (None, Some(verb)) => Notification(verb, Or(m.params))
    case (None, None) => Invalid
  }

  /** A message of this kind as the other side would write it. */
  function Message(kind: IncomingKind): IncomingMessage {
    match kind
    case Request(id, verb, params) => IncomingMessage(Some(id), Some(verb), Some(params), None, None)
    case Response(id, result, error) => IncomingMessage(Some(id), None, None, result, error)
    case Notification(verb, params) => IncomingMessage(None, Some(verb), Some(params), None, None)
    case Invalid => IncomingMessage(None, None, None, None, None)
  }

  /** What a message of its kind may leave out, and what does not belong to it. */
  function Completed(m: IncomingMessage): IncomingMessage {
    IncomingMessage(m.id, m.verb, if m.verb.Some? then Some(Or(m.params)) else None,
                    if m.id.Some? && m.verb == None then m.result else None,
                    if m.id.Some? && m.verb == None then m.error else None)
  }

  /** Classifying undoes writing, and keeps everything that belongs to a message: absent parameters become null. */
  lemma ClassifyRoundTrip(kind: IncomingKind, m: IncomingMessage)
    ensures Classify(Message(kind)) == kind
    ensures Message(Classify(m)) == Completed(m)
  {
  }
}
