/**
 * The protocol message of protocol.go: one decoded frame of the browser
 * remote-debugging protocol, its classification into request, response and
 * event, and the sub-session key a message is routed by.
 */
module Protocol {
  import opened GoValues

  /** The `error` member of a response; a zero `code` means "no error". */
  datatype ErrorInfo = ErrorInfo(code: int64, message: string, data: string)

  /**
   * `protocolMessage`. Fields absent from the JSON frame hold Go's zero
   * value: id 0, empty strings, a zero error and empty (nil) maps.
   */
  datatype Message = Message(
    id: uint64,
    result: map<string, Json>,
    error: ErrorInfo,
    methodName: string,
    params: map<string, Json>,
    sessionId: string)

  /** The two methods of the `Target` domain that carry a nested, serialized message. */
  const SendMessageToTarget := "Target.sendMessageToTarget"
  const ReceivedMessageFromTarget := "Target.receivedMessageFromTarget"

  predicate IsError(m: Message) {
    m.error.code != 0
  }

  /** A response carries an id and is never a target-domain wrapper. */
  function IsResponse(m: Message): (r: bool)
    ensures r ==> m.id != 0 && !FromTargetDomain(m)
  {
    m.methodName == "" && m.id > 0
  }

  /** A request is never also a response. */
  function IsRequest(m: Message): (r: bool)
    ensures r ==> !IsResponse(m)
  {
    m.methodName != "" && m.id > 0
  }

  /** Events are exactly the messages without an id. */
  function IsEvent(m: Message): (r: bool)
    ensures r <==> m.id == 0
  {
    !(IsRequest(m) || IsResponse(m))
  }

  function FromTargetDomain(m: Message): (r: bool)
    ensures r ==> m.methodName != ""
  {
    m.methodName == SendMessageToTarget || m.methodName == ReceivedMessageFromTarget
  }

  /** Only a message with a method or a session id belongs to a sub-session. */
  function HasSessionId(m: Message): (r: bool)
    ensures r ==> m.methodName != "" || m.sessionId != ""
  {
    FromTargetDomain(m) || IsFlatten(m)
  }

  /** The message uses flattened-session addressing: it names its session directly. */
  predicate IsFlatten(m: Message) {
    m.sessionId != ""
  }

  /** The three mutually exclusive kinds of message. */
  datatype Kind = Request | Response | Event

  /**
   * An independent statement of the classification, read off the id alone
   * and then the method: a message without an id is an event whatever its
   * method, and one with an id is a request exactly when it names a method.
   */
  function KindOf(m: Message): (k: Kind)
    ensures k == Request <==> IsRequest(m)
    ensures k == Response <==> IsResponse(m)
    ensures k == Event <==> IsEvent(m)
  {
    if m.id == 0 then Event else if m.methodName == "" then Response else Request
  }

  /** Exactly one of the three classification predicates holds of every message. */
  lemma ExactlyOneKind(m: Message)
    ensures (if IsRequest(m) then 1 else 0) + (if IsResponse(m) then 1 else 0)
          + (if IsEvent(m) then 1 else 0) == 1
  {
  }

  /** A message is an event exactly when it has no id (id 0). */
  lemma EventIffNoId(m: Message)
    ensures IsEvent(m) <==> m.id == 0
  {
  }

  /**
   * Whether a message is an error depends on its error code only: replacing
   * the error member never changes the message's kind, and the new code alone
   * decides `IsError`.
   */
  lemma ErrorIndependentOfKind(m: Message, e: ErrorInfo)
    ensures KindOf(m.(error := e)) == KindOf(m)
    ensures IsError(m.(error := e)) <==> e.code != 0
  {
  }

  /** A target-domain wrapper names a method, so it is never a response. */
  lemma TargetDomainNeverResponse(m: Message)
    requires FromTargetDomain(m)
    ensures !IsResponse(m)
    ensures IsRequest(m) <==> m.id > 0
  {
  }

  /** A message belongs to a sub-session exactly when it is a target-domain wrapper or names a session. */
  lemma HasSessionIdCases(m: Message)
    ensures HasSessionId(m) <==>
              (m.methodName == SendMessageToTarget || m.methodName == ReceivedMessageFromTarget || m.sessionId != "")
  {
  }

  /**
   * `TargetID` reaches the `val.(string)` type assertion, which panics, only
   * for an unflattened target-domain wrapper whose `params` has a `sessionId`
   * entry that is not a JSON string.
   */
  predicate TargetIdDefined(m: Message) {
    m.sessionId != "" || !FromTargetDomain(m) || "sessionId" !in m.params
    || m.params["sessionId"].JString?
  }

  /** `TargetID`: the sub-session key a message is routed by ("" for the top-level connection). */
  function TargetId(m: Message): (r: string)
    requires TargetIdDefined(m)
    ensures IsFlatten(m) ==> r == m.sessionId
    ensures !IsFlatten(m) && FromTargetDomain(m) && "sessionId" in m.params ==> r == m.params["sessionId"].s
    ensures !IsFlatten(m) && !(FromTargetDomain(m) && "sessionId" in m.params) ==> r == ""
    ensures r != "" ==> HasSessionId(m)
  {
    if m.sessionId != "" then m.sessionId
    else if FromTargetDomain(m) && "sessionId" in m.params then m.params["sessionId"].s
    else ""
  }

  /** A message outside every sub-session is routed to the top-level connection. */
  lemma NoSessionMeansTopLevel(m: Message)
    requires !HasSessionId(m)
    ensures TargetIdDefined(m) && TargetId(m) == ""
  {
  }
}
