/**
 * The older revision of the message model, declared in main.go: the same
 * frame without the `sessionId` member, its classification, and that
 * revision's `asString` and `serialize`.
 */
module Legacy {
  import opened GoValues
  import Protocol
  import Utils

  /** main.go's `protocolMessage`: protocol.go's message without `sessionId`. */
  datatype LegacyMessage = LegacyMessage(
    id: uint64,
    result: map<string, Json>,
    error: Protocol.ErrorInfo,
    methodName: string,
    params: map<string, Json>)

  predicate IsError(m: LegacyMessage) {
    m.error.code != 0
  }

  /** A response carries an id and is never a target wrapper. */
  function IsResponse(m: LegacyMessage): (r: bool)
    ensures r ==> m.id != 0 && !InTarget(m)
  {
    m.methodName == "" && m.id > 0
  }

  /** A request is never also a response. */
  function IsRequest(m: LegacyMessage): (r: bool)
    ensures r ==> !IsResponse(m)
  {
    m.methodName != "" && m.id > 0
  }

  /** Events are exactly the messages without an id. */
  function IsEvent(m: LegacyMessage): (r: bool)
    ensures r <==> m.id == 0
  {
    !(IsRequest(m) || IsResponse(m))
  }

  /** `InTarget`: the message is a `Target.sendMessageToTarget` or `Target.receivedMessageFromTarget` wrapper. */
  function InTarget(m: LegacyMessage): (r: bool)
    ensures r ==> m.methodName != ""
  {
    m.methodName == Protocol.SendMessageToTarget || m.methodName == Protocol.ReceivedMessageFromTarget
  }

  /** The newer message that carries the same members and no session id. */
  function Upgrade(m: LegacyMessage): (n: Protocol.Message)
    ensures n.id == m.id && n.result == m.result && n.error == m.error
    ensures n.methodName == m.methodName && n.params == m.params
    ensures !Protocol.IsFlatten(n)
  {
    Protocol.Message(m.id, m.result, m.error, m.methodName, m.params, "")
  }

  /**
   * The older classification is the newer one on the same members: a legacy
   * message is a request, response, event, error or target wrapper exactly
   * when its upgrade is.
   */
  lemma AgreesWithProtocol(m: LegacyMessage)
    ensures IsRequest(m) == Protocol.IsRequest(Upgrade(m))
    ensures IsResponse(m) == Protocol.IsResponse(Upgrade(m))
    ensures IsEvent(m) == Protocol.IsEvent(Upgrade(m))
    ensures IsError(m) == Protocol.IsError(Upgrade(m))
    ensures InTarget(m) == Protocol.FromTargetDomain(Upgrade(m))
    ensures InTarget(m) == Protocol.HasSessionId(Upgrade(m))
  {
  }

  /** Exactly one of request, response and event holds of a legacy message, and events are the id-less ones. */
  lemma ExactlyOneKind(m: LegacyMessage)
    ensures (if IsRequest(m) then 1 else 0) + (if IsResponse(m) then 1 else 0)
          + (if IsEvent(m) then 1 else 0) == 1
    ensures IsEvent(m) <==> m.id == 0
  {
  }

  /** A target wrapper names a method, so it is never a response. */
  lemma InTargetNeverResponse(m: LegacyMessage)
    requires InTarget(m)
    ensures !IsResponse(m)
  {
  }

  /** main.go's `asString`, the same as utils.go's: strings as they are, other values through `formatValue`. */
  function AsString(value: Json, formatValue: Json -> string): (r: string)
    ensures value.JString? ==> r == value.s
  {
    if value.JString? then value.s else formatValue(value)
  }

  /** Payloads longer than this are cut when shortening (`-s`) is on. */
  const ElipseLength := 80

  /** main.go's `serialize`: shortening as in utils.go, but no `null` to `{}` rule. */
  function Serialize(marshaled: MarshalResult, elipse: bool): (r: string)
    ensures marshaled.MarshalFailed? ==> r == marshaled.errorText
    ensures marshaled.Marshaled? && elipse && |marshaled.text| > ElipseLength ==>
              && |r| == ElipseLength + 3
              && r[..ElipseLength] == marshaled.text[..ElipseLength]
              && r[ElipseLength..] == "..."
    ensures marshaled.Marshaled? && !(elipse && |marshaled.text| > ElipseLength) ==> r == marshaled.text
  {
    match marshaled
    case MarshalFailed(errorText) => errorText
    case Marshaled(text) =>
      if elipse && |text| > ElipseLength then text[..ElipseLength] + "..." else text
  }

  /**
   * The two revisions of `serialize` render every payload alike except a
   * marshaled `null`, which the newer one shows as `{}`.
   */
  lemma SerializeRevisionsAgree(marshaled: MarshalResult, elipse: bool)
    ensures marshaled != Marshaled("null") ==> Serialize(marshaled, elipse) == Utils.Serialize(marshaled, elipse)
    ensures Serialize(Marshaled("null"), elipse) == "null" && Utils.Serialize(Marshaled("null"), elipse) == "{}"
  {
  }
}
