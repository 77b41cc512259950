/**
 * `dumpStream` of main.go: the single consumer of a session's message
 * stream. It keeps two id-to-request tables, `requestNames` for the main
 * connection and `requestTargetNames` for the messages nested in
 * target-domain wrappers, and turns every message into at most one log
 * record: a request paired with its response (ok or error), an event, a
 * correlation miss, or a failure to decode a nested message.
 *
 * One iteration of its loop is the pure function `Step`; `Run` is a
 * finite prefix of the stream. The class `StreamDumper` is the loop itself,
 * with the two maps and the log as fields, proved to follow `Step` and `Run`.
 */
module Correlation {
  import opened Wrappers
  import opened GoValues
  import opened Legacy
  import Protocol

  /** The owner a record is printed under: the main connection, or the wrapper's `params["targetId"]`. */
  datatype Channel = MainProtocol | Target(targetId: Json)

  /** The four legend lines printed when the consumer starts. */
  datatype Legend = ProtocolMessages | EventMessages | RequestFrames | ResponseFrames

  /** A log line as structured data: colours, padding and the rendering of payloads are left out. */
  datatype Record =
    | Heading(legend: Legend)
    | ResponseOk(channel: Channel, requestMethod: string, requestParams: map<string, Json>,
                 result: map<string, Json>)
    | ResponseError(channel: Channel, requestMethod: string, requestParams: map<string, Json>,
                    error: Protocol.ErrorInfo)
    | Event(channel: Channel, eventMethod: string, eventParams: map<string, Json>)
    | RequestNotFound(id: uint64)
    | TargetRequestNotFound(id: uint64)
    | DeserializeFailed

  /**
   * The consumer's state. A `None` in `requestNames` is the nil sentinel
   * stored for a target-domain request; `requestTargetNames` is one table
   * shared by every target.
   */
  datatype Tables = Tables(
    requestNames: map<uint64, Option<LegacyMessage>>,
    requestTargetNames: map<uint64, LegacyMessage>)

  const EmptyTables := Tables(map[], map[])

  const Headings := [Heading(ProtocolMessages), Heading(EventMessages), Heading(RequestFrames), Heading(ResponseFrames)]

  /** The nested message a target-domain wrapper carries: `asString(msg.Params["message"])`. */
  function InnerPayload(msg: LegacyMessage, formatValue: Json -> string): (payload: string) {
    AsString(Lookup(msg.params, "message"), formatValue)
  }

  /** The record pairing a stored request with its response: an error record exactly when the response is an error. */
  function Paired(channel: Channel, request: LegacyMessage, response: LegacyMessage): (r: Record)
    ensures r.ResponseOk? || r.ResponseError?
    ensures r.ResponseError? <==> IsError(response)
    ensures r.channel == channel && r.requestMethod == request.methodName && r.requestParams == request.params
    ensures r.ResponseOk? ==> r.result == response.result
    ensures r.ResponseError? ==> r.error == response.error
  {
    if IsError(response) then ResponseError(channel, request.methodName, request.params, response.error)
    else ResponseOk(channel, request.methodName, request.params, response.result)
  }

  /**
   * What a target-domain wrapper does to the tables and the log: only a
   * request changes them, by leaving the nil sentinel under its own id and
   * assigning the nested message under its id in the target table, adding
   * or replacing that one entry; at most one record is printed.
   */
  function TargetStep(t: Tables, msg: LegacyMessage, decode: string -> Option<LegacyMessage>,
                      formatValue: Json -> string): (r: (Tables, seq<Record>))
    requires InTarget(msg)
    ensures IsRequest(msg) ==> msg.id in r.0.requestNames && r.0.requestNames[msg.id] == None
    ensures forall k :: k in t.requestNames && k != msg.id ==> k in r.0.requestNames && r.0.requestNames[k] == t.requestNames[k]
    ensures r.0.requestNames.Keys <= t.requestNames.Keys + {msg.id}
    ensures t.requestTargetNames.Keys <= r.0.requestTargetNames.Keys
    ensures IsRequest(msg) && decode(InnerPayload(msg, formatValue)).Some? ==>
              var inner := decode(InnerPayload(msg, formatValue)).value;
              r.0.requestTargetNames == t.requestTargetNames[inner.id := inner]
    ensures IsRequest(msg) && decode(InnerPayload(msg, formatValue)).None? ==>
              r.0.requestTargetNames == t.requestTargetNames
    ensures !IsRequest(msg) ==> r.0 == t
    ensures |r.1| <= 1
  {
    if IsRequest(msg) then
      var names := t.requestNames[msg.id := None];
      match decode(InnerPayload(msg, formatValue))
      case Some(inner) => (Tables(names, t.requestTargetNames[inner.id := inner]), [])
      case None => (Tables(names, t.requestTargetNames), [DeserializeFailed])
    else if IsEvent(msg) then
      var records :=
        match decode(InnerPayload(msg, formatValue))
        case None => [DeserializeFailed]
        case Some(inner) =>
          var channel := Target(Lookup(msg.params, "targetId"));
          if IsEvent(inner) then [Event(channel, inner.methodName, inner.params)]
          else if IsResponse(inner) then
            if inner.id in t.requestTargetNames then [Paired(channel, t.requestTargetNames[inner.id], inner)]
            else [TargetRequestNotFound(inner.id)]
          else [];
      (t, records)
    else
      (t, [])
  }

  /**
   * What a message of the main connection does to the tables and the log:
   * a request is stored under its id and prints nothing, nothing else
   * changes the tables, the target table is never touched, and at most one
   * record is printed.
   */
  function TopLevelStep(t: Tables, msg: LegacyMessage): (r: (Tables, seq<Record>))
    ensures IsRequest(msg) ==> msg.id in r.0.requestNames && r.0.requestNames[msg.id] == Some(msg) && r.1 == []
    ensures forall k :: k in t.requestNames && k != msg.id ==> k in r.0.requestNames && r.0.requestNames[k] == t.requestNames[k]
    ensures r.0.requestNames.Keys <= t.requestNames.Keys + {msg.id}
    ensures r.0.requestTargetNames == t.requestTargetNames
    ensures !IsRequest(msg) ==> r.0 == t
    ensures |r.1| <= 1
  {
    if IsRequest(msg) then
      (t.(requestNames := t.requestNames[msg.id := Some(msg)]), [])
    else if IsResponse(msg) then
      var records :=
        if msg.id in t.requestNames then
          match t.requestNames[msg.id]
          case None => []
          case Some(request) => [Paired(MainProtocol, request, msg)]
        else [RequestNotFound(msg.id)];
      (t, records)
    else
      (t, [Event(MainProtocol, msg.methodName, msg.params)])
  }

  /**
   * One iteration of `dumpStream`'s loop. Only requests change the tables;
   * no entry is ever removed; only the request's own id is rewritten in
   * `requestNames`; the main connection never touches `requestTargetNames`;
   * and a message yields at most one record.
   */
  function Step(t: Tables, msg: LegacyMessage, decode: string -> Option<LegacyMessage>,
                formatValue: Json -> string): (r: (Tables, seq<Record>))
    ensures t.requestNames.Keys <= r.0.requestNames.Keys
    ensures t.requestTargetNames.Keys <= r.0.requestTargetNames.Keys
    ensures forall k :: k in t.requestNames && k != msg.id ==> r.0.requestNames[k] == t.requestNames[k]
    ensures !IsRequest(msg) ==> r.0 == t
    ensures !InTarget(msg) ==> r.0.requestTargetNames == t.requestTargetNames
    ensures |r.1| <= 1
  {
    if InTarget(msg) then TargetStep(t, msg, decode, formatValue) else TopLevelStep(t, msg)
  }

  /** The tables and the records after a finite prefix `msgs` of the stream, oldest message first. */
  function Run(t: Tables, msgs: seq<LegacyMessage>, decode: string -> Option<LegacyMessage>,
               formatValue: Json -> string): (r: (Tables, seq<Record>))
    decreases |msgs|
  {
    if |msgs| == 0 then (t, [])
    else
      var before := Run(t, msgs[..|msgs| - 1], decode, formatValue);
      var last := Step(before.0, msgs[|msgs| - 1], decode, formatValue);
      (last.0, before.1 + last.1)
  }

  /** Handling one more message extends the run by one step. */
  lemma RunSnoc(t: Tables, msgs: seq<LegacyMessage>, msg: LegacyMessage,
                decode: string -> Option<LegacyMessage>, formatValue: Json -> string)
    ensures var before := Run(t, msgs, decode, formatValue);
            var last := Step(before.0, msg, decode, formatValue);
            Run(t, msgs + [msg], decode, formatValue) == (last.0, before.1 + last.1)
  {
  }

  /** Over any prefix of the stream, no id is ever removed from either table. */
  lemma {:induction false} RunKeepsEntries(t: Tables, msgs: seq<LegacyMessage>,
                                           decode: string -> Option<LegacyMessage>, formatValue: Json -> string)
    ensures t.requestNames.Keys <= Run(t, msgs, decode, formatValue).0.requestNames.Keys
    ensures t.requestTargetNames.Keys <= Run(t, msgs, decode, formatValue).0.requestTargetNames.Keys
    decreases |msgs|
  {
    if |msgs| > 0 {
      RunKeepsEntries(t, msgs[..|msgs| - 1], decode, formatValue);
    }
  }

  /** Every message yields at most one record. */
  lemma {:induction false} RunAtMostOneRecordEach(t: Tables, msgs: seq<LegacyMessage>,
                                                  decode: string -> Option<LegacyMessage>, formatValue: Json -> string)
    ensures |Run(t, msgs, decode, formatValue).1| <= |msgs|
    decreases |msgs|
  {
    if |msgs| > 0 {
      RunAtMostOneRecordEach(t, msgs[..|msgs| - 1], decode, formatValue);
    }
  }

  /** A top-level request is stored under its id, replacing whatever was there, and prints nothing. */
  lemma TopLevelRequestStored(t: Tables, msg: LegacyMessage, decode: string -> Option<LegacyMessage>,
                              formatValue: Json -> string)
    requires !InTarget(msg) && IsRequest(msg)
    ensures Step(t, msg, decode, formatValue) == (t.(requestNames := t.requestNames[msg.id := Some(msg)]), [])
  {
  }

  /**
   * A top-level response whose id names a stored request prints exactly one
   * record pairing it with that request's method and params: an error record
   * with the response's error if it is one, otherwise an ok record with its
   * result. The entry stays.
   */
  lemma TopLevelResponsePaired(t: Tables, msg: LegacyMessage, request: LegacyMessage,
                               decode: string -> Option<LegacyMessage>, formatValue: Json -> string)
    requires !InTarget(msg) && IsResponse(msg)
    requires msg.id in t.requestNames && t.requestNames[msg.id] == Some(request)
    ensures Step(t, msg, decode, formatValue).0 == t
    ensures IsError(msg) ==>
              Step(t, msg, decode, formatValue).1
              == [ResponseError(MainProtocol, request.methodName, request.params, msg.error)]
    ensures !IsError(msg) ==>
              Step(t, msg, decode, formatValue).1
              == [ResponseOk(MainProtocol, request.methodName, request.params, msg.result)]
  {
  }

  /** A top-level response with an unknown id prints one "could not find request" record and nothing else. */
  lemma TopLevelResponseMissing(t: Tables, msg: LegacyMessage, decode: string -> Option<LegacyMessage>,
                                formatValue: Json -> string)
    requires !InTarget(msg) && IsResponse(msg) && msg.id !in t.requestNames
    ensures Step(t, msg, decode, formatValue) == (t, [RequestNotFound(msg.id)])
  {
  }

  /** A top-level response whose id holds the nil sentinel prints nothing at all. */
  lemma SentinelSuppressesResponse(t: Tables, msg: LegacyMessage, decode: string -> Option<LegacyMessage>,
                                   formatValue: Json -> string)
    requires !InTarget(msg) && IsResponse(msg)
    requires msg.id in t.requestNames && t.requestNames[msg.id] == None
    ensures Step(t, msg, decode, formatValue) == (t, [])
  {
  }

  /** A top-level event prints one event record under the main connection. */
  lemma TopLevelEventPrinted(t: Tables, msg: LegacyMessage, decode: string -> Option<LegacyMessage>,
                             formatValue: Json -> string)
    requires !InTarget(msg) && IsEvent(msg)
    ensures Step(t, msg, decode, formatValue) == (t, [Event(MainProtocol, msg.methodName, msg.params)])
  {
  }

  /**
   * A target-domain request stores the nil sentinel under its own id and, if
   * its nested message decodes, that message under the nested id in the
   * shared target table; otherwise it prints one decode-failure record.
   */
  lemma TargetRequestStored(t: Tables, msg: LegacyMessage, decode: string -> Option<LegacyMessage>,
                            formatValue: Json -> string)
    requires InTarget(msg) && IsRequest(msg)
    ensures Step(t, msg, decode, formatValue).0.requestNames == t.requestNames[msg.id := None]
    ensures decode(InnerPayload(msg, formatValue)).Some? ==>
              var inner := decode(InnerPayload(msg, formatValue)).value;
              Step(t, msg, decode, formatValue)
              == (Tables(t.requestNames[msg.id := None], t.requestTargetNames[inner.id := inner]), [])
    ensures decode(InnerPayload(msg, formatValue)).None? ==>
              Step(t, msg, decode, formatValue)
              == (Tables(t.requestNames[msg.id := None], t.requestTargetNames), [DeserializeFailed])
  {
  }

  /**
   * A target-domain event whose nested message is a response is looked up in
   * the shared target table: a hit prints one paired record under the
   * wrapper's target id, a miss one "could not find target request" record.
   */
  lemma TargetResponseLookedUp(t: Tables, msg: LegacyMessage, inner: LegacyMessage,
                               decode: string -> Option<LegacyMessage>, formatValue: Json -> string)
    requires InTarget(msg) && IsEvent(msg)
    requires decode(InnerPayload(msg, formatValue)) == Some(inner) && IsResponse(inner)
    ensures Step(t, msg, decode, formatValue).0 == t
    ensures inner.id in t.requestTargetNames ==>
              Step(t, msg, decode, formatValue).1
              == [Paired(Target(Lookup(msg.params, "targetId")), t.requestTargetNames[inner.id], inner)]
    ensures inner.id !in t.requestTargetNames ==>
              Step(t, msg, decode, formatValue).1 == [TargetRequestNotFound(inner.id)]
  {
  }

  /** A target-domain event whose nested message is an event prints it under the wrapper's target id. */
  lemma TargetEventPrinted(t: Tables, msg: LegacyMessage, inner: LegacyMessage,
                           decode: string -> Option<LegacyMessage>, formatValue: Json -> string)
    requires InTarget(msg) && IsEvent(msg)
    requires decode(InnerPayload(msg, formatValue)) == Some(inner) && IsEvent(inner)
    ensures Step(t, msg, decode, formatValue)
            == (t, [Event(Target(Lookup(msg.params, "targetId")), inner.methodName, inner.params)])
  {
  }

  /** A target-domain event whose nested message is a request falls through both tests and prints nothing. */
  lemma TargetNestedRequestIgnored(t: Tables, msg: LegacyMessage, inner: LegacyMessage,
                                   decode: string -> Option<LegacyMessage>, formatValue: Json -> string)
    requires InTarget(msg) && IsEvent(msg)
    requires decode(InnerPayload(msg, formatValue)) == Some(inner) && IsRequest(inner)
    ensures Step(t, msg, decode, formatValue) == (t, [])
  {
  }

  /** A target-domain event whose nested message does not decode prints one decode-failure record. */
  lemma TargetEventUndecodable(t: Tables, msg: LegacyMessage, decode: string -> Option<LegacyMessage>,
                               formatValue: Json -> string)
    requires InTarget(msg) && IsEvent(msg)
    requires decode(InnerPayload(msg, formatValue)).None?
    ensures Step(t, msg, decode, formatValue) == (t, [DeserializeFailed])
  {
  }

  /**
   * Entries are never deleted on a match, so a top-level response repeated
   * `n` times prints the same paired record `n` times.
   */
  lemma {:induction false} RepeatedResponseRepeatsRecord(t: Tables, msg: LegacyMessage, request: LegacyMessage,
                                                         n: nat, decode: string -> Option<LegacyMessage>,
                                                         formatValue: Json -> string)
    requires !InTarget(msg) && IsResponse(msg)
    requires msg.id in t.requestNames && t.requestNames[msg.id] == Some(request)
    ensures Run(t, Copies(msg, n), decode, formatValue) == (t, Copies(Paired(MainProtocol, request, msg), n))
    decreases n
  {
    if n > 0 {
      var record := Paired(MainProtocol, request, msg);
      assert Copies(msg, n)[..n - 1] == Copies(msg, n - 1);
      assert Copies(msg, n)[n - 1] == msg;
      RepeatedResponseRepeatsRecord(t, msg, request, n - 1, decode, formatValue);
      TopLevelResponsePaired(t, msg, request, decode, formatValue);
      assert Copies(record, n - 1) + [record] == Copies(record, n);
    }
  }

  /** `n` copies of `x`. */
  function Copies<T>(x: T, n: nat): (r: seq<T>)
    ensures |r| == n && forall i :: 0 <= i < n ==> r[i] == x
  {
    seq(n, _ => x)
  }

  /**
   * A target-domain request leaves the nil sentinel under its outer id, so
   * the top-level response that answers it prints nothing.
   */
  lemma TargetRequestSilencesItsResponse(t: Tables, wrapper: LegacyMessage, response: LegacyMessage,
                                          decode: string -> Option<LegacyMessage>, formatValue: Json -> string)
    requires InTarget(wrapper) && IsRequest(wrapper)
    requires !InTarget(response) && IsResponse(response) && response.id == wrapper.id
    ensures Step(Step(t, wrapper, decode, formatValue).0, response, decode, formatValue).1 == []
  {
  }

  /**
   * There is one target table for all targets: a nested request sent through
   * one wrapper is paired with a nested response of the same id arriving in
   * any other wrapper, whatever target either names.
   */
  lemma TargetTableShared(t: Tables, sent: LegacyMessage, received: LegacyMessage,
                           request: LegacyMessage, response: LegacyMessage,
                           decode: string -> Option<LegacyMessage>, formatValue: Json -> string)
    requires InTarget(sent) && IsRequest(sent) && decode(InnerPayload(sent, formatValue)) == Some(request)
    requires InTarget(received) && IsEvent(received) && decode(InnerPayload(received, formatValue)) == Some(response)
    requires IsResponse(response) && response.id == request.id
    ensures Step(Step(t, sent, decode, formatValue).0, received, decode, formatValue).1
            == [Paired(Target(Lookup(received.params, "targetId")), request, response)]
  {
  }

  /**
   * A request `{id: 1, method: "Page.navigate", params}` followed by the
   * response `{id: 1, result}` prints one ok record pairing the method and
   * params with that result.
   */
  lemma NavigateScenario(params: map<string, Json>, result: map<string, Json>,
                          decode: string -> Option<LegacyMessage>, formatValue: Json -> string)
    ensures var request := LegacyMessage(1, map[], Protocol.ErrorInfo(0, "", ""), "Page.navigate", params);
            var response := LegacyMessage(1, result, Protocol.ErrorInfo(0, "", ""), "", map[]);
            Run(EmptyTables, [request, response], decode, formatValue).1
            == [ResponseOk(MainProtocol, "Page.navigate", params, result)]
  {
    var request := LegacyMessage(1, map[], Protocol.ErrorInfo(0, "", ""), "Page.navigate", params);
    var response := LegacyMessage(1, result, Protocol.ErrorInfo(0, "", ""), "", map[]);
    var msgs := [request, response];
    TopLevelRequestStored(EmptyTables, request, decode, formatValue);
    var t1 := Tables(map[1 := Some(request)], map[]);
    assert EmptyTables.(requestNames := EmptyTables.requestNames[1 := Some(request)]) == t1;
    RunSnoc(EmptyTables, [], request, decode, formatValue);
    RunSnoc(EmptyTables, [request], response, decode, formatValue);
    TopLevelResponsePaired(t1, response, request, decode, formatValue);
  }

  /**
   * A `Target.receivedMessageFromTarget` event for target `s1` whose nested
   * message decodes to a `Page.frameStartedLoading` event prints that event,
   * once, under target `s1`.
   */
  lemma TargetEventScenario(t: Tables, payload: string, inner: LegacyMessage,
                            decode: string -> Option<LegacyMessage>, formatValue: Json -> string)
    requires decode(payload) == Some(inner)
    requires inner.id == 0 && inner.methodName == "Page.frameStartedLoading"
    ensures var wrapper := LegacyMessage(0, map[], Protocol.ErrorInfo(0, "", ""), Protocol.ReceivedMessageFromTarget,
                                         map["targetId" := JString("s1"), "message" := JString(payload)]);
            Step(t, wrapper, decode, formatValue)
            == (t, [Event(Target(JString("s1")), "Page.frameStartedLoading", inner.params)])
  {
  }

  /**
   * A `Target.receivedMessageFromTarget` event that names its session only by
   * `params["sessionId"]` has no `targetId`, so its event prints under the nil
   * target.
   */
  lemma TargetEventSessionOnlyScenario(t: Tables, payload: string, inner: LegacyMessage,
                                       decode: string -> Option<LegacyMessage>, formatValue: Json -> string)
    requires decode(payload) == Some(inner)
    requires inner.id == 0 && inner.methodName == "Page.frameStartedLoading"
    ensures var wrapper := LegacyMessage(0, map[], Protocol.ErrorInfo(0, "", ""), Protocol.ReceivedMessageFromTarget,
                                         map["sessionId" := JString("s1"), "message" := JString(payload)]);
            Step(t, wrapper, decode, formatValue)
            == (t, [Event(Target(JNull), "Page.frameStartedLoading", inner.params)])
  {
  }

  /** `dumpStream` itself: the two tables and the log it has printed so far. */
  class StreamDumper {
    /** `json.Unmarshal` into a fresh message (`decodeMessage`); `None` stands for its error. */
    const decode: string -> Option<LegacyMessage>
    /** `fmt.Sprintf("%+v")`, which `asString` falls back to for a non-string value. */
    const formatValue: Json -> string
    var requestNames: map<uint64, Option<LegacyMessage>>
    var requestTargetNames: map<uint64, LegacyMessage>
    var log: seq<Record>

    function State(): Tables
      reads this
    {
      Tables(requestNames, requestTargetNames)
    }

    /** Start of `dumpStream`: the four legend lines and two empty tables. */
    constructor (decode: string -> Option<LegacyMessage>, formatValue: Json -> string)
      ensures this.decode == decode && this.formatValue == formatValue
      ensures State() == EmptyTables
      ensures log == Headings
    {
      this.decode := decode;
      this.formatValue := formatValue;
      requestNames := map[];
      requestTargetNames := map[];
      log := Headings;
    }

    /** One iteration of the loop: handle the message just received from the stream. */
    method Handle(msg: LegacyMessage)
      modifies this
      ensures State() == Step(old(State()), msg, decode, formatValue).0
      ensures log == old(log) + Step(old(State()), msg, decode, formatValue).1
    {
      if InTarget(msg) {
        if IsRequest(msg) {
          requestNames := requestNames[msg.id := None];
          var decoded := decode(AsString(Lookup(msg.params, "message"), formatValue));
          if decoded.Some? {
            requestTargetNames := requestTargetNames[decoded.value.id := decoded.value];
          } else {
            log := log + [DeserializeFailed];
          }
        }
        if IsEvent(msg) {
          var decoded := decode(AsString(Lookup(msg.params, "message"), formatValue));
          if decoded.Some? {
            var inner := decoded.value;
            var channel := Target(Lookup(msg.params, "targetId"));
            if IsEvent(inner) {
              log := log + [Event(channel, inner.methodName, inner.params)];
            }
            if IsResponse(inner) {
              if inner.id in requestTargetNames {
                var request := requestTargetNames[inner.id];
                if IsError(inner) {
                  log := log + [ResponseError(channel, request.methodName, request.params, inner.error)];
                } else {
                  log := log + [ResponseOk(channel, request.methodName, request.params, inner.result)];
                }
              } else {
                log := log + [TargetRequestNotFound(inner.id)];
              }
            }
          } else {
            log := log + [DeserializeFailed];
          }
        }
      } else {
        if IsRequest(msg) {
          requestNames := requestNames[msg.id := Some(msg)];
        }
        if IsResponse(msg) {
          if msg.id in requestNames {
            var request := requestNames[msg.id];
            if request.Some? {
              if IsError(msg) {
                log := log + [ResponseError(MainProtocol, request.value.methodName, request.value.params, msg.error)];
              } else {
                log := log + [ResponseOk(MainProtocol, request.value.methodName, request.value.params, msg.result)];
              }
            }
          } else {
            log := log + [RequestNotFound(msg.id)];
          }
        }
        if IsEvent(msg) {
          log := log + [Event(MainProtocol, msg.methodName, msg.params)];
        }
      }
    }

    /** The loop over a finite prefix of the stream, one message at a time in arrival order. */
    method Drain(msgs: seq<LegacyMessage>)
      modifies this
      ensures State() == Run(old(State()), msgs, decode, formatValue).0
      ensures log == old(log) + Run(old(State()), msgs, decode, formatValue).1
    {
      var i := 0;
      while i < |msgs|
        invariant 0 <= i <= |msgs|
        invariant State() == Run(old(State()), msgs[..i], decode, formatValue).0
        invariant log == old(log) + Run(old(State()), msgs[..i], decode, formatValue).1
      {
        assert msgs[..i + 1][..i] == msgs[..i];
        Handle(msgs[i]);
        i := i + 1;
      }
      assert msgs[..|msgs|] == msgs;
    }
  }
}
