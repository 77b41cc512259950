/**
 * The helpers of utils.go: centring a label, rendering a payload for a log
 * line, and unwrapping a target-domain message.
 */
module Utils {
  import opened Wrappers
  import opened GoValues
  import opened GoStrings
  import opened Protocol

  /** Rendered payloads longer than this are cut when shortening is on. */
  const EllipsisLength := 80

  /**
   * The two counts `center` passes to `strings.Repeat`: the left padding
   * `(length - len(message)) / 2` with Go's truncating division, and the
   * right padding, whatever is left of `length`.
   */
  function CenterRepeatCounts(message: string, length: int): (counts: (int, int))
    ensures counts.0 + |message| + counts.1 == length
  {
    var padding := TruncHalf(length - |message|);
    (padding, length - |message| - padding)
  }

  /**
   * `center(message, length)`. When the message is exactly one character
   * longer than `length`, the truncating division yields a left padding of 0,
   * the `padding < 0` guard lets the call through and `strings.Repeat` is
   * handed -1 and panics; callers must stay clear of that case.
   */
  function Center(message: string, length: int): (r: string)
    requires length - |message| != -1
    ensures |message| <= length ==>
              var left := (length - |message|) / 2;
              && |r| == length
              && r[left..left + |message|] == message
              && (forall i :: 0 <= i < left ==> r[i] == ' ')
              && (forall i :: left + |message| <= i < length ==> r[i] == ' ')
              && left <= length - |message| - left <= left + 1
    ensures |message| >= length + 2 ==> r == message
  {
    var (padding, rest) := CenterRepeatCounts(message, length);
    if padding < 0 then message
    else Repeat(' ', padding) + message + Repeat(' ', rest)
  }

  /**
   * As written, `center` gets past its `padding < 0` guard with a message one
   * character longer than the width, and then asks `strings.Repeat` for -1
   * copies.
   */
  lemma CenterPanicsWhenOneOver(message: string, length: int)
    requires |message| == length + 1
    ensures CenterRepeatCounts(message, length) == (0, -1)
  {
  }

  /** The same, on a concrete call: `center("abc", 2)`. */
  lemma CenterPanicsExample()
    ensures CenterRepeatCounts("abc", 2).1 < 0
  {
  }

  /**
   * `center` as evidently intended: a message at least as long as the width
   * is returned unchanged, with no case left out.
   */
  function CenterCorrected(message: string, length: int): (r: string)
    ensures |message| >= length ==> r == message
    ensures |message| <= length ==>
              var left := (length - |message|) / 2;
              && |r| == length
              && r[left..left + |message|] == message
              && (forall i :: 0 <= i < left ==> r[i] == ' ')
              && (forall i :: left + |message| <= i < length ==> r[i] == ' ')
              && left <= length - |message| - left <= left + 1
  {
    if |message| >= length then message
    else
      var padding := (length - |message|) / 2;
      Repeat(' ', padding) + message + Repeat(' ', length - |message| - padding)
  }

  /** The corrected centring agrees with `center` wherever `center` does not panic. */
  lemma CenterCorrectedAgrees(message: string, length: int)
    requires length - |message| != -1
    ensures CenterCorrected(message, length) == Center(message, length)
  {
  }

  /** `asString`'s string case; any other value is rendered by `fmt.Sprintf("%+v")`, given as `formatValue`. */
  function AsString(value: Json, formatValue: Json -> string): (r: string)
    ensures value.JString? ==> r == value.s
  {
    if value.JString? then value.s else formatValue(value)
  }

  /**
   * `serialize`: the `json.Marshal` output, shortened to 80 characters and
   * "..." when shortening is on (the `-s` flag), with `null` (what a nil map
   * marshals to) shown as `{}`; a marshalling error is shown as its text.
   */
  function Serialize(marshaled: MarshalResult, ellipsis: bool): (r: string)
    ensures marshaled.MarshalFailed? ==> r == marshaled.errorText
    ensures marshaled.Marshaled? && ellipsis && |marshaled.text| > EllipsisLength ==>
              && |r| == EllipsisLength + 3
              && r[..EllipsisLength] == marshaled.text[..EllipsisLength]
              && r[EllipsisLength..] == "..."
  {
    match marshaled
    case MarshalFailed(errorText) => errorText
    case Marshaled(text) =>
      if ellipsis && |text| > EllipsisLength then text[..EllipsisLength] + "..."
      else if text == "null" then "{}"
      else text
  }

  /** `null` is rendered as `{}` whether or not shortening is on. */
  lemma SerializeNull(ellipsis: bool)
    ensures Serialize(Marshaled("null"), ellipsis) == "{}"
  {
  }

  /** Any other marshaled text within the limit is rendered unchanged. */
  lemma SerializeKeepsShortText(text: string, ellipsis: bool)
    requires text != "null"
    requires !ellipsis || |text| <= EllipsisLength
    ensures Serialize(Marshaled(text), ellipsis) == text
  {
  }

  /** With shortening on, a successfully marshaled payload never renders longer than 83 characters. */
  lemma SerializeBounded(text: string)
    ensures |Serialize(Marshaled(text), true)| <= EllipsisLength + 3
  {
  }

  /**
   * `decodeProtocolMessage`: a flattened message is returned as it is (this
   * is checked before the target-domain test), an unflattened target-domain
   * wrapper is replaced by the decoding of its `params["message"]`, and any
   * other message is returned as it is. `decode` is `json.Unmarshal` into a
   * fresh message, `None` standing for its error.
   */
  function DecodeProtocolMessage(message: Message, decode: string -> Option<Message>,
                                 formatValue: Json -> string): (r: Option<Message>)
    ensures IsFlatten(message) ==> r == Some(message)
    ensures !IsFlatten(message) && !FromTargetDomain(message) ==> r == Some(message)
    ensures !IsFlatten(message) && FromTargetDomain(message) ==>
              r == decode(AsString(Lookup(message.params, "message"), formatValue))
    ensures r.None? ==> FromTargetDomain(message) && !IsFlatten(message)
  {
    if IsFlatten(message) then Some(message)
    else if FromTargetDomain(message) then decode(AsString(Lookup(message.params, "message"), formatValue))
    else Some(message)
  }

  /** A wrapper whose `message` parameter is a JSON string unwraps to the decoding of exactly that string. */
  lemma UnwrapStringPayload(message: Message, payload: string, decode: string -> Option<Message>,
                            formatValue: Json -> string)
    requires !IsFlatten(message) && FromTargetDomain(message)
    requires Lookup(message.params, "message") == JString(payload)
    ensures DecodeProtocolMessage(message, decode, formatValue) == decode(payload)
  {
  }

  /** A message that is not an unflattened target-domain wrapper is left as it is. */
  lemma NonWrapperIsFixedPoint(message: Message, decode: string -> Option<Message>, formatValue: Json -> string)
    requires IsFlatten(message) || !FromTargetDomain(message)
    ensures DecodeProtocolMessage(message, decode, formatValue) == Some(message)
  {
  }

  /**
   * The unwrap is one level deep: a wrapper whose nested message is itself an
   * unflattened wrapper gives that nested wrapper, not what it wraps in turn.
   */
  lemma UnwrapOneLevel(message: Message, inner: Message, decode: string -> Option<Message>,
                       formatValue: Json -> string)
    requires !IsFlatten(message) && FromTargetDomain(message)
    requires decode(AsString(Lookup(message.params, "message"), formatValue)) == Some(inner)
    requires !IsFlatten(inner) && FromTargetDomain(inner)
    ensures DecodeProtocolMessage(message, decode, formatValue) == Some(inner)
    ensures DecodeProtocolMessage(inner, decode, formatValue)
            == decode(AsString(Lookup(inner.params, "message"), formatValue))
  {
  }
}
