# chrome-protocol-proxy: message model and correlation engine

A Dafny model of the verifiable core of `chrome-protocol-proxy`, a proxy
that sits between a debugging client and a browser speaking the remote
debugging protocol. It relays every websocket frame unchanged and logs the
conversation: which request a response answers, which events arrive, and
which target a nested message belongs to.

What is modelled:

- **protocol.go** (module `Protocol`): the decoded frame `protocolMessage`.
  It also has the predicates that classify a frame as request, response,
  event or error, that recognise a target-domain wrapper
  (`Target.sendMessageToTarget` / `Target.receivedMessageFromTarget`) or a
  flattened session, and `TargetID`, which picks the sub-session key.
- **utils.go** (module `Utils`): `center` with Go's truncating division,
  the string case of `asString`, `serialize` (80-character shortening and
  the `null` to `{}` rule), and `decodeProtocolMessage`, which unwraps one
  level of target-domain nesting.
- **filter.go** (module `Filter`): the `-include`/`-exclude` lists
  (`argumentList`, a class whose `Set` appends in place). Also `accept`, a
  method with the source's two loops, proved against the predicate
  `Accepts`: exclude patterns are checked first, then include patterns, as
  substrings of the inputs joined with no separator.
- **flags.go** (module `Flags`): the newer revision's copy of `argumentList`
  and its empty filter lists.
- **main.go** (modules `Legacy` and `Correlation`): the older message model,
  which has no `sessionId`. `Legacy` holds its `asString` and its
  `serialize`, which has no `null` rule. `Correlation` holds `dumpStream`.
  One loop iteration is the pure function `Step`, from the two tables and a
  message to the new tables and the records printed. `Run` folds `Step` over
  a finite prefix of the stream. The class `StreamDumper` holds the two maps
  and the log as fields, and its methods `Handle` and `Drain` are proved to
  follow `Step` and `Run`.

Foreign code is passed in as parameters:

- `json.Unmarshal` into a message (`decodeMessage`) is a total function
  `decode: string -> Option<...>`, with `None` standing for a decode error.
- The output of `json.Marshal` is a `MarshalResult`: the encoded text, or
  the text of its error.
- `fmt.Sprintf("%+v")`, which `asString` uses for non-string values, is a
  function `formatValue: Json -> string`.

Go's `interface{}` values are the datatype `GoValues.Json`. The nil
interface is `JNull`, which is both what JSON `null` decodes to and what a
missing map key yields. Go strings and byte slices are sequences of
characters, one character per byte. `uint64` and `int64` are newtypes.

Some behaviours of the code are easy to miss; the model keeps them:

- `dumpStream` never removes an entry: a second response with the same id
  is paired again, not reported as a miss.
- There is one `requestTargetNames` table for all targets, so a nested
  response is paired with a nested request sent to any target
  (`Correlation.TargetTableShared`).
- Records of nested messages are printed under the wrapper's
  `params["targetId"]`, not under a session id.
- The older `dumpStream` prints no request records and does not call
  `accept`.

## Model

| member | source | states |
|---|---|---|
| `GoValues.TruncHalf` | utils.go:14 | Go's `x / 2` rounds toward zero: the remainder has the sign of `x` and is at most 1 in size |
| `GoStrings.Contains` | filter.go:36 | `strings.Contains(s, sub)` holds exactly when `sub` occurs in `s` at some offset |
| `GoStrings.ContainsEmpty` | filter.go:36 | `strings.Contains(s, "")` holds for every `s`, which is why an empty exclude pattern rejects everything |
| `GoStrings.JoinSnoc` | filter.go:14-16 | appending a value to a non-empty list extends `strings.Join` by the separator and the value |
| `GoStrings.JoinContainsEach` | filter.go:33 | every input occurs in the joined string |
| `Protocol.IsError` | protocol.go:30-32 | a message is an error when its error code is non-zero (definition; see `ErrorIndependentOfKind`) |
| `Protocol.IsResponse` | protocol.go:34-36 | a response has an id and no method, so it is never a target-domain wrapper |
| `Protocol.IsRequest` | protocol.go:38-40 | a request has a method and an id, and is never also a response |
| `Protocol.IsEvent` | protocol.go:42-44 | an event is neither request nor response, which is exactly a message whose id is 0 |
| `Protocol.FromTargetDomain` | protocol.go:46-48 | the method is one of the two target-domain wrapper methods, hence non-empty |
| `Protocol.HasSessionId` | protocol.go:50-52 | a target-domain wrapper or a flattened message; so it has a method or a session id |
| `Protocol.IsFlatten` | protocol.go:54-56 | the message names its session directly (non-empty `sessionId`; definition, see `HasSessionIdCases`) |
| `Protocol.KindOf` | protocol.go:34-44 | an independent classification (no id: event; id and no method: response; otherwise request) that agrees with `IsRequest`, `IsResponse` and `IsEvent` |
| `Protocol.ExactlyOneKind` | protocol.go:34-44 | exactly one of `IsRequest`, `IsResponse`, `IsEvent` holds of every message |
| `Protocol.EventIffNoId` | protocol.go:34-44 | a message is an event exactly when its id is 0 |
| `Protocol.ErrorIndependentOfKind` | protocol.go:30-32 | replacing the error member never changes the kind, and `IsError` depends on the error code alone |
| `Protocol.TargetDomainNeverResponse` | protocol.go:34-48 | a target-domain wrapper is never a response; it is a request exactly when it has an id |
| `Protocol.HasSessionIdCases` | protocol.go:46-56 | `HasSessionId` holds iff the method is one of the two target-domain methods or `sessionId` is non-empty |
| `Protocol.TargetId` | protocol.go:58-70 | a non-empty `sessionId` wins, even on a target-domain method; otherwise `params["sessionId"]` of a target-domain wrapper that has the key; otherwise ""; a non-empty key implies `HasSessionId`; requires that a present `params["sessionId"]` be a string (the type assertion) |
| `Protocol.NoSessionMeansTopLevel` | protocol.go:50-70 | a message outside every sub-session gets the empty key |
| `Utils.CenterRepeatCounts` | utils.go:14-20 | the left and right counts `center` passes to `strings.Repeat` add up to the width with the message |
| `Utils.Center` | utils.go:13-21 | for a message no longer than the width: the result has exactly that length, holds the message at offset `(length-len)/2` with spaces around it, and the left padding is at most the right padding and at most one less. For a message two or more longer: the message unchanged. Requires the message not to be exactly one longer than the width (the panic) |
| `Utils.CenterPanicsWhenOneOver` | utils.go:14-20 | as written, a message one longer than the width passes the `padding < 0` guard with padding 0 and asks `strings.Repeat` for -1 copies |
| `Utils.CenterPanicsExample` | utils.go:13-21 | `center("abc", 2)` asks `strings.Repeat` for a negative count |
| `Utils.CenterCorrected` | utils.go:13-21 | total centring: a message at least as long as the width comes back unchanged; a shorter one is centred as `center` does |
| `Utils.CenterCorrectedAgrees` | utils.go:13-21 | the corrected centring equals `center` wherever `center` does not panic |
| `Utils.AsString` | utils.go:23-29 | a string value is returned as it is |
| `Utils.Serialize` | utils.go:31-49 | a marshal error renders as its text; with shortening on, a marshaled text over 80 renders as its first 80 characters followed by "..." (83 in all) |
| `Utils.SerializeNull` | utils.go:39-43 | a marshaled `null` renders as `{}`, with or without shortening |
| `Utils.SerializeKeepsShortText` | utils.go:39-45 | any other marshaled text within the limit renders unchanged |
| `Utils.SerializeBounded` | utils.go:35-37 | with shortening on, a successfully marshaled payload never renders longer than 83 characters (a marshal error's text is not cut) |
| `Utils.DecodeProtocolMessage` | utils.go:62-72 | a flattened message is returned unchanged (checked first); an unflattened target-domain wrapper gives the decoding of `asString(params["message"])`; any other message is returned unchanged; only an unflattened wrapper can fail |
| `Utils.UnwrapStringPayload` | utils.go:67-69 | a wrapper whose `message` parameter is a JSON string unwraps to the decoding of that string |
| `Utils.NonWrapperIsFixedPoint` | utils.go:62-72 | a flattened message, or one outside the target domain, is returned as it is |
| `Utils.UnwrapOneLevel` | utils.go:62-72 | the unwrap is one level deep: a wrapper whose nested message is again an unflattened wrapper yields that nested wrapper, not what it wraps |
| `Filter.ArgumentList.Set` | filter.go:18-21 | appends exactly one value at the end, keeps the earlier values and the name, returns nil, and `String()` grows by ", " and the value (or by the value alone on an empty list) |
| `Filter.NewFilterLists` | filter.go:23-24 | the include and exclude lists start empty, named "include" and "exclude" |
| `Filter.Accept` | filter.go:31-52 | the two loops with early return compute `Accepts`: no exclude pattern occurs in the joined inputs, and the include list is empty or one of its patterns occurs |
| `Filter.ExcludeWins` | filter.go:35-39 | an exclude pattern occurring in the joined inputs rejects them whatever the include list is |
| `Filter.NoIncludeAcceptsAll` | filter.go:41-43 | with no exclude match and an empty include list, the inputs are accepted |
| `Filter.IncludeDecides` | filter.go:45-52 | with no exclude match and a non-empty include list, acceptance holds iff some include pattern occurs |
| `Filter.EmptyExcludeRejectsAll` | filter.go:35-39 | an empty exclude pattern rejects every input |
| `Filter.PatternInOneInput` | filter.go:33-39 | an exclude pattern found in any one input rejects the joined inputs |
| `Filter.MatchAcrossBoundary` | filter.go:33 | inputs are joined with no separator: "bc" matches "ab"+"cd" although it occurs in neither |
| `Filter.OrderIndependent` | filter.go:35-51 | lists with the same members, in any order or repetition, accept the same inputs |
| `Filter.ExcludeNetworkExample` | filter.go:31-39 | an exclude list ["Network"] rejects a `Network.requestWillBeSent` record |
| `Filter.IncludePageExample` | filter.go:45-51 | an include list ["Page"] accepts a `Page.loadEventFired` record |
| `Flags.ArgumentList.Set` | flags.go:18-21 | appends its argument as the new last element, preserves earlier values in order, returns nil, and extends `String()` accordingly |
| `Flags.NewFilterLists` | flags.go:23-24 | the include and exclude lists start empty |
| `Flags.SetTwiceExample` | flags.go:14-21 | setting "Page" then "Network" on the empty include list renders "include = Page, Network" |
| `Legacy.IsError` | main.go:95-97 | a message is an error when its error code is non-zero (definition; see `AgreesWithProtocol`) |
| `Legacy.IsResponse` | main.go:99-101 | a response has an id and no method, so it is never a target wrapper |
| `Legacy.IsRequest` | main.go:103-105 | a request has a method and an id, and is never also a response |
| `Legacy.IsEvent` | main.go:107-109 | an event is neither request nor response, which is exactly a message whose id is 0 |
| `Legacy.InTarget` | main.go:111-113 | the method is one of the two target-domain wrapper methods, hence non-empty |
| `Legacy.Upgrade` | main.go:63-73 | an older message is a newer one with the same id, result, error, method and params and without a session id, hence never flattened |
| `Legacy.AgreesWithProtocol` | main.go:95-113 | the older `IsRequest`, `IsResponse`, `IsEvent`, `IsError` and `InTarget` equal the newer predicates on the upgraded message, and `InTarget` equals `HasSessionId` there |
| `Legacy.ExactlyOneKind` | main.go:99-109 | exactly one of request, response and event holds of an older message; events are the id-less ones |
| `Legacy.InTargetNeverResponse` | main.go:99-113 | a target wrapper is never a response |
| `Legacy.AsString` | main.go:186-192 | a string value is returned as it is |
| `Legacy.Serialize` | main.go:194-204 | a marshal error renders as its text; shortening to 80 characters and "..." when on; otherwise the marshaled text unchanged, including `null` |
| `Legacy.SerializeRevisionsAgree` | main.go:194-204 | the two revisions of `serialize` agree on everything except a marshaled `null` |
| `Correlation.Paired` | main.go:259-266 | the paired record carries the request's method and params; it is an error record with the response's error exactly when the response is an error, otherwise an ok record with its result |
| `Correlation.TargetStep` | main.go:220-252 | a target-domain wrapper: a request leaves the nil sentinel under its own id and assigns the nested message under its id in the target table, adding or replacing that one entry (an undecodable one leaves the target table equal); nothing else changes either table; at most one record |
| `Correlation.TopLevelStep` | main.go:253-275 | a main-connection message: a request is stored under its id and prints nothing; nothing else changes `requestNames`; the target table is untouched; at most one record |
| `Correlation.Run` | main.go:217-277 | the loop over a finite prefix of the stream, from empty tables, one `Step` per message (definition; see `RunSnoc`, `RunKeepsEntries`, `RunAtMostOneRecordEach`) |
| `Correlation.Step` | main.go:217-277 | one iteration: keys are never removed from either table; only the message's own id changes in `requestNames`; only requests change the tables; the main connection never touches the target table; at most one record |
| `Correlation.RunSnoc` | main.go:217-219 | handling one more message extends the run by one `Step` |
| `Correlation.RunKeepsEntries` | main.go:214-277 | over any prefix of the stream, no id is removed from either table |
| `Correlation.RunAtMostOneRecordEach` | main.go:217-277 | a prefix of n messages prints at most n records |
| `Correlation.TopLevelRequestStored` | main.go:254-256 | a top-level request is stored under its id, overwriting any earlier entry, and prints nothing |
| `Correlation.TopLevelResponsePaired` | main.go:258-266 | a top-level response whose id maps to a request prints exactly one paired record (error or ok) and leaves the tables unchanged |
| `Correlation.TopLevelResponseMissing` | main.go:267-269 | a top-level response with an unknown id prints exactly one "could not find request" record and nothing else |
| `Correlation.SentinelSuppressesResponse` | main.go:259-260 | a top-level response whose id holds the nil sentinel prints nothing |
| `Correlation.TopLevelEventPrinted` | main.go:272-274 | a top-level event prints one event record under the main connection |
| `Correlation.TargetRequestStored` | main.go:221-229 | a target-domain request stores nil under its outer id; a nested message that decodes is stored under the nested id in the target table, and one that does not prints a decode-failure record |
| `Correlation.TargetResponseLookedUp` | main.go:237-246 | a nested response is looked up in the shared target table: a hit prints one paired record under the wrapper's `targetId`, a miss one "could not find target request" record |
| `Correlation.TargetEventPrinted` | main.go:233-235 | a nested event prints one event record under the wrapper's `targetId` |
| `Correlation.TargetNestedRequestIgnored` | main.go:231-251 | a target-domain event whose nested message is a request changes nothing and prints nothing |
| `Correlation.TargetEventUndecodable` | main.go:231-250 | a target-domain event whose nested message does not decode prints one decode-failure record |
| `Correlation.RepeatedResponseRepeatsRecord` | main.go:254-270 | entries are never deleted: a top-level response repeated n times prints the same paired record n times |
| `Correlation.TargetRequestSilencesItsResponse` | main.go:220-260 | after a target-domain request, a top-level response with the same id prints nothing |
| `Correlation.TargetTableShared` | main.go:215-246 | a nested request sent through any wrapper is paired with a nested response of that id in any other wrapper, whatever targets they name |
| `Correlation.NavigateScenario` | main.go:254-266 | `Page.navigate` request id 1, then a response id 1 with a result, prints one ok record pairing method and params with that result |
| `Correlation.TargetEventScenario` | main.go:231-235 | a `Target.receivedMessageFromTarget` event for target `s1` carrying a `Page.frameStartedLoading` event prints that event once under `s1` |
| `Correlation.TargetEventSessionOnlyScenario` | main.go:231-235 | the same event naming its session only by `params["sessionId"]` prints under the nil target, since records are tagged with `params["targetId"]` |
| `Correlation.StreamDumper.constructor` | main.go:206-215 | the consumer starts with the four legend records and two empty tables |
| `Correlation.StreamDumper.Handle` | main.go:219-275 | the imperative loop body updates the two maps and appends to the log exactly as `Step` says |
| `Correlation.StreamDumper.Drain` | main.go:217-277 | handling a sequence of messages in order leaves the maps and the log as `Run` says |

## Left out

- `proxyWS` (proxy.go:27-56, main.go:280-309): the relay pump. It does concurrent websocket reads and writes, sends on channels and selects on cancellation. The model takes the stream of decoded messages as given.
- `main`, `checkVersion` and `createLog` (main.go:115-184, 321-361): the HTTP mux, the reverse proxy, dialing, upgrading and opening files are I/O.
- logger.go: the `FramesFormatter` rendering and the creation of log directories and files. The rendering is cosmetic and the rest is I/O.
- `json.Unmarshal` and `json.Marshal` are foreign library code. They are parameters here (`decode`, `MarshalResult`).
- The non-string branch of `asString` (`fmt.Sprintf("%+v")`) and the `String()` methods of `protocolMessage` (protocol.go:18-28, main.go:84-93) are foreign formatting. The non-string branch is the parameter `formatValue`.
- Colours, the `%36s` padding, `mainProtocolId`'s padding and all log-line text: records are constructors carrying the method and the payload values that `serialize` would render.
- `targetedProtocolMessage` (main.go:75-82) is not used by `dumpStream`.
- The flag definitions other than the filter lists (flags.go:26-37, main.go:23-29) are process configuration. Only the `-s` shortening flag reaches the model, as the `ellipsis` parameter of `serialize`.
- The newer correlation engine, which would use `TargetID`, `decodeProtocolMessage` and per-target log files, is not part of this model. `dumpStream` is modelled as main.go writes it.
- `dumpStream`'s loop never ends, and a nil message from a closed channel would panic. The model runs finite prefixes of a stream of non-nil messages.
- Utils.Center: Go's `int` subtraction `length - len(message)` can overflow only with a width near the 64-bit minimum. That is not modelled: integers are unbounded.
- Filter.ArgumentList.String and Flags.ArgumentList.String carry no contract of their own: their rendering is stated through what `Set` does to them.

## Findings

| source | as written | input that shows it | evidently intended | confidence | as-written member | corrected member |
|---|---|---|---|---|---|---|
| utils.go:14-20 | `padding := (length - len(message)) / 2` truncates toward zero, so a message one character longer than the width gives padding 0, passes the `padding < 0` guard, and `strings.Repeat(" ", -1)` panics | `center("abc", 2)` | a message longer than the width is returned unchanged | not executed | `Utils.CenterPanicsWhenOneOver` | `Utils.CenterCorrected` |
