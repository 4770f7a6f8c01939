/**
 * The envelope decoder of the machine-telemetry ingestion path: it reads the
 * cabinet and playfield ids from the MQTT topic by position, unwraps the
 * three shapes the `message` field comes in, stamps the topic's ids onto every
 * raw event and hands the list to the event normaliser. Every failure on the
 * way collapses the whole queue message to no events.
 *
 * `JSON.parse` and `MachineMessage.fromMachineInput` are oracles, bundled in
 * a `Decoder`.
 */
module SqsMessage {
  import opened Wrappers
  import opened JsStrings
  import opened JsValues
  import opened MachineMessageService

  /** The ids read from a topic; `playfieldId` is `undefined` for a topic without `/`. */
  datatype TopicProperties = TopicProperties(playfieldId: Option<string>, cabinetId: string)

  /** `isValidArrayIndex(i, n)` of the shared library, read as `0 <= i < n`. */
  predicate IsValidArrayIndex(i: int, n: int) {
    0 <= i < n
  }

  /**
   * The directory right after the first occurrence of `property`, or `null`
   * (`None`) when that position is past the end. When `property` does not
   * occur, `indexOf` gives -1 and the lookup lands on the first directory.
   */
  function GetPropertyFromMqttTopic(topicDirs: seq<string>, property: string): (r: Option<string>)
    ensures forall k :: 0 <= k < |topicDirs| && topicDirs[k] == property && property !in topicDirs[..k] ==>
      r == if k + 1 < |topicDirs| then Some(topicDirs[k + 1]) else None
    ensures property !in topicDirs ==> r == if |topicDirs| > 0 then Some(topicDirs[0]) else None
  {
    var index := IndexOf(topicDirs, property) + 1;
    if IsValidArrayIndex(index, |topicDirs|) then Some(topicDirs[index]) else None
  }

  /**
   * On a topic without `property` the lookup above does not give `null`: the
   * index -1 + 1 lands on the first directory, which is returned instead.
   */
  lemma AbsentPropertyReadsFirstDirectory(cabinet: string, playfield: string, property: string)
    requires property != cabinet && property != playfield
    ensures GetPropertyFromMqttTopic([cabinet, playfield], property) == Some(cabinet)
  {
  }

  /**
   * The lookup as evidently intended: the directory right after the first
   * occurrence of `property`, and nothing when `property` does not occur
   * or is the last directory.
   */
  function GetPropertyAfter(topicDirs: seq<string>, property: string): (r: Option<string>)
    ensures r.Some? <==> property in topicDirs && IndexOf(topicDirs, property) + 1 < |topicDirs|
    ensures r.Some? ==> exists k :: 0 <= k < |topicDirs| - 1 && topicDirs[k] == property
                                  && property !in topicDirs[..k] && r.value == topicDirs[k + 1]
    ensures property !in topicDirs ==> r.None?
  {
    var index := IndexOf(topicDirs, property);
    if index >= 0 && IsValidArrayIndex(index + 1, |topicDirs|) then Some(topicDirs[index + 1]) else None
  }

  /**
   * `cabinet` is the text before the first `/` of `topic`, and `playfield`
   * the text from there up to the second `/` or the end.
   */
  predicate FirstTwoDirectories(topic: string, cabinet: string, playfield: string) {
    var c := |cabinet|;
    && c < |topic| && topic[..c] == cabinet && topic[c] == '/'
    && '/' !in playfield
    && var end := c + 1 + |playfield|;
    && end <= |topic| && topic[c + 1..end] == playfield
    && (end == |topic| || topic[end] == '/')
  }

  /**
   * Positional topic decoding: the cabinet id is the text before the first
   * `/` (the whole topic when there is none), the playfield id the text
   * between the first and the second `/` (or the end), and undefined when
   * the topic has no `/`.
   */
  function GetPropertiesFromMqttTopic(topic: string): (props: TopicProperties)
    ensures '/' !in props.cabinetId
    ensures '/' !in topic ==> props.cabinetId == topic && props.playfieldId == None
    ensures '/' in topic ==> props.playfieldId.Some? && FirstTwoDirectories(topic, props.cabinetId, props.playfieldId.value)
  {
    var topicDirectories := Split(topic, '/');
    SplitHead(topic, '/');
    if |topicDirectories| > 1 then
      SplitSecond(topic, '/');
      TopicProperties(Some(topicDirectories[1]), topicDirectories[0])
    else
      TopicProperties(None, topicDirectories[0])
  }

  /**
   * A queue message as either receiver sees it: the SDK's `Message` carries
   * `Body`, the Lambda event's `SQSRecord` carries `body`.
   */
  datatype QueueMessage = QueueMessage(Body: Option<string>, body: Option<string>)

  /** The text handed to `JSON.parse` (`Body || body`), or `None` when both are absent or empty. */
  function BodyText(m: QueueMessage): (r: Option<string>)
    ensures r.None? <==> !Truthy(m.Body) && !Truthy(m.body)
    ensures r.Some? ==> r.value != "" && (r.value == m.Body.GetOr("") || r.value == m.body.GetOr(""))
    ensures Truthy(m.Body) ==> r == m.Body
  {
    if !Truthy(m.Body) && !Truthy(m.body) then None
    else Some(if Truthy(m.Body) then m.Body.value else m.body.value)
  }

  /**
   * The raw event list of a `message` field, or `None` when reading
   * `message.e` throws. A nested `{e: [...]}` yields its `e` array, a bare
   * array is used as it is, and any other value becomes a one-element list,
   * including an event whose `e` is its event-type string.
   */
  function RawEvents(message: Value): (r: Option<seq<Value>>)
    ensures r.None? <==> message.Undefined? || message.Null?
    ensures message.Obj? && "e" in message.fields && message.fields["e"].Arr? ==>
      r == Some(message.fields["e"].items)
    ensures message.Arr? ==> r == Some(message.items)
    ensures (&& !message.Arr?
             && !(message.Obj? && "e" in message.fields && message.fields["e"].Arr?)
             && !message.Undefined? && !message.Null?) ==> r == Some([message])
  {
    match Get(message, "e")
    case None => None
    case Some(e) =>
      var isNested := e != Undefined && e.Arr?;
      var messagesFromBody := if isNested then e else message;
      Some(if messagesFromBody.Arr? then messagesFromBody.items else [messagesFromBody])
  }

  /** The value stored under `p`: the playfield id, or `undefined`. */
  function PlayfieldValue(playfieldId: Option<string>): Value {
    match playfieldId
    case Some(p) => Str(p)
    case None => Undefined
  }

  /**
   * `{...m, c: cabinetId, p: playfieldId}`: every own property of the raw
   * event is kept except `c` and `p`, which the topic's ids overwrite.
   */
  function WithProps(m: Value, props: TopicProperties): (r: Value)
    ensures r.Obj?
    ensures "c" in r.fields && r.fields["c"] == Str(props.cabinetId)
    ensures "p" in r.fields && r.fields["p"] == PlayfieldValue(props.playfieldId)
    ensures forall k :: k != "c" && k != "p" ==> (k in r.fields <==> k in Spread(m))
    ensures forall k :: k != "c" && k != "p" && k in Spread(m) ==> r.fields[k] == Spread(m)[k]
  {
    Obj(Spread(m)["c" := Str(props.cabinetId)]["p" := PlayfieldValue(props.playfieldId)])
  }

  /** `messages.map(...)`: one stamped event per raw event, in the same order. */
  function StampAll(messages: seq<Value>, props: TopicProperties): (r: seq<Value>)
    ensures |r| == |messages|
    ensures forall i :: 0 <= i < |messages| ==> r[i] == WithProps(messages[i], props)
  {
    seq(|messages|, i requires 0 <= i < |messages| => WithProps(messages[i], props))
  }

  /** The two collaborators the decoder calls; `None` stands for a thrown exception. */
  datatype Decoder = Decoder(
    parse: string -> Option<Value>,
    fromMachineInput: seq<Value> -> Option<seq<MachineMessage>>)

  /**
   * The list handed to `fromMachineInput` for a body text, or `None` when
   * something throws first: a syntax error, a parsed body that is `null`, a
   * `topic` that is not a string (`split` of undefined), or a `message`
   * that is missing or `null`.
   */
  function MachineInputs(parse: string -> Option<Value>, text: string): (r: Option<seq<Value>>)
    ensures r.Some? <==> (&& parse(text).Some? && parse(text).value.Obj?
                          && var fields := parse(text).value.fields;
                          && "topic" in fields && fields["topic"].Str?
                          && "message" in fields && !fields["message"].Undefined? && !fields["message"].Null?)
  {
    match parse(text)
    case None => None
    case Some(parsedBody) =>
      match Get(parsedBody, "topic")
      case None => None
      case Some(topic) =>
        if !topic.Str? then None
        else
          var props := GetPropertiesFromMqttTopic(topic.s);
          match Get(parsedBody, "message")
          case None => None
          case Some(message) =>
            match RawEvents(message)
            case None => None
            case Some(messages) => Some(StampAll(messages, props))
  }

  /** `getMachineMessagesFromSQSMessage`: the decoded events of one queue message. */
  function GetMachineMessagesFromSqsMessage(dec: Decoder, m: QueueMessage): (r: seq<MachineMessage>)
    // events come only from a body that decoded all the way through `fromMachineInput`
    ensures r != [] ==> (&& BodyText(m).Some? && MachineInputs(dec.parse, BodyText(m).value).Some?
                         && dec.fromMachineInput(MachineInputs(dec.parse, BodyText(m).value).value) == Some(r))
    // and such a body yields exactly what `fromMachineInput` returned
    ensures (&& BodyText(m).Some? && MachineInputs(dec.parse, BodyText(m).value).Some?
             && dec.fromMachineInput(MachineInputs(dec.parse, BodyText(m).value).value).Some?)
        ==> Some(r) == dec.fromMachineInput(MachineInputs(dec.parse, BodyText(m).value).value)
  {
    match BodyText(m)
    case None => []
    case Some(text) =>
      match MachineInputs(dec.parse, text)
      case None => []
      case Some(inputs) =>
        match dec.fromMachineInput(inputs)
        case None => []
        case Some(machineMessages) => machineMessages
  }

  /** A message whose bodies are both absent or empty decodes to nothing, whatever the parser would say. */
  lemma EmptyBodyDecodesToNothing(dec: Decoder, m: QueueMessage)
    requires !Truthy(m.Body) && !Truthy(m.body)
    ensures GetMachineMessagesFromSqsMessage(dec, m) == []
  {
  }

  /** Every failure on the way to `fromMachineInput`, and a failure inside it, yields no events. */
  lemma DecodeFailuresYieldNothing(dec: Decoder, m: QueueMessage)
    requires BodyText(m).Some?
    requires var text := BodyText(m).value;
      || dec.parse(text).None?
      || (var parsed := dec.parse(text).value;
          || parsed.Undefined? || parsed.Null?
          || !(parsed.Obj? && "topic" in parsed.fields && parsed.fields["topic"].Str?)
          || !("message" in parsed.fields) || parsed.fields["message"].Null?)
      || (MachineInputs(dec.parse, text).Some? && dec.fromMachineInput(MachineInputs(dec.parse, text).value).None?)
    ensures GetMachineMessagesFromSqsMessage(dec, m) == []
  {
  }

  /**
   * For a well-formed body the list handed to `fromMachineInput` is the raw
   * event list of its `message` field, of the same length and in the same
   * order, each event stamped with the topic's ids; the decoded events are
   * exactly what `fromMachineInput` returns for it.
   */
  lemma DecodeWellFormed(dec: Decoder, m: QueueMessage, topic: string, fields: map<string, Value>)
    requires BodyText(m).Some?
    requires dec.parse(BodyText(m).value) == Some(Obj(fields))
    requires "topic" in fields && fields["topic"] == Str(topic)
    requires "message" in fields && !fields["message"].Null? && !fields["message"].Undefined?
    ensures var raw := RawEvents(fields["message"]).value;
      var inputs := MachineInputs(dec.parse, BodyText(m).value);
      && inputs.Some? && |inputs.value| == |raw|
      && (forall i :: 0 <= i < |raw| ==> inputs.value[i] == WithProps(raw[i], GetPropertiesFromMqttTopic(topic)))
      && GetMachineMessagesFromSqsMessage(dec, m) == dec.fromMachineInput(inputs.value).GetOr([])
  {
  }

  /** A parsed body with a string topic and a `message` yields the message's raw events, stamped. */
  lemma InputsOfBody(parse: string -> Option<Value>, text: string, topic: string, message: Value)
    requires parse(text) == Some(Obj(map["topic" := Str(topic), "message" := message]))
    requires !message.Undefined? && !message.Null?
    ensures MachineInputs(parse, text) == Some(StampAll(RawEvents(message).value, GetPropertiesFromMqttTopic(topic)))
  {
    var body := parse(text).value;
    assert Get(body, "topic") == Some(Str(topic));
    assert Get(body, "message") == Some(message);
  }

  /**
   * A nested message with two events under the topic `c/p/rest` yields two
   * inputs, in order, each stamped with cabinet `c` and playfield `p`.
   */
  lemma NestedTwoEvents(parse: string -> Option<Value>, text: string, c: string, p: string, rest: string,
                        a: map<string, Value>, b: map<string, Value>)
    requires '/' !in c && '/' !in p && '/' !in rest
    requires parse(text) == Some(Obj(map["topic" := Str(c + "/" + p + "/" + rest),
                                         "message" := Obj(map["e" := Arr([Obj(a), Obj(b)])])]))
    ensures MachineInputs(parse, text) == Some([
      Obj(a["c" := Str(c)]["p" := Str(p)]),
      Obj(b["c" := Str(c)]["p" := Str(p)])])
  {
    InputsOfBody(parse, text, c + "/" + p + "/" + rest, Obj(map["e" := Arr([Obj(a), Obj(b)])]));
    TopicOfScenario(c, p, rest);
    StampTwo(a, b, TopicProperties(Some(p), c));
  }

  /**
   * The unit-test fixture's shape: a single event whose `e` is its event-type
   * string is not mistaken for the nested form and yields one stamped input.
   */
  lemma SingleEventWithTypeString(parse: string -> Option<Value>, text: string, c: string, p: string, rest: string,
                                  event: map<string, Value>, eventType: string)
    requires '/' !in c && '/' !in p && '/' !in rest
    requires "e" in event && event["e"] == Str(eventType)
    requires parse(text) == Some(Obj(map["topic" := Str(c + "/" + p + "/" + rest), "message" := Obj(event)]))
    ensures MachineInputs(parse, text) == Some([Obj(event["c" := Str(c)]["p" := Str(p)])])
  {
    InputsOfBody(parse, text, c + "/" + p + "/" + rest, Obj(event));
    TopicOfScenario(c, p, rest);
    StampOne(event, TopicProperties(Some(p), c));
  }

  lemma StampOne(a: map<string, Value>, props: TopicProperties)
    requires props.playfieldId.Some?
    ensures StampAll([Obj(a)], props)
         == [Obj(a["c" := Str(props.cabinetId)]["p" := Str(props.playfieldId.value)])]
  {
  }

  lemma StampTwo(a: map<string, Value>, b: map<string, Value>, props: TopicProperties)
    requires props.playfieldId.Some?
    ensures StampAll([Obj(a), Obj(b)], props)
         == [Obj(a["c" := Str(props.cabinetId)]["p" := Str(props.playfieldId.value)]),
             Obj(b["c" := Str(props.cabinetId)]["p" := Str(props.playfieldId.value)])]
  {
  }

  /** A three-segment topic yields its first two segments. */
  lemma TopicOfScenario(cabinet: string, playfield: string, rest: string)
    requires '/' !in cabinet && '/' !in playfield && '/' !in rest
    ensures GetPropertiesFromMqttTopic(cabinet + "/" + playfield + "/" + rest)
         == TopicProperties(Some(playfield), cabinet)
  {
    var parts := [cabinet, playfield, rest];
    assert Join(parts[2..], '/') == rest;
    assert Join(parts[1..], '/') == playfield + "/" + rest;
    assert Join(parts, '/') == cabinet + "/" + playfield + "/" + rest;
    SplitJoin(parts, '/');
  }
}
