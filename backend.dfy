/** The server: the `/chat` handler turns the posted `{type, content}` turns
    into LangChain messages, all or nothing, and runs the one-node graph; the
    `weather` node reads a city out of the newest human message and answers
    with one AI message and one `weather` widget linked to it.

    The language model's reply and the two uuids are parameters: they come
    from a network call and from randomness. */
module Backend {
  import opened Common
  import opened Text
  import opened CityPattern

  /** The LangChain messages the graph works on. Converted request messages
      carry no id; the node's own reply does. */
  datatype BaseMessage =
    | HumanMessage(content: string)
    | AIMessage(content: string, id: Option<string>)

  /** A message the node itself produced: an AI message with an id. */
  predicate IsAnswer(m: BaseMessage) {
    m.AIMessage? && m.id.Some?
  }

  datatype UIMetadata = UIMetadata(messageId: string, merge: bool)

  /** A UI message as the node pushes it: `{type, id, name, props, metadata}`. */
  datatype UIMessage = UIMessage(uiType: string, id: string, name: string,
                                 props: map<string, string>, metadata: UIMetadata)

  /** The state update a graph node returns. */
  datatype NodeOutput = NodeOutput(messages: seq<BaseMessage>, ui: seq<UIMessage>)

  /** What `/chat` answers: the graph's result, or a 500 with `{"error": …}`. */
  datatype ChatResponse = Ok(result: NodeOutput) | ServerError(status: int, error: string)

  const DefaultCity: string := "your city"

  function UnsupportedError(msgType: string): string {
    "Unsupported message type: " + msgType
  }

  /** Only these two type tags, exactly as written, are accepted. */
  predicate Supported(msgType: string) {
    msgType == "human" || msgType == "ai"
  }

  /** The message one request turn becomes, if its type is supported. */
  function ToBaseMessage(turn: ChatTurn): (r: Option<BaseMessage>)
    ensures r.Some? <==> Supported(turn.msgType)
    ensures r.Some? ==> r.value.content == turn.content
    ensures r.Some? ==> (r.value.HumanMessage? <==> turn.msgType == "human")
    ensures r.Some? && r.value.AIMessage? ==> r.value.id.None?
  {
    if turn.msgType == "human" then Some(HumanMessage(turn.content))
    else if turn.msgType == "ai" then Some(AIMessage(turn.content, None))
    else None
  }

  /** `k` is the first turn whose type is not supported. */
  predicate FirstUnsupportedAt(request: seq<ChatTurn>, k: int) {
    && 0 <= k < |request|
    && !Supported(request[k].msgType)
    && forall j :: 0 <= j < k ==> Supported(request[j].msgType)
  }

  // ---------------------------------------------------------------------
  // Request conversion

  /** The conversion of a whole request, turn by turn from the first. */
  function Converted(request: seq<ChatTurn>): (r: Result<seq<BaseMessage>, string>)
    ensures r.Success? <==> forall k :: 0 <= k < |request| ==> Supported(request[k].msgType)
    ensures r.Success? ==> |r.value| == |request|
    ensures r.Success? ==> forall k :: 0 <= k < |request| ==> ToBaseMessage(request[k]) == Some(r.value[k])
    ensures r.Failure? ==> exists k :: FirstUnsupportedAt(request, k)
                                       && r.error == UnsupportedError(request[k].msgType)
  {
    if request == [] then Success([])
    else
      var init := request[..|request| - 1];
      var last := request[|request| - 1];
      match Converted(init)
      case Failure(e) =>
        assert forall k :: FirstUnsupportedAt(init, k) ==> FirstUnsupportedAt(request, k);
        Failure(e)
      case Success(ms) =>
        match ToBaseMessage(last)
        case None =>
          assert FirstUnsupportedAt(request, |request| - 1);
          Failure(UnsupportedError(last.msgType))
        case Some(m) => Success(ms + [m])
  }

  /** A failed request stays failed, with the same error, when one more turn
      is appended to it. */
  lemma FailureStaysFailure(request: seq<ChatTurn>)
    requires |request| > 0 && Converted(request[..|request| - 1]).Failure?
    ensures Converted(request) == Converted(request[..|request| - 1])
  {
  }

  /** Once a prefix of the request fails, the whole request fails the same way. */
  lemma {:induction false} FailureIsFinal(request: seq<ChatTurn>, n: nat)
    requires n <= |request|
    requires Converted(request[..n]).Failure?
    ensures Converted(request) == Converted(request[..n])
    decreases |request|
  {
    if n < |request| {
      var init := request[..|request| - 1];
      assert init[..n] == request[..n];
      FailureIsFinal(init, n);
      FailureStaysFailure(request);
    } else {
      assert request[..n] == request;
    }
  }

  /** The loop of `chat` that builds `converted`, raising on the first turn
      of an unsupported type. */
  method ConvertMessages(request: seq<ChatTurn>) returns (r: Result<seq<BaseMessage>, string>)
    ensures r == Converted(request)
  {
    var converted: seq<BaseMessage> := [];
    var i := 0;
    while i < |request|
      invariant 0 <= i <= |request|
      invariant Converted(request[..i]) == Success(converted)
    {
      var turn := request[i];
      assert request[..i + 1][..i] == request[..i];
      if turn.msgType == "human" {
        converted := converted + [HumanMessage(turn.content)];
      } else if turn.msgType == "ai" {
        converted := converted + [AIMessage(turn.content, None)];
      } else {
        r := Failure(UnsupportedError(turn.msgType));
        FailureIsFinal(request, i + 1);
        return;
      }
      i := i + 1;
    }
    assert request[..i] == request;
    r := Success(converted);
  }

  // ---------------------------------------------------------------------
  // City extraction

  /** Index of the newest human message, if there is one. */
  function LatestHuman(messages: seq<BaseMessage>): (r: Option<nat>)
    ensures r.Some? ==> r.value < |messages| && messages[r.value].HumanMessage?
    ensures r.Some? ==> forall j :: r.value < j < |messages| ==> !messages[j].HumanMessage?
    ensures r.None? ==> forall j :: 0 <= j < |messages| ==> !messages[j].HumanMessage?
  {
    if messages == [] then None
    else if messages[|messages| - 1].HumanMessage? then Some(|messages| - 1)
    else LatestHuman(messages[..|messages| - 1])
  }

  /** A human message with only non-human messages after it is the newest one. */
  lemma LatestHumanIs(messages: seq<BaseMessage>, k: nat)
    requires k < |messages| && messages[k].HumanMessage?
    requires forall j :: k < j < |messages| ==> !messages[j].HumanMessage?
    ensures LatestHuman(messages) == Some(k)
  {
    var r := LatestHuman(messages);
    assert r.Some?;
    assert !(r.value < k) && !(r.value > k);
  }

  /** The city one human message names: the stripped group of the pattern,
      or the default when the pattern does not match. */
  function CityIn(content: string): (city: string)
    ensures Search(content).None? ==> city == DefaultCity
    ensures Search(content).Some? ==> AllCityChars(city) && IsStripped(city)
  {
    match Search(content)
    case None => DefaultCity
    case Some(group) =>
      StripKeepsClass(group);
      Strip(group)
  }

  /** The city the node reports for a conversation: only the newest human
      message is read. */
  function CityFor(messages: seq<BaseMessage>): (city: string)
    ensures LatestHuman(messages).None? ==> city == DefaultCity
    ensures city == DefaultCity || (AllCityChars(city) && IsStripped(city))
  {
    match LatestHuman(messages)
    case None => DefaultCity
    case Some(k) => CityIn(messages[k].content)
  }

  /** The dictionary the node returns: the AI message built from the stripped
      reply and a `weather` widget that points back at it. */
  function WeatherUpdate(city: string, reply: string, messageId: string, uiId: string): (out: NodeOutput)
    ensures |out.messages| == 1 && |out.ui| == 1
    ensures IsAnswer(out.messages[0]) && out.messages[0].id == Some(messageId)
    ensures out.ui[0].metadata.messageId == messageId
    ensures out.ui[0].id == uiId && out.ui[0].uiType == "ui"
    ensures out.messages[0].content == Strip(reply)
    ensures out.ui[0].name == "weather" && out.ui[0].props == map["city" := city]
    ensures !out.ui[0].metadata.merge
  {
    var message := AIMessage(Strip(reply), Some(messageId));
    NodeOutput([message],
               [UIMessage("ui", uiId, "weather", map["city" := city], UIMetadata(messageId, false))])
  }

  /** The `weather` node: walks the messages from the newest, stops at the
      first human one and takes the city from it. */
  method Weather(messages: seq<BaseMessage>, reply: string, messageId: string, uiId: string)
    returns (out: NodeOutput)
    ensures out == WeatherUpdate(CityFor(messages), reply, messageId, uiId)
  {
    var city := DefaultCity;
    var i := |messages|;
    while i > 0
      invariant 0 <= i <= |messages|
      invariant forall j :: i <= j < |messages| ==> !messages[j].HumanMessage?
      invariant city == DefaultCity
    {
      i := i - 1;
      var msg := messages[i];
      if msg.HumanMessage? {
        var found := Search(msg.content);
        if found.Some? {
          city := Strip(found.value);
        }
        LatestHumanIs(messages, i);
        assert city == CityIn(msg.content);
        break;
      }
    }
    out := WeatherUpdate(city, reply, messageId, uiId);
  }

  /** `/chat`: convert, then run the node; an unsupported type becomes a 500. */
  method Chat(request: seq<ChatTurn>, reply: string, messageId: string, uiId: string)
    returns (response: ChatResponse)
    ensures response.ServerError? <==> exists k :: 0 <= k < |request| && !Supported(request[k].msgType)
    ensures response.ServerError? ==>
              && response.status == 500
              && exists k :: FirstUnsupportedAt(request, k) && response.error == UnsupportedError(request[k].msgType)
    ensures response.Ok? ==>
              && Converted(request).Success?
              && response.result == WeatherUpdate(CityFor(Converted(request).value), reply, messageId, uiId)
  {
    var converted := ConvertMessages(request);
    match converted
    case Failure(e) =>
      response := ServerError(500, e);
    case Success(ms) =>
      var out := Weather(ms, reply, messageId, uiId);
      response := Ok(out);
  }

  // ---------------------------------------------------------------------
  // What the city extraction promises

  /** Only the newest human message is read; every message after it is an AI message. */
  lemma {:induction false} CityForReadsNewestHuman(messages: seq<BaseMessage>, k: nat)
    requires k < |messages| && messages[k].HumanMessage?
    requires forall j :: k < j < |messages| ==> messages[j].AIMessage?
    ensures CityFor(messages) == CityIn(messages[k].content)
  {
    LatestHumanIs(messages, k);
  }

  /** Without any human message the city is the default. */
  lemma CityForWithoutHuman(messages: seq<BaseMessage>)
    requires forall j :: 0 <= j < |messages| ==> messages[j].AIMessage?
    ensures CityFor(messages) == DefaultCity
  {
  }

  /** The city one human message names is the plain rule's city: the longest
      run of letters and whitespace after the leftmost "in" and its whitespace,
      stripped, or the default when there is no such "in". */
  lemma CityInIsPlainRule(s: string)
    ensures PlainRuleCity(s).None? ==> CityIn(s) == DefaultCity
    ensures PlainRuleCity(s).Some? ==> CityIn(s) == PlainRuleCity(s).value
  {
    SearchAgreesWithPlainRule(s);
  }

  // ---------------------------------------------------------------------
  // Worked inputs

  /** The city of a message whose leftmost match has a group with nothing to strip. */
  lemma CityInIs(s: string, i: nat, g: string)
    requires FirstMatch(s, 0) == Some(i) && Group(s, i) == g && IsStripped(g)
    ensures CityIn(s) == g
  {
    StripOfStripped(g);
  }

  /** The leftmost match in "Will it rain in Paris?" is the "in" of "rain". */
  lemma RainInParisMatch(s: string)
    requires s == "Will it rain in Paris?"
    ensures FirstMatch(s, 0) == Some(10)
  {
    assert s[0] == 'W' && s[1] == 'i' && s[2] == 'l' && s[3] == 'l' && s[4] == ' ';
    assert s[5] == 'i' && s[6] == 't' && s[7] == ' ' && s[8] == 'r' && s[9] == 'a';
    assert s[10] == 'i' && s[11] == 'n' && s[12] == ' ' && s[13] == 'i';
    FirstMatchIs(s, 0, 10);
  }

  /** Group 1 of that match is "in Paris". */
  lemma RainInParisGroup(s: string)
    requires s == "Will it rain in Paris?"
    ensures FirstMatch(s, 0) == Some(10) && Group(s, 10) == s[13..21]
  {
    RainInParisMatch(s);
    assert s[12] == ' ' && s[13] == 'i' && s[14] == 'n';
    assert s[15] == ' ' && s[16] == 'P' && s[21] == '?';
    WhitespaceRunIs(s, 12, 1);
    CityRunIs(s, 13, 8);
    assert GroupStart(s, 10) == 13;
    GroupIs(s, 10, 13, 8);
  }

  /** Matching is leftmost and "in" need not start a word: the "in" of
      "rain" comes first, so the city is "in Paris". */
  lemma RainInParis(s: string)
    requires s == "Will it rain in Paris?"
    ensures CityIn(s) == "in Paris"
  {
    RainInParisGroup(s);
    assert s[13..21] == "in Paris";
    CityInIs(s, 10, "in Paris");
  }

  /** Matching is case-sensitive: "In" is not "in". */
  lemma CapitalInDoesNotMatch(s: string)
    requires s == "In Berlin"
    ensures CityIn(s) == DefaultCity
  {
    assert s[0] == 'I' && s[1] == 'n' && s[2] == ' ' && s[3] == 'B' && s[4] == 'e' && s[5] == 'r';
    assert forall j :: 0 <= j ==> !MatchesAt(s, j);
  }

  /** The group may be a lone whitespace, so the city may be empty. */
  lemma EmptyCity(s: string)
    requires s == "in  ?"
    ensures CityIn(s) == ""
  {
    assert s[0] == 'i' && s[1] == 'n' && s[2] == ' ' && s[3] == ' ' && s[4] == '?';
    FirstMatchIs(s, 0, 0);
    WhitespaceRunIs(s, 2, 2);
    assert !IsAsciiLetter(s[4]);
    assert GroupStart(s, 0) == 3;
    CityRunIs(s, 3, 1);
    GroupIs(s, 0, 3, 1);
    assert Group(s, 0) == [' '];
    StripAllWhitespace([' ']);
  }

  /** An older human message that names a city does not count once a newer
      human message names none. */
  lemma OlderHumanMessageIgnored(reply: string)
    ensures CityFor([HumanMessage("Will it rain in Paris?"), AIMessage(reply, None), HumanMessage("Hello")])
            == DefaultCity
  {
    var messages := [HumanMessage("Will it rain in Paris?"), AIMessage(reply, None), HumanMessage("Hello")];
    CityForReadsNewestHuman(messages, 2);
    var s := "Hello";
    assert s[0] == 'H' && s[1] == 'e';
    assert forall j :: 0 <= j ==> !MatchesAt(s, j);
  }
}
