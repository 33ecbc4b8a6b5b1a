/** Client and server together: the question the weather widget's Retry
    button posts names a city that the server's extractor reads back, and the
    server's answer renders as one block holding its weather widget. */
module RoundTrip {
  import opened Common
  import opened Text
  import opened CityPattern
  import opened Backend
  import opened Frontend

  /** The part of the Retry question before "in". It holds no letter 'i'. */
  const Lead: string := "What's the weather "

  /** The content the Retry button posts for `city`. */
  function RetryContent(city: string): string {
    "What's the weather in " + city + "?"
  }

  function RetryRequest(city: string): seq<ChatTurn> {
    [ChatTurn("human", RetryContent(city))]
  }

  /** The server's message list as the client receives it. The node only
      ever answers with AI messages that carry an id. */
  function ReplyOnWire(out: NodeOutput): AgentResponse
    requires forall k :: 0 <= k < |out.messages| ==> IsAnswer(out.messages[k])
  {
    AgentResponse(
      seq(|out.messages|, k requires 0 <= k < |out.messages| && IsAnswer(out.messages[k])
                          => Message(out.messages[k].id.value, out.messages[k].content)),
      seq(|out.ui|, k requires 0 <= k < |out.ui|
                    => var u := out.ui[k];
                       UI(u.id, u.name, u.props, Some(Metadata(u.metadata.messageId, Some(u.metadata.merge))))))
  }

  /** The Retry question is the lead, then "in ", the city and "?"; the first
      "in" of it is at index 19. */
  lemma RetryContentShape(city: string)
    ensures RetryContent(city) == Lead + "in " + city + "?"
    ensures |RetryContent(city)| == |city| + 23
    ensures forall j :: 0 <= j < 19 ==> RetryContent(city)[j] != 'i'
    ensures RetryContent(city)[19] == 'i' && RetryContent(city)[20] == 'n' && RetryContent(city)[21] == ' '
    ensures RetryContent(city)[22 + |city|] == '?'
    ensures RetryContent(city)[22..22 + |city|] == city
  {
    var t := RetryContent(city);
    assert t == Lead + "in " + city + "?";
    assert 'i' !in Lead;
    forall j | 0 <= j < 19
      ensures t[j] != 'i'
    {
      assert t[j] == Lead[j];
      assert Lead[j] in Lead;
    }
  }

  /** The Retry question for a non-empty city of letters and whitespace
      matches first at the "in" before the city, and its city run is the
      space after "in" followed by the city. */
  lemma RetryMatch(city: string)
    requires |city| > 0 && AllCityChars(city)
    ensures FirstMatch(RetryContent(city), 0) == Some(19)
    ensures CityRun(RetryContent(city), 21) == |city| + 1
    ensures RetryContent(city)[21..22 + |city|] == [' '] + city
  {
    var t := RetryContent(city);
    RetryContentShape(city);
    assert t[22] == city[0];
    assert MatchesAt(t, 19);
    FirstMatchIs(t, 0, 19);
    forall k | 21 <= k < 22 + |city|
      ensures IsCityChar(t[k])
    {
      if k > 21 {
        assert t[k] == t[22..22 + |city|][k - 22];
      }
    }
    CityRunIs(t, 21, |city| + 1);
    assert t[21..22 + |city|] == [t[21]] + t[22..22 + |city|];
  }

  /** Round trip: for a non-empty city made of letters and whitespace, the
      server reads back the stripped city from the Retry question. */
  lemma RetryRoundTrip(city: string)
    requires |city| > 0 && AllCityChars(city)
    ensures Converted(RetryRequest(city)) == Success([HumanMessage(RetryContent(city))])
    ensures CityFor([HumanMessage(RetryContent(city))]) == Strip(city)
  {
    var t := RetryContent(city);
    RetryMatch(city);
    LeftmostMatchAgrees(t, 19);
    StripDropsLeadingWhitespace([' '], city);
    assert CityIn(t) == Strip(city);
    CityForReadsNewestHuman([HumanMessage(t)], 0);
    var converted := Converted(RetryRequest(city));
    assert Supported(RetryRequest(city)[0].msgType);
    assert converted.Success? && |converted.value| == 1;
    assert ToBaseMessage(RetryRequest(city)[0]) == Some(HumanMessage(t));
    assert converted.value == [HumanMessage(t)];
  }

  /** With an empty city the question has no match and the default comes back. */
  lemma RetryEmptyCity()
    ensures CityFor([HumanMessage(RetryContent(""))]) == DefaultCity
  {
    var t := RetryContent("");
    RetryContentShape("");
    assert !IsCityChar(t[22]);
    assert forall j :: 0 <= j ==> !MatchesAt(t, j);
    CityForReadsNewestHuman([HumanMessage(t)], 0);
  }

  /** "Berlin" is a city the extractor can read back unchanged. */
  lemma BerlinIsPlainCity(city: string)
    requires city == "Berlin"
    ensures |city| > 0 && AllCityChars(city) && IsStripped(city)
    ensures DefaultRequest == RetryRequest(city)
  {
    assert IsAsciiLetter(city[0]) && IsAsciiLetter(city[1]) && IsAsciiLetter(city[2]);
    assert IsAsciiLetter(city[3]) && IsAsciiLetter(city[4]) && IsAsciiLetter(city[5]);
    assert RetryContent(city) == "What's the weather in Berlin?";
  }

  /** The client's own request is the Retry question for Berlin, so the
      server reads "Berlin". */
  lemma DefaultRequestNamesBerlin(city: string)
    requires city == "Berlin"
    ensures Converted(DefaultRequest).Success?
    ensures CityFor(Converted(DefaultRequest).value) == city
  {
    BerlinIsPlainCity(city);
    RetryRoundTrip(city);
    StripOfStripped(city);
  }

  /** The node's answer as the client receives it: one message carrying the
      stripped reply and one `weather` entry pointing back at it. */
  lemma WeatherUpdateOnWire(city: string, reply: string, messageId: string, uiId: string)
    ensures ReplyOnWire(WeatherUpdate(city, reply, messageId, uiId))
            == AgentResponse([Message(messageId, Strip(reply))],
                             [UI(uiId, "weather", map["city" := city], Some(Metadata(messageId, Some(false))))])
  {
    var out := WeatherUpdate(city, reply, messageId, uiId);
    var r := ReplyOnWire(out);
    var m := Message(messageId, Strip(reply));
    var u := UI(uiId, "weather", map["city" := city], Some(Metadata(messageId, Some(false))));
    assert |r.messages| == 1 && r.messages[0] == m;
    assert r.messages == [m];
    assert |r.ui| == 1 && r.ui[0] == u;
    assert r.ui == [u];
  }

  /** One message with one entry that names it renders as one block holding
      that entry's widget. */
  lemma OneBlockOneWidget(m: Message, u: UI)
    requires BelongsTo(u, m.id)
    ensures Render(false, [m], [u]) == Transcript([Block(m.id, m.content, [WidgetOf(u)])])
  {
    assert WidgetsFor([u], m.id) == [u];
    assert BlockFor(m, [u]).widgets == [WidgetOf(u)];
    assert Blocks([m], [u]) == [BlockFor(m, [u])];
  }

  /** The node's answer, once received, renders as one block: the reply text
      followed by one widget showing the node's city. */
  lemma WeatherAnswerRenders(city: string, reply: string, messageId: string, uiId: string)
    ensures Render(false, ReplyOnWire(WeatherUpdate(city, reply, messageId, uiId)).messages,
                   ReplyOnWire(WeatherUpdate(city, reply, messageId, uiId)).ui)
            == Transcript([Block(messageId, Strip(reply), [Widget(uiId, city)])])
  {
    WeatherUpdateOnWire(city, reply, messageId, uiId);
    var u := UI(uiId, "weather", map["city" := city], Some(Metadata(messageId, Some(false))));
    assert WidgetOf(u) == Widget(uiId, city);
    OneBlockOneWidget(Message(messageId, Strip(reply)), u);
  }
}
