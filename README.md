# Weather chat demo: request conversion, city extraction and message/widget correlation

The repository is a small chat demo. A FastAPI server exposes `POST /chat`.
It converts the posted `{type, content}` turns into LangChain messages and
runs a one-node LangGraph graph. The `weather` node asks a language model for
a reply. It reads a city out of the newest human message with the pattern
`in\s+([A-Za-z\s]+)[\?\.]?`. It answers with one AI message and one `weather`
UI payload whose `metadata.message_id` names that message. A React client posts
a fixed question, keeps three state cells (`loading`, `messages`, `ui`), and
renders one block per message. Each block shows the message text followed by
the UI entries whose `metadata.message_id` equals the message id.

This project models those pieces in Dafny:

- `common.dfy` (`Common`): `Option`, `Result` and the `{type, content}` turn of a request body.
- `text.dfy` (`Text`): Python's whitespace set (`str.isspace`, which is also what `re`'s `\s` tests on a `str` pattern), the class `[A-Za-z\s]`, and `str.strip()` as CPython computes it: a forward scan past the leading whitespace and a backward scan past the trailing whitespace.
- `city_pattern.dfy` (`CityPattern`): `re.search` of the city pattern. It covers leftmost search, the greedy `\s+` and group 1 with backtracking. It proves that the group the engine settles on comes first in backtracking order. It also proves that stripping group 1 gives the same result as a plain rule with no backtracking.
- `backend.dfy` (`Backend`): the conversion loop of `chat`, all or nothing; the loop in `weather` that finds the newest human message; the dictionary the node returns; and `/chat` with its 500 answer.
- `frontend.dfy` (`Frontend`): the client's types, the per-message filter, the render, and a `Store` class whose methods update the three state cells as `fetchReply` does.
- `round_trip.dfy` (`RoundTrip`): the Retry button's question (`What's the weather in ${city}?`) read back by the server, and the server's answer rendered by the client.

Inputs that come from outside are parameters: the model's reply, the two uuids, and the outcome of the fetch.

Three behaviours of the code that a reader might not expect:

- On a failed fetch, `loading` stays true and the old transcript is kept. No error state is shown.
- `metadata` may be absent (`u.metadata?.message_id`).
- The simple client renders every correlated entry as a weather widget, whatever its `name`.

## Model

| member | source | states |
|---|---|---|
| `Backend.Converted` | backend/main.py:93-100 | The conversion succeeds exactly when every turn's type is `"human"` or `"ai"`. On success it keeps length and order, and each turn becomes the message of its type with the same content. On failure the error is `Unsupported message type: <type>` for the first unsupported turn. |
| `Backend.ToBaseMessage` | backend/main.py:95-100 | A turn converts exactly when its type is `"human"` or `"ai"`. It keeps the content. It becomes a human message exactly when the type is `"human"`. An `"ai"` turn becomes an AI message with no id. |
| `Backend.FailureStaysFailure` | backend/main.py:94-100 | A request whose turns before the last already fail converts to that same failure. |
| `Backend.FailureIsFinal` | backend/main.py:94-100 | Once a prefix of the request fails to convert, the whole request fails with the same error. Nothing after the bad turn is looked at. |
| `Backend.ConvertMessages` | backend/main.py:93-100 | The loop that appends to `converted` and raises on an unsupported type returns exactly the conversion specified by `Converted`. |
| `Backend.Chat` | backend/main.py:89-107 | Any unsupported type in the request gives a 500 whose error names the first such type, before the node runs. Otherwise the answer is the weather node's output for the converted messages. |
| `Backend.LatestHuman` | backend/main.py:52-53 | Gives the index of a human message with no human message after it. It gives none only when there is no human message at all. |
| `Backend.CityIn` | backend/main.py:54-56 | With no match the city is `"your city"`. With a match it is letters and whitespace with no whitespace at either end. |
| `Backend.CityInIsPlainRule` | backend/main.py:54-56 | The city one message names is the plain rule's city: the longest run of letters and whitespace after the leftmost `in` and its whitespace, stripped. It is `"your city"` when there is no such `in`. |
| `Backend.CityFor` | backend/main.py:50-57 | With no human message the city is `"your city"`. The result is `"your city"`, or letters and whitespace with no whitespace at either end. That only the newest human message is read is `Backend.CityForReadsNewestHuman`. |
| `Backend.Weather` | backend/main.py:50-80 | The loop from newest to oldest that stops at the first human message yields the city of the newest human message, and the node returns the update built from it. |
| `Backend.WeatherUpdate` | backend/main.py:60-80 | Exactly one AI message, with the stripped reply as content and the first uuid as id, and exactly one UI payload. The payload has `type` `ui`, the second uuid as `id`, `name` `weather`, `props = {"city": city}` and `merge = false`. Its `message_id` is the AI message's id. |
| `Backend.CityForReadsNewestHuman` | backend/main.py:51-57 | Only the newest human message is read. Whatever it yields is the city, whatever older messages say. |
| `Backend.CityForWithoutHuman` | backend/main.py:51-53 | With no human message the city is `"your city"`. |
| `Backend.RainInParis` | backend/main.py:54 | Matching is leftmost and `in` need not start a word. `"Will it rain in Paris?"` yields `"in Paris"`. |
| `Backend.RainInParisMatch` | backend/main.py:54 | In `"Will it rain in Paris?"` the leftmost match is the `in` of `rain`, at index 10. |
| `Backend.RainInParisGroup` | backend/main.py:54 | Group 1 of that match is `"in Paris"`: the greedy `\s+` takes one space and the group runs to the `?`. |
| `Backend.CapitalInDoesNotMatch` | backend/main.py:54 | Matching is case-sensitive. `"In Berlin"` yields `"your city"`. |
| `Backend.EmptyCity` | backend/main.py:54-56 | `"in  ?"` matches with a group of one whitespace character, so the city is the empty string. |
| `Backend.OlderHumanMessageIgnored` | backend/main.py:51-57 | An older human message that names a city is ignored when the newest human message names none. |
| `CityPattern.WhitespaceRun` | backend/main.py:54 | The longest run of `\s` from an index: every character in it is whitespace and the next one is not. |
| `CityPattern.CityRun` | backend/main.py:54 | The longest run of `[A-Za-z\s]` from an index: every character in it is in the class and the next one is not. |
| `CityPattern.PatternAt` | backend/main.py:54 | definition: the pattern matches at `i` with `w` characters for `\s+` and `g` for group 1: `in` at `i`, then `w >= 1` whitespace characters, then `g >= 1` characters of `[A-Za-z\s]`. The optional `[\?\.]?` always succeeds, so it adds no condition. |
| `CityPattern.MatchesAt` | backend/main.py:54 | definition: the pattern matches at `i`: `in` at `i`, whitespace at `i + 2`, and a letter or whitespace at `i + 3`. |
| `CityPattern.MatchesAtIffSomeSplit` | backend/main.py:54 | The pattern matches at a position exactly when that position holds `in`, then whitespace, then one more letter or whitespace. |
| `CityPattern.GroupStart` | backend/main.py:54 | Group 1 starts right after the whole whitespace run when a letter follows it. Otherwise it starts on the last whitespace, which the greedy `\s+` gives back. It always starts inside the string, after `in` and at least one whitespace. |
| `CityPattern.Group` | backend/main.py:54 | Group 1 is the longest `[A-Za-z\s]` run from where it starts. It is non-empty and made of letters and whitespace. |
| `CityPattern.GroupIsFirstBacktrackingSplit` | backend/main.py:54 | The group the model takes is a valid match. No valid split has a longer `\s+`, and none with the same `\s+` has a longer group. This is the split Python's backtracking settles on. |
| `CityPattern.FirstMatch` | backend/main.py:54 | `re.search` is leftmost: the position found matches and none before it does. When none is found, no position matches. |
| `CityPattern.Search` | backend/main.py:54-55 | There is a match exactly when the pattern matches somewhere. Group 1 is non-empty and made of letters and whitespace. |
| `CityPattern.RunAfterIn` | backend/main.py:54-56 | The longest run of letters and whitespace right after an `in`: every character is in the class, and the next one, if any, is not. |
| `CityPattern.PlainRuleCity` | backend/main.py:54-56 | The plain rule finds a city exactly when the pattern matches somewhere. That city is letters and whitespace with no whitespace at either end. |
| `CityPattern.StrippedGroupIsPlainRule` | backend/main.py:54-56 | Stripping group 1 gives the strip of the longest letter-and-whitespace run that follows `in`. |
| `CityPattern.SearchAgreesWithPlainRule` | backend/main.py:54-56 | For every string, the stripped result of `re.search` equals the plain rule: the leftmost `in`, whitespace, letter-or-whitespace, then the longest such run, stripped. |
| `Text.IsWhitespace` | backend/main.py:54-56 | definition: the code points for which Python's `str.isspace()` is true. On a `str` pattern, `re` tests `\s` against the same set, and `str.strip()` with no argument removes these. |
| `Text.SkipWhitespace` | backend/main.py:56 | The forward scan of `strip()` passes only whitespace and stops at the first character that is not whitespace, or at the end. |
| `Text.SkipWhitespaceBack` | backend/main.py:56 | The backward scan of `strip()` passes only whitespace and stops just past the last character that is not whitespace, never going below the forward scan's stop. |
| `Text.SkipWhitespaceIs` | backend/main.py:56 | The forward scan's stop is unique: any index with only whitespace before it and no whitespace at it is where the scan stops. |
| `Text.SkipWhitespaceBackIs` | backend/main.py:56 | The backward scan's stop is unique in the same way. |
| `Text.Strip` | backend/main.py:56 | `strip()` leaves no whitespace at either end and never lengthens its input. |
| `Text.StripIsInfix` | backend/main.py:56 | `strip()` removes exactly a whitespace prefix and a whitespace suffix, and nothing else. |
| `Text.StripDropsLeadingWhitespace` | backend/main.py:56 | Whitespace in front of a string does not change its `strip()`. |
| `Text.StripAllWhitespace` | backend/main.py:56 | A string made only of whitespace strips to the empty string. |
| `Text.StripOfStripped` | backend/main.py:56 | A string with no whitespace at either end is its own `strip()`. |
| `Frontend.WidgetsFor` | frontend/src/App.tsx:58-59 | An entry is kept exactly when it is in `ui` and its `metadata.message_id` equals the message id. An entry without metadata is never kept. |
| `Frontend.BelongsTo` | frontend/src/App.tsx:59 | definition: `u.metadata?.message_id === id`, false when the entry has no metadata. |
| `Frontend.WidgetsForConcat` | frontend/src/App.tsx:58-59 | Filtering a concatenation is the concatenation of the filtered parts, so the filter keeps `ui` order. |
| `Frontend.WidgetsForCount` | frontend/src/App.tsx:58-59 | Each matching entry appears as often as it does in `ui`. No other entry appears. |
| `Frontend.WidgetsForKeepsOrder` | frontend/src/App.tsx:58-60 | Two matching entries appear in the block in the order they have in `ui`. |
| `Frontend.OrphanInNoBlock` | frontend/src/App.tsx:54-59 | An entry whose `message_id` names no message, or which has no metadata, appears in no message's widget list. |
| `Frontend.BlockFor` | frontend/src/App.tsx:55-64 | A block carries the message's id and text, then one widget per correlated entry, in order. Each widget shows that entry's `props.city`. |
| `Frontend.ShownCity` | frontend/src/App.tsx:62 | definition: the `city` property of an entry's props, shown as nothing when it is missing. |
| `Frontend.WidgetOf` | frontend/src/App.tsx:61-62 | definition: a widget is keyed by the entry's `id` and shows its `props.city`. |
| `Frontend.Blocks` | frontend/src/App.tsx:54-66 | One block per message, in `messages` order. |
| `Frontend.Render` | frontend/src/App.tsx:50-52 | The view is the loading placeholder exactly when `loading` is true. |
| `Frontend.RenderShowsEachMessage` | frontend/src/App.tsx:54-64 | The k-th block shows the k-th message's text. Its widgets are exactly those of the `ui` entries that name that message. |
| `Frontend.OneMessageOneWidget` | frontend/src/App.tsx:54-64 | One message `m1` with one weather entry for `m1` and city Berlin renders as exactly one block: the text, then a Berlin widget. |
| `Frontend.Store.constructor` | frontend/src/App.tsx:24-26 | The cells start empty, and `loading` starts false. |
| `Frontend.Store.BeginFetch` | frontend/src/App.tsx:29-38 | `loading` becomes true and the transcript is kept. The view is the placeholder. The body posted is the single human turn `What's the weather in Berlin?`. |
| `Frontend.Store.CompleteFetch` | frontend/src/App.tsx:40-43 | `messages` and `ui` are replaced wholesale by the response arrays, with no merging, and then `loading` becomes false. |
| `Frontend.Store.FetchReply` | frontend/src/App.tsx:28-44 | On success the cells hold exactly the response and `loading` is false. If the request or the parse throws, `loading` stays true and `messages` and `ui` keep their old values. Either way the posted body is the fixed Berlin question. |
| `Frontend.Store.CurrentView` | frontend/src/App.tsx:50-66 | definition: what the component renders from its three state cells. |
| `RoundTrip.RetryContentShape` | frontend/src/WeatherComponent.tsx:13 | The Retry question is `What's the weather ` + `in ` + city + `?`. Its first `in` is at index 19. |
| `RoundTrip.RetryMatch` | frontend/src/WeatherComponent.tsx:13 | For a non-empty city of letters and whitespace, the server's pattern first matches at the `in` before the city. The run it reads is a space followed by the city. |
| `RoundTrip.RetryRoundTrip` | frontend/src/WeatherComponent.tsx:13 | For a non-empty city of letters and whitespace, the server converts the Retry request to one human message and reads back `strip(city)` from it. |
| `RoundTrip.RetryEmptyCity` | frontend/src/WeatherComponent.tsx:13 | For the empty city the question has no match, and the server reports `"your city"`. |
| `RoundTrip.RetryContent` | frontend/src/WeatherComponent.tsx:13 | definition: the Retry question `What's the weather in ${city}?`. |
| `RoundTrip.RetryRequest` | frontend/src/WeatherComponent.tsx:13 | definition: the Retry request, a single human turn holding that question. |
| `RoundTrip.BerlinIsPlainCity` | frontend/src/App.tsx:36 | `Berlin` is non-empty letters with nothing to strip, and the client's fixed request is the Retry request for `Berlin`. |
| `RoundTrip.DefaultRequestNamesBerlin` | frontend/src/App.tsx:35-37 | The client's fixed request converts without error, and the server reads `Berlin` from it. |
| `RoundTrip.ReplyOnWire` | backend/main.py:66-80 | definition: the node's answer as the client reads it. Each AI message becomes `{id, content}`. Each UI payload keeps `id`, `name` and `props`, and its `metadata` carries `message_id` and `merge`. |
| `RoundTrip.WeatherUpdateOnWire` | backend/main.py:66-80 | The node's answer, as the client reads it, is one message with the stripped reply under the first uuid, and one `weather` entry whose `message_id` is that uuid. |
| `RoundTrip.OneBlockOneWidget` | frontend/src/App.tsx:54-64 | One message with one entry that names it renders as one block: the message text, then that entry's widget. |
| `RoundTrip.WeatherAnswerRenders` | backend/main.py:66-80 | The node's answer, received by the client, renders as exactly one block: the stripped reply, then one widget showing the node's city. |

## Left out

- The language-model call (backend/main.py:40-48) is a network call. Its reply is a parameter of `Backend.Weather` and `Backend.Chat`. An exception it raises would also become a 500 with its message; that path is not modelled.
- `uuid.uuid4()` (backend/main.py:61, 71) is randomness. Both ids are parameters.
- FastAPI, pydantic and `JSONResponse` are not modelled. This includes pydantic's own rejection of a malformed body before `chat` runs, the traceback printing and the root route. The model keeps only the answer versus the 500 with its error text.
- LangGraph's `StateGraph` and `graph.ainvoke` are not modelled. `Backend.Chat` answers with the `weather` node's output. `AgentState` declares no reducers, so the node's output is what the graph's state ends as, but the library's channel semantics are not checked.
- React is not modelled: rendering, `useEffect` (which calls `fetchReply` once on mount), `fetch`/`await` and console logging. The view is the `View` datatype.
- `Frontend.Store.FetchReply` takes a well-formed response or a thrown failure. A body that parses but lacks `messages`/`ui` is not modelled. The server's own 500 body `{"error": …}` is such a body: it would set both cells to `undefined`, and the render would then throw.
- `Frontend.UI` holds `props` as a map from names to strings. Non-string property values are not modelled. A missing `city` shows as nothing.
- `RoundTrip.ReplyOnWire` covers only the node's own answer, whose messages all carry an id. How LangChain serialises messages without an id is not modelled.
- frontend/App.tsx (the streaming variant over `useStream` and `LoadExternalComponent`) is not modelled separately. Its only logic, the filter at lines 41-42, is the same as `Frontend.WidgetsFor`.
- frontend/src/WeatherComponent.tsx is used only for its Retry template (`RoundTrip.RetryContent`). Its markup and `useStreamContext` are not modelled.
- frontend/vite.config.ts is development proxy configuration and is not part of this model.
