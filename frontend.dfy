/** The request/response client: it holds three state cells (`loading`,
    `messages`, `ui`), fetches a reply once, and renders one block per message
    holding the message text and the widgets whose `metadata.message_id` names
    that message. */
module Frontend {
  import opened Common

  datatype Message = Message(id: string, content: string)

  /** `metadata` of a UI entry; `merge` may be absent. */
  datatype Metadata = Metadata(messageId: string, merge: Option<bool>)

  /** A UI entry. `props` is an untyped object: here a map from property
      names to string values. `metadata` may be missing from the JSON, which
      the render tolerates with `?.`. */
  datatype UI = UI(id: string, name: string, props: map<string, string>, metadata: Option<Metadata>)

  datatype AgentResponse = AgentResponse(messages: seq<Message>, ui: seq<UI>)

  /** One weather widget as shown: its key and the city it displays. */
  datatype Widget = Widget(key: string, city: string)

  /** One message block: its key, the message text, then its widgets. */
  datatype Block = Block(key: string, content: string, widgets: seq<Widget>)

  datatype View = LoadingPlaceholder | Transcript(blocks: seq<Block>)

  /** The only request the client sends. */
  const DefaultRequest: seq<ChatTurn> := [ChatTurn("human", "What's the weather in Berlin?")]

  // ---------------------------------------------------------------------
  // Correlation

  /** `u.metadata?.message_id === id`: false when there is no metadata. */
  predicate BelongsTo(u: UI, id: string) {
    u.metadata.Some? && u.metadata.value.messageId == id
  }

  /** `ui.filter(u => u.metadata?.message_id === id)`. */
  function WidgetsFor(ui: seq<UI>, id: string): (r: seq<UI>)
    ensures |r| <= |ui|
    ensures forall u :: u in r <==> u in ui && BelongsTo(u, id)
  {
    if ui == [] then []
    else (if BelongsTo(ui[0], id) then [ui[0]] else []) + WidgetsFor(ui[1..], id)
  }

  /** Filtering a concatenation filters each part and keeps the parts in order. */
  lemma {:induction false} WidgetsForConcat(a: seq<UI>, b: seq<UI>, id: string)
    ensures WidgetsFor(a + b, id) == WidgetsFor(a, id) + WidgetsFor(b, id)
  {
    if a == [] {
      assert a + b == b;
    } else {
      assert (a + b)[0] == a[0];
      assert (a + b)[1..] == a[1..] + b;
      WidgetsForConcat(a[1..], b, id);
    }
  }

  /** Each entry is kept exactly as often as it occurs, when it belongs, and
      never otherwise. */
  lemma {:induction false} WidgetsForCount(ui: seq<UI>, id: string, u: UI)
    ensures multiset(WidgetsFor(ui, id))[u] == if BelongsTo(u, id) then multiset(ui)[u] else 0
  {
    if ui != [] {
      WidgetsForCount(ui[1..], id, u);
      assert ui == [ui[0]] + ui[1..];
    }
  }

  /** Two entries that belong to the message keep their relative order. */
  lemma WidgetsForKeepsOrder(ui: seq<UI>, id: string, i: nat, j: nat)
    requires i < j < |ui| && BelongsTo(ui[i], id) && BelongsTo(ui[j], id)
    ensures exists p, q :: 0 <= p < q < |WidgetsFor(ui, id)|
                           && WidgetsFor(ui, id)[p] == ui[i] && WidgetsFor(ui, id)[q] == ui[j]
  {
    var front, back := ui[..j], ui[j..];
    assert ui == front + back;
    WidgetsForConcat(front, back, id);
    var r := WidgetsFor(ui, id);
    var rf := WidgetsFor(front, id);
    assert ui[i] == front[i];
    assert ui[i] in rf;
    var p :| 0 <= p < |rf| && rf[p] == ui[i];
    assert back[0] == ui[j];
    assert WidgetsFor(back, id)[0] == ui[j];
    assert r[p] == ui[i] && r[|rf|] == ui[j];
  }

  /** An entry that names no message, or has no metadata, is in no message's list. */
  lemma OrphanInNoBlock(messages: seq<Message>, ui: seq<UI>, u: UI)
    requires forall k :: 0 <= k < |messages| ==> !BelongsTo(u, messages[k].id)
    ensures forall k :: 0 <= k < |messages| ==> u !in WidgetsFor(ui, messages[k].id)
  {
  }

  // ---------------------------------------------------------------------
  // Render

  /** `u.props.city`, which shows as nothing when the property is missing. */
  function ShownCity(props: map<string, string>): string {
    if "city" in props then props["city"] else ""
  }

  function WidgetOf(u: UI): Widget {
    Widget(u.id, ShownCity(u.props))
  }

  /** The block of one message: its text, then its widgets in `ui` order. */
  function BlockFor(m: Message, ui: seq<UI>): (b: Block)
    ensures b.key == m.id && b.content == m.content
    ensures |b.widgets| == |WidgetsFor(ui, m.id)|
    ensures forall k :: 0 <= k < |b.widgets| ==> b.widgets[k] == WidgetOf(WidgetsFor(ui, m.id)[k])
  {
    var mine := WidgetsFor(ui, m.id);
    Block(m.id, m.content, seq(|mine|, k requires 0 <= k < |mine| => WidgetOf(mine[k])))
  }

  function Blocks(messages: seq<Message>, ui: seq<UI>): (bs: seq<Block>)
    ensures |bs| == |messages|
    ensures forall k :: 0 <= k < |messages| ==> bs[k] == BlockFor(messages[k], ui)
  {
    if messages == [] then [] else [BlockFor(messages[0], ui)] + Blocks(messages[1..], ui)
  }

  /** The whole view: the placeholder while loading, else one block per message. */
  function Render(loading: bool, messages: seq<Message>, ui: seq<UI>): (v: View)
    ensures v.LoadingPlaceholder? <==> loading
  {
    if loading then LoadingPlaceholder else Transcript(Blocks(messages, ui))
  }

  /** Rendering a loaded transcript shows one block per message, in order, each
      with exactly its own widgets. */
  lemma RenderShowsEachMessage(messages: seq<Message>, ui: seq<UI>, k: nat)
    requires k < |messages|
    ensures Render(false, messages, ui).Transcript?
    ensures |Render(false, messages, ui).blocks| == |messages|
    ensures Render(false, messages, ui).blocks[k].content == messages[k].content
    ensures forall w :: w in Render(false, messages, ui).blocks[k].widgets <==>
                        exists u :: u in ui && BelongsTo(u, messages[k].id) && w == WidgetOf(u)
  {
    var b := Render(false, messages, ui).blocks[k];
    var mine := WidgetsFor(ui, messages[k].id);
    assert b == BlockFor(messages[k], ui);
    forall w
      ensures w in b.widgets <==> exists u :: u in ui && BelongsTo(u, messages[k].id) && w == WidgetOf(u)
    {
      if w in b.widgets {
        var p :| 0 <= p < |b.widgets| && b.widgets[p] == w;
        assert mine[p] in mine;
      }
      if u :| u in ui && BelongsTo(u, messages[k].id) && w == WidgetOf(u) {
        assert u in mine;
        var p :| 0 <= p < |mine| && mine[p] == u;
        assert b.widgets[p] == w;
      }
    }
  }

  // ---------------------------------------------------------------------
  // State

  /** The component's state cells and the `fetchReply` sequence over them. */
  class Store {
    var loading: bool
    var messages: seq<Message>
    var ui: seq<UI>

    /** `useState([])`, `useState([])`, `useState(false)`. */
    constructor ()
      ensures !loading && messages == [] && ui == []
    {
      loading := false;
      messages := [];
      ui := [];
    }

    function CurrentView(): View
      reads this
    {
      Render(loading, messages, ui)
    }

    /** `setLoading(true)`, then the POST; returns the body that is posted. */
    method BeginFetch() returns (body: seq<ChatTurn>)
      modifies this
      ensures loading && messages == old(messages) && ui == old(ui)
      ensures body == DefaultRequest
      ensures CurrentView() == LoadingPlaceholder
    {
      loading := true;
      body := DefaultRequest;
    }

    /** After `res.json()`: `setMessages`, `setUI`, `setLoading(false)`. */
    method CompleteFetch(data: AgentResponse)
      modifies this
      ensures messages == data.messages && ui == data.ui && !loading
      ensures CurrentView() == Transcript(Blocks(data.messages, data.ui))
    {
      messages := data.messages;
      ui := data.ui;
      loading := false;
    }

    /** `fetchReply`. `reply` is the parsed response body, or `None` when the
        request or the JSON parse throws, which skips the rest of the sequence. */
    method FetchReply(reply: Option<AgentResponse>) returns (body: seq<ChatTurn>)
      modifies this
      ensures body == DefaultRequest
      ensures reply.Some? ==> messages == reply.value.messages && ui == reply.value.ui && !loading
      ensures reply.None? ==> loading && messages == old(messages) && ui == old(ui)
      ensures reply.None? ==> CurrentView() == LoadingPlaceholder
    {
      body := BeginFetch();
      if reply.Some? {
        CompleteFetch(reply.value);
      }
    }
  }

  // ---------------------------------------------------------------------
  // A worked response

  /** One message and one weather entry for it render as one block with the
      message text and a widget for Berlin. */
  lemma OneMessageOneWidget(content: string)
    ensures Render(false, [Message("m1", content)],
                   [UI("u1", "weather", map["city" := "Berlin"], Some(Metadata("m1", None)))])
            == Transcript([Block("m1", content, [Widget("u1", "Berlin")])])
  {
    var ui := [UI("u1", "weather", map["city" := "Berlin"], Some(Metadata("m1", None)))];
    assert WidgetsFor(ui, "m1") == ui;
    var b := BlockFor(Message("m1", content), ui);
    assert b.widgets == [Widget("u1", "Berlin")];
  }
}
