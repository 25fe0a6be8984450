// The embedded client's stream(): one turn's token chunks and whole-state
// snapshots, two feeds that overlap, are merged into one event stream. chat()
// gathers the text again.
module StreamClient {
  import opened Wrappers

  // A message id; "" stands for a message without one.
  type Id = string

  // A keyword value; None is the source's None, which reads like an absent key.
  type Kwargs = map<string, Option<string>>

  datatype Usage = Usage(input: int, output: int, total: int)

  datatype Message =
    | AI(id: Id, text: string, calls: seq<string>, usage: Option<Usage>, kwargs: Kwargs)
    | Tool(id: Id, content: string)
    | Other(id: Id)

  // What the graph yields, in the three subscribed modes.
  datatype Item =
    | Custom(data: string)
    | Chunk(msg: Message)
    | Snapshot(messages: seq<Message>)

  datatype Event =
    | CustomEvent(data: string)
    | AiText(id: Id, content: string, usage: Option<Usage>, kwargs: Kwargs)
    | AiCalls(id: Id, calls: seq<string>, kwargs: Kwargs)
    | ToolResult(msg: Message)
    | Values(messages: seq<Message>)
    | End(totals: Usage)

  // A message arriving through one of the two feeds.
  datatype Touch = Streamed(msg: Message) | Shown(msg: Message)

  const NO_USAGE := Usage(0, 0, 0)

  function AddUsage(a: Usage, b: Usage): Usage {
    Usage(a.input + b.input, a.output + b.output, a.total + b.total)
  }

  // Reading a keyword map: absent and None are the same.
  function Get(m: Kwargs, key: string): Option<string> {
    if key in m then m[key] else None
  }

  function Delta(sent: Kwargs, kwargs: Kwargs): Kwargs {
    map key | key in kwargs && Get(sent, key) != kwargs[key] :: kwargs[key]
  }

  // --- the state of one turn, and what each arrival does to it ---

  datatype State = State(seen: set<Id>, streamed: set<Id>, counted: set<Id>,
                         sent: map<Id, Kwargs>, usage: Usage, events: seq<Event>)

  const START := State({}, {}, {}, map[], NO_USAGE, [])

  function Emit(st: State, e: Event): State {
    st.(events := st.events + [e])
  }

  function MarkStreamed(st: State, id: Id): State {
    if id == "" then st else st.(streamed := st.streamed + {id})
  }

  function Account(st: State, id: Id, usage: Option<Usage>): (State, Option<Usage>) {
    if usage.None? || (id != "" && id in st.counted) then (st, None)
    else
      (st.(counted := if id == "" then st.counted else st.counted + {id},
           usage := AddUsage(st.usage, usage.value)),
       usage)
  }

  function SentTo(st: State, id: Id): Kwargs {
    if id in st.sent then st.sent[id] else map[]
  }

  function Unsent(st: State, id: Id, kwargs: Kwargs): (State, Kwargs) {
    if kwargs == map[] then (st, map[])
    else if id == "" then (st, kwargs)
    else
      var sent := SentTo(st, id);
      var delta := Delta(sent, kwargs);
      (st.(sent := st.sent[id := sent + delta]), delta)
  }

  // The text part of a message, and whether keyword values went out with it.
  function SendText(st: State, m: Message, usage: Option<Usage>, alreadySent: bool): (State, bool)
    requires m.AI?
  {
    var (next, delta) := if alreadySent then (st, map[]) else Unsent(st, m.id, m.kwargs);
    (Emit(next, AiText(m.id, m.text, usage, delta)), delta != map[])
  }

  function SendCalls(st: State, m: Message, alreadySent: bool): (State, bool)
    requires m.AI?
  {
    var (next, delta) := if alreadySent then (st, map[]) else Unsent(st, m.id, m.kwargs);
    (Emit(next, AiCalls(m.id, m.calls, delta)), delta != map[])
  }

  // Keyword values alone, if there are any left to send.
  function SendRest(st: State, m: Message, alreadySent: bool): State
    requires m.AI?
  {
    var (next, delta) := if alreadySent then (st, map[]) else Unsent(st, m.id, m.kwargs);
    if delta == map[] then next else Emit(next, AiText(m.id, "", None, delta))
  }

  function OnChunk(st: State, m: Message): State {
    match m
    case AI(id, text, calls, usage, kwargs) =>
      var (s0, counted) := Account(st, id, usage);
      var (s1, sent) := if text != "" then SendText(MarkStreamed(s0, id), m, counted, false) else (s0, false);
      if calls != [] then SendCalls(MarkStreamed(s1, id), m, sent).0 else s1
    case Tool(id, _) => Emit(MarkStreamed(st, id), ToolResult(m))
    case Other(_) => st
  }

  function OnShown(st: State, m: Message): State {
    if m.id != "" && m.id in st.seen then st
    else
      var s := if m.id == "" then st else st.(seen := st.seen + {m.id});
      if m.id != "" && m.id in s.streamed then
        if m.AI? then SendRest(Account(s, m.id, m.usage).0, m, false) else s
      else OnFresh(s, m)
  }

  // A snapshot message that no chunk has announced.
  function OnFresh(st: State, m: Message): State {
    match m
    case AI(id, text, calls, usage, kwargs) =>
      var (s0, counted) := Account(st, id, usage);
      var (s1, sent) := if calls != [] then SendCalls(s0, m, false) else (s0, false);
      if text != "" then SendText(s1, m, counted, sent).0
      else if id != "" then SendRest(s1, m, sent)
      else s1
    case Tool(_, _) => Emit(st, ToolResult(m))
    case Other(_) => st
  }

  function OnTouch(st: State, t: Touch): State {
    match t
    case Streamed(m) => OnChunk(st, m)
    case Shown(m) => OnShown(st, m)
  }

  function OnTouches(st: State, ts: seq<Touch>): State {
    if ts == [] then st else OnTouch(OnTouches(st, ts[..|ts|-1]), ts[|ts|-1])
  }

  function AllShown(messages: seq<Message>): (ts: seq<Touch>)
    ensures |ts| == |messages| && forall i :: 0 <= i < |messages| ==> ts[i] == Shown(messages[i])
  {
    seq(|messages|, i requires 0 <= i < |messages| => Shown(messages[i]))
  }

  function OnItem(st: State, item: Item): State {
    match item
    case Custom(data) => Emit(st, CustomEvent(data))
    case Chunk(m) => OnChunk(st, m)
    case Snapshot(messages) => Emit(OnTouches(st, AllShown(messages)), Values(messages))
  }

  function OnItems(items: seq<Item>): State {
    if items == [] then START else OnItem(OnItems(items[..|items|-1]), items[|items|-1])
  }

  // The events of a whole turn.
  function EventsOf(items: seq<Item>): seq<Event> {
    OnItems(items).events + [End(OnItems(items).usage)]
  }

  // --- the turn as the source runs it ---

  class Turn {
    var seenIds: set<Id>
    var streamedIds: set<Id>
    var countedUsageIds: set<Id>
    var sentKwargsById: map<Id, Kwargs>
    var cumulativeUsage: Usage
    var events: seq<Event>

    function View(): State
      reads this
    {
      State(seenIds, streamedIds, countedUsageIds, sentKwargsById, cumulativeUsage, events)
    }

    constructor ()
      ensures View() == START
    {
      seenIds, streamedIds, countedUsageIds := {}, {}, {};
      sentKwargsById := map[];
      cumulativeUsage := NO_USAGE;
      events := [];
    }

    method Yield(e: Event)
      modifies this
      ensures View() == Emit(old(View()), e)
    {
      events := events + [e];
    }

    method AccountUsage(id: Id, usage: Option<Usage>) returns (counted: Option<Usage>)
      modifies this
      ensures (View(), counted) == Account(old(View()), id, usage)
    {
      if usage.None? {
        return None;
      }
      if id != "" && id in countedUsageIds {
        return None;
      }
      if id != "" {
        countedUsageIds := countedUsageIds + {id};
      }
      cumulativeUsage := AddUsage(cumulativeUsage, usage.value);
      counted := usage;
    }

    method UnsentKwargs(id: Id, kwargs: Kwargs) returns (delta: Kwargs)
      modifies this
      ensures (View(), delta) == Unsent(old(View()), id, kwargs)
    {
      if kwargs == map[] {
        return map[];
      }
      if id == "" {
        return kwargs;
      }
      ghost var before := View();
      if id !in sentKwargsById {
        sentKwargsById := sentKwargsById[id := map[]];
      }
      var sent := sentKwargsById[id];
      delta := map key | key in kwargs && Get(sent, key) != kwargs[key] :: kwargs[key];
      assert sent == SentTo(before, id) && delta == Delta(sent, kwargs);
      assert sentKwargsById[id := sent + delta] == before.sent[id := sent + delta];
      if delta == map[] {
        assert sent + delta == sent && sentKwargsById == sentKwargsById[id := sent];
        return map[];
      }
      sentKwargsById := sentKwargsById[id := sent + delta];
    }

    method OnMessageChunk(m: Message)
      modifies this
      ensures View() == OnChunk(old(View()), m)
    {
      if m.AI? {
        var counted := AccountUsage(m.id, m.usage);
        var sent := false;
        if m.text != "" {
          if m.id != "" {
            streamedIds := streamedIds + {m.id};
          }
          var delta := UnsentKwargs(m.id, m.kwargs);
          Yield(AiText(m.id, m.text, counted, delta));
          sent := delta != map[];
        }
        if m.calls != [] {
          if m.id != "" {
            streamedIds := streamedIds + {m.id};
          }
          var delta := map[];
          if !sent {
            delta := UnsentKwargs(m.id, m.kwargs);
          }
          Yield(AiCalls(m.id, m.calls, delta));
        }
      } else if m.Tool? {
        if m.id != "" {
          streamedIds := streamedIds + {m.id};
        }
        Yield(ToolResult(m));
      }
    }

    method OnSnapshotMessage(m: Message)
      modifies this
      ensures View() == OnShown(old(View()), m)
    {
      if m.id != "" && m.id in seenIds {
        return;
      }
      if m.id != "" {
        seenIds := seenIds + {m.id};
      }
      if m.id != "" && m.id in streamedIds {
        if m.AI? {
          var _ := AccountUsage(m.id, m.usage);
          var delta := UnsentKwargs(m.id, m.kwargs);
          if delta != map[] {
            Yield(AiText(m.id, "", None, delta));
          }
        }
        return;
      }
      if m.AI? {
        var counted := AccountUsage(m.id, m.usage);
        var sent := false;
        if m.calls != [] {
          var delta := UnsentKwargs(m.id, m.kwargs);
          Yield(AiCalls(m.id, m.calls, delta));
          sent := delta != map[];
        }
        if m.text != "" {
          var delta := map[];
          if !sent {
            delta := UnsentKwargs(m.id, m.kwargs);
          }
          Yield(AiText(m.id, m.text, counted, delta));
        } else if m.id != "" {
          var delta := map[];
          if !sent {
            delta := UnsentKwargs(m.id, m.kwargs);
          }
          if delta != map[] {
            Yield(AiText(m.id, "", None, delta));
          }
        }
      } else if m.Tool? {
        Yield(ToolResult(m));
      }
    }

    method OnSnapshot(messages: seq<Message>)
      modifies this
      ensures View() == OnItem(old(View()), Snapshot(messages))
    {
      ghost var before := View();
      ghost var ts := AllShown(messages);
      for k := 0 to |messages|
        invariant View() == OnTouches(before, ts[..k])
      {
        OnSnapshotMessage(messages[k]);
        assert ts[..k+1][..k] == ts[..k] && ts[..k+1][k] == Shown(messages[k]);
      }
      assert ts[..|messages|] == ts;
      Yield(Values(messages));
    }
  }

  method Stream(items: seq<Item>) returns (events: seq<Event>)
    ensures events == EventsOf(items)
  {
    var turn := new Turn();
    for k := 0 to |items|
      invariant turn.View() == OnItems(items[..k])
    {
      match items[k] {
        case Custom(data) => turn.Yield(CustomEvent(data));
        case Chunk(m) => turn.OnMessageChunk(m);
        case Snapshot(messages) => turn.OnSnapshot(messages);
      }
      assert items[..k+1][..k] == items[..k] && items[..k+1][k] == items[k];
    }
    assert items[..|items|] == items;
    turn.Yield(End(turn.cumulativeUsage));
    events := turn.events;
  }
}
