// What the merged event stream says about each message, over whole turns: its
// content exactly once, its keyword values without loss or repetition, and the
// token usage counted once.
module StreamReconciliation {
  import opened Wrappers
  import opened Sequences
  import opened StreamClient

  // --- the feed, flattened ---

  ghost function Feed(items: seq<Item>): seq<Touch> {
    if items == [] then []
    else Feed(items[..|items|-1]) + TouchesOf(items[|items|-1])
  }

  ghost function TouchesOf(item: Item): seq<Touch> {
    match item
    case Custom(_) => []
    case Chunk(m) => [Streamed(m)]
    case Snapshot(messages) => AllShown(messages)
  }

  // --- content ---

  // What an event or a message delivers to the reader.
  datatype Payload = Text(text: string) | Calls(calls: seq<string>) | Result(msg: Message)

  ghost function TextPayload(text: string): seq<Payload> {
    if text != "" then [Text(text)] else []
  }

  ghost function CallsPayload(calls: seq<string>): seq<Payload> {
    if calls != [] then [Calls(calls)] else []
  }

  ghost function PayloadOf(e: Event, id: Id): seq<Payload> {
    match e
    case AiText(i, content, _, _) => if i == id then TextPayload(content) else []
    case AiCalls(i, calls, _) => if i == id then CallsPayload(calls) else []
    case ToolResult(m) => if m.id == id then [Result(m)] else []
    case _ => []
  }

  // Everything the events deliver for one id, in order.
  ghost function Trace(events: seq<Event>, id: Id): seq<Payload> {
    if events == [] then []
    else Trace(events[..|events|-1], id) + PayloadOf(events[|events|-1], id)
  }

  // The content of a message, as a chunk and as a snapshot entry delivers it.
  ghost function ChunkPayload(m: Message): seq<Payload> {
    match m
    case AI(_, text, calls, _, _) => TextPayload(text) + CallsPayload(calls)
    case Tool(_, _) => [Result(m)]
    case Other(_) => []
  }

  ghost function ShownPayload(m: Message): seq<Payload> {
    match m
    case AI(_, text, calls, _, _) => CallsPayload(calls) + TextPayload(text)
    case Tool(_, _) => [Result(m)]
    case Other(_) => []
  }

  ghost function ChunkPart(t: Touch, id: Id): seq<Payload> {
    if t.Streamed? && t.msg.id == id then ChunkPayload(t.msg) else []
  }

  ghost function ChunkTrace(ts: seq<Touch>, id: Id): seq<Payload> {
    if ts == [] then [] else ChunkTrace(ts[..|ts|-1], id) + ChunkPart(ts[|ts|-1], id)
  }

  // Where the id is first shown in a snapshot; |ts| if it never is.
  ghost function FirstShown(ts: seq<Touch>, id: Id): (k: nat)
    ensures k <= |ts|
    ensures k < |ts| ==> ts[k].Shown? && ts[k].msg.id == id
    ensures forall j :: 0 <= j < k ==> !(ts[j].Shown? && ts[j].msg.id == id)
  {
    if ts == [] then 0
    else
      var k := FirstShown(ts[..|ts|-1], id);
      if k < |ts| - 1 then k
      else if ts[k].Shown? && ts[k].msg.id == id then k
      else |ts|
  }

  // Chunks before the first snapshot, and after it.
  ghost function EarlyContent(ts: seq<Touch>, id: Id): seq<Payload> {
    ChunkTrace(ts[..FirstShown(ts, id)], id)
  }

  ghost function LateContent(ts: seq<Touch>, id: Id): seq<Payload> {
    ChunkTrace(ts[FirstShown(ts, id)..], id)
  }

  // What the first snapshot entry is to deliver, if there is one.
  ghost function SnapshotContent(ts: seq<Touch>, id: Id): seq<Payload> {
    var k := FirstShown(ts, id);
    if k < |ts| then ShownPayload(ts[k].msg) else []
  }

  // Chunks before the first snapshot; the snapshot's entry if there were none;
  // chunks after it.
  ghost function Expected(ts: seq<Touch>, id: Id): seq<Payload> {
    EarlyContent(ts, id) + (if EarlyContent(ts, id) == [] then SnapshotContent(ts, id) else []) + LateContent(ts, id)
  }

  ghost predicate TraceInv(st: State, ts: seq<Touch>, id: Id) {
    && (id in st.seen <==> FirstShown(ts, id) < |ts|)
    && (id in st.streamed <==> ChunkTrace(ts, id) != [])
    && Trace(st.events, id) == Expected(ts, id)
  }

  lemma TraceEmit(st: State, e: Event, id: Id)
    ensures Trace(Emit(st, e).events, id) == Trace(st.events, id) + PayloadOf(e, id)
  {
    assert (st.events + [e])[..|st.events|] == st.events;
  }

  // From st to s the events gained exactly p for id, and nothing else changed
  // that matters to id's content.
  ghost predicate Gains(st: State, s: State, id: Id, p: seq<Payload>) {
    s.seen == st.seen && Trace(s.events, id) == Trace(st.events, id) + p
  }

  lemma GainsTwice(st: State, mid: State, s: State, id: Id, p: seq<Payload>, q: seq<Payload>)
    requires Gains(st, mid, id, p) && Gains(mid, s, id, q)
    ensures Gains(st, s, id, p + q)
  {
    hide Trace;
    assert (Trace(st.events, id) + p) + q == Trace(st.events, id) + (p + q);
  }

  lemma GainsNothing(st: State, s: State, id: Id)
    requires s.seen == st.seen && s.events == st.events
    ensures Gains(st, s, id, [])
  {
    assert Trace(st.events, id) + [] == Trace(st.events, id);
  }

  ghost function For(m: Message, id: Id, p: seq<Payload>): seq<Payload> {
    if m.id == id then p else []
  }

  lemma TextGains(st: State, m: Message, usage: Option<Usage>, already: bool, id: Id)
    requires m.AI?
    ensures Gains(st, SendText(st, m, usage, already).0, id, For(m, id, TextPayload(m.text)))
    ensures SendText(st, m, usage, already).0.streamed == st.streamed
  {
    var (next, delta) := if already then (st, map[]) else Unsent(st, m.id, m.kwargs);
    TraceEmit(next, AiText(m.id, m.text, usage, delta), id);
  }

  lemma CallsGain(st: State, m: Message, already: bool, id: Id)
    requires m.AI?
    ensures Gains(st, SendCalls(st, m, already).0, id, For(m, id, CallsPayload(m.calls)))
    ensures SendCalls(st, m, already).0.streamed == st.streamed
  {
    var (next, delta) := if already then (st, map[]) else Unsent(st, m.id, m.kwargs);
    TraceEmit(next, AiCalls(m.id, m.calls, delta), id);
  }

  lemma RestGains(st: State, m: Message, already: bool, id: Id)
    requires m.AI?
    ensures Gains(st, SendRest(st, m, already), id, [])
    ensures SendRest(st, m, already).streamed == st.streamed
  {
    var (next, delta) := if already then (st, map[]) else Unsent(st, m.id, m.kwargs);
    TraceEmit(next, AiText(m.id, "", None, delta), id);
    GainsNothing(st, next, id);
  }

  lemma ChunkTextGains(st: State, s0: State, m: Message, counted: Option<Usage>, id: Id)
    requires m.AI? && id != "" && s0 == Account(st, m.id, m.usage).0
    ensures var s1 := if m.text != "" then SendText(MarkStreamed(s0, m.id), m, counted, false).0 else s0;
            && Gains(st, s1, id, For(m, id, TextPayload(m.text)))
            && (id in s1.streamed <==> id in st.streamed || For(m, id, TextPayload(m.text)) != [])
  {
    if m.text != "" {
      TextGains(MarkStreamed(s0, m.id), m, counted, false, id);
    } else {
      GainsNothing(st, s0, id);
    }
  }

  lemma ChunkCallsGain(s1: State, m: Message, sent: bool, id: Id)
    requires m.AI? && id != ""
    ensures var s2 := if m.calls != [] then SendCalls(MarkStreamed(s1, m.id), m, sent).0 else s1;
            && Gains(s1, s2, id, For(m, id, CallsPayload(m.calls)))
            && (id in s2.streamed <==> id in s1.streamed || For(m, id, CallsPayload(m.calls)) != [])
  {
    if m.calls != [] {
      CallsGain(MarkStreamed(s1, m.id), m, sent, id);
    } else {
      GainsNothing(s1, s1, id);
    }
  }

  lemma ChunkEffect(st: State, m: Message, id: Id)
    requires id != ""
    ensures Gains(st, OnChunk(st, m), id, For(m, id, ChunkPayload(m)))
    ensures id in OnChunk(st, m).streamed <==> id in st.streamed || For(m, id, ChunkPayload(m)) != []
  {
    match m
    case AI(i, text, calls, usage, kwargs) =>
      hide Gains, SendText, SendCalls, Unsent;
      var (s0, counted) := Account(st, i, usage);
      ChunkTextGains(st, s0, m, counted, id);
      var (s1, sent) := if text != "" then SendText(MarkStreamed(s0, i), m, counted, false) else (s0, false);
      ChunkCallsGain(s1, m, sent, id);
      GainsTwice(st, s1, OnChunk(st, m), id, For(m, id, TextPayload(text)), For(m, id, CallsPayload(calls)));
    case Tool(i, _) =>
      TraceEmit(MarkStreamed(st, i), ToolResult(m), id);
    case Other(_) =>
      GainsNothing(st, st, id);
  }

  lemma FreshCallsGain(st: State, s0: State, m: Message, id: Id)
    requires m.AI? && s0 == Account(st, m.id, m.usage).0
    ensures var s1 := if m.calls != [] then SendCalls(s0, m, false).0 else s0;
            Gains(st, s1, id, For(m, id, CallsPayload(m.calls))) && s1.streamed == st.streamed
  {
    if m.calls != [] {
      CallsGain(s0, m, false, id);
    } else {
      GainsNothing(st, s0, id);
    }
  }

  lemma FreshTextGains(s1: State, m: Message, counted: Option<Usage>, sent: bool, id: Id)
    requires m.AI?
    ensures var s2 := if m.text != "" then SendText(s1, m, counted, sent).0
                      else if m.id != "" then SendRest(s1, m, sent) else s1;
            Gains(s1, s2, id, For(m, id, TextPayload(m.text))) && s2.streamed == s1.streamed
  {
    TextGains(s1, m, counted, sent, id);
    RestGains(s1, m, sent, id);
    GainsNothing(s1, s1, id);
  }

  lemma FreshEffect(st: State, m: Message, id: Id)
    requires id != ""
    ensures Gains(st, OnFresh(st, m), id, For(m, id, ShownPayload(m)))
    ensures OnFresh(st, m).streamed == st.streamed
  {
    match m
    case AI(i, text, calls, usage, kwargs) =>
      var (s0, counted) := Account(st, i, usage);
      var (s1, sent) := if calls != [] then SendCalls(s0, m, false) else (s0, false);
      FreshCallsGain(st, s0, m, id);
      FreshTextGains(s1, m, counted, sent, id);
      GainsTwice(st, s1, OnFresh(st, m), id, For(m, id, CallsPayload(calls)), For(m, id, TextPayload(text)));
    case Tool(i, _) =>
      TraceEmit(st, ToolResult(m), id);
    case Other(_) =>
      GainsNothing(st, st, id);
  }

  lemma ShownEffect(st: State, m: Message, id: Id)
    requires id != ""
    ensures var s := OnShown(st, m);
            var unannounced := id !in st.seen && id !in st.streamed;
            && (id in s.seen <==> id in st.seen || m.id == id)
            && s.streamed == st.streamed
            && Trace(s.events, id) == Trace(st.events, id) + if unannounced then For(m, id, ShownPayload(m)) else []
  {
    if !(m.id != "" && m.id in st.seen) {
      var s := if m.id == "" then st else st.(seen := st.seen + {m.id});
      if m.id != "" && m.id in s.streamed {
        if m.AI? {
          RestGains(Account(s, m.id, m.usage).0, m, false, id);
        }
      } else {
        FreshEffect(s, m, id);
      }
    }
  }

  lemma SnocChunks(ts: seq<Touch>, t: Touch, id: Id)
    ensures ChunkTrace(ts + [t], id) == ChunkTrace(ts, id) + ChunkPart(t, id)
  {
    assert (ts + [t])[..|ts|] == ts;
  }

  lemma SnocFirst(ts: seq<Touch>, t: Touch, id: Id)
    ensures FirstShown(ts + [t], id)
            == if FirstShown(ts, id) < |ts| || (t.Shown? && t.msg.id == id) then FirstShown(ts, id) else |ts| + 1
  {
    assert (ts + [t])[..|ts|] == ts;
  }

  // One more touch before the id is shown, showing it, and after.
  lemma SnocUnshown(ts: seq<Touch>, t: Touch, id: Id)
    requires FirstShown(ts, id) == |ts| && !(t.Shown? && t.msg.id == id)
    ensures EarlyContent(ts, id) == ChunkTrace(ts, id) && LateContent(ts, id) == [] && SnapshotContent(ts, id) == []
    ensures EarlyContent(ts + [t], id) == EarlyContent(ts, id) + ChunkPart(t, id)
    ensures LateContent(ts + [t], id) == [] && SnapshotContent(ts + [t], id) == []
  {
    var more := ts + [t];
    SnocFirst(ts, t, id);
    assert ts[..|ts|] == ts && ts[|ts|..] == [] && more[..|more|] == more && more[|more|..] == [];
    SnocChunks(ts, t, id);
  }

  lemma SnocShowing(ts: seq<Touch>, t: Touch, id: Id)
    requires FirstShown(ts, id) == |ts| && t.Shown? && t.msg.id == id
    ensures EarlyContent(ts, id) == ChunkTrace(ts, id) && LateContent(ts, id) == [] && SnapshotContent(ts, id) == []
    ensures EarlyContent(ts + [t], id) == ChunkTrace(ts, id)
    ensures LateContent(ts + [t], id) == [] && SnapshotContent(ts + [t], id) == ShownPayload(t.msg)
  {
    var more := ts + [t];
    SnocFirst(ts, t, id);
    assert ts[..|ts|] == ts && ts[|ts|..] == [] && more[..|ts|] == ts && more[|ts|..] == [] + [t];
    SnocChunks([], t, id);
  }

  lemma SliceSnoc(ts: seq<Touch>, t: Touch, k: nat)
    requires k <= |ts|
    ensures (ts + [t])[..k] == ts[..k] && (ts + [t])[k..] == ts[k..] + [t]
  {}

  lemma SnocShown(ts: seq<Touch>, t: Touch, id: Id)
    requires FirstShown(ts, id) < |ts|
    ensures EarlyContent(ts + [t], id) == EarlyContent(ts, id)
    ensures SnapshotContent(ts + [t], id) == SnapshotContent(ts, id)
    ensures LateContent(ts + [t], id) == LateContent(ts, id) + ChunkPart(t, id)
  {
    hide ChunkTrace, ChunkPart;
    var k := FirstShown(ts, id);
    SnocFirst(ts, t, id);
    SliceSnoc(ts, t, k);
    SnocChunks(ts[k..], t, id);
  }

  // The expected content of one more touch.
  ghost function Next(ts: seq<Touch>, t: Touch, id: Id): seq<Payload> {
    match t
    case Streamed(_) => ChunkPart(t, id)
    case Shown(m) =>
      if FirstShown(ts, id) == |ts| && ChunkTrace(ts, id) == [] then For(m, id, ShownPayload(m)) else []
  }

  lemma SnocExpected(ts: seq<Touch>, t: Touch, id: Id)
    ensures Expected(ts + [t], id) == Expected(ts, id) + Next(ts, t, id)
  {
    hide ChunkTrace, EarlyContent, LateContent, SnapshotContent;
    if FirstShown(ts, id) < |ts| {
      SnocShown(ts, t, id);
    } else if t.Shown? && t.msg.id == id {
      SnocShowing(ts, t, id);
    } else {
      SnocUnshown(ts, t, id);
    }
  }

  lemma TraceStep(st: State, ts: seq<Touch>, t: Touch, id: Id)
    requires id != "" && TraceInv(st, ts, id)
    ensures TraceInv(OnTouch(st, t), ts + [t], id)
  {
    SnocChunks(ts, t, id);
    SnocFirst(ts, t, id);
    SnocExpected(ts, t, id);
    match t
    case Streamed(m) => ChunkEffect(st, m, id);
    case Shown(m) => ShownEffect(st, m, id);
  }

  // --- keyword values ---

  ghost function Merge(maps: seq<Kwargs>): Kwargs {
    if maps == [] then map[] else Merge(maps[..|maps|-1]) + maps[|maps|-1]
  }

  ghost predicate SameReading(a: Kwargs, b: Kwargs) {
    forall key :: Get(a, key) == Get(b, key)
  }

  ghost function KwargsIn(e: Event, id: Id): seq<Kwargs> {
    match e
    case AiText(i, _, _, kwargs) => if i == id && kwargs != map[] then [kwargs] else []
    case AiCalls(i, _, kwargs) => if i == id && kwargs != map[] then [kwargs] else []
    case _ => []
  }

  // The keyword maps attached to the events of one id, in order.
  ghost function Attached(events: seq<Event>, id: Id): seq<Kwargs> {
    if events == [] then [] else Attached(events[..|events|-1], id) + KwargsIn(events[|events|-1], id)
  }

  // The full keyword maps the feed had on offer for one id: those of its
  // content-bearing chunks and of its first snapshot entry.
  ghost function Offered(ts: seq<Touch>, id: Id): seq<Kwargs> {
    if ts == [] then []
    else
      var init, last := ts[..|ts|-1], ts[|ts|-1];
      Offered(init, id)
      + if last.msg.id == id && last.msg.AI?
           && (if last.Streamed? then ChunkPayload(last.msg) != [] else FirstShown(init, id) == |init|)
        then [last.msg.kwargs] else []
  }

  // No attached map repeats a value its reader already has.
  ghost predicate NoRepeats(maps: seq<Kwargs>) {
    forall i, key :: 0 <= i < |maps| && key in maps[i] ==> maps[i][key] != Get(Merge(maps[..i]), key)
  }

  ghost predicate UpToDate(st: State, id: Id) {
    && SentTo(st, id) == Merge(Attached(st.events, id))
    && NoRepeats(Attached(st.events, id))
  }

  // From st to s the reader of id has come to know kwargs.
  ghost predicate Learns(st: State, s: State, id: Id, kwargs: Kwargs) {
    && UpToDate(s, id)
    && SameReading(SentTo(s, id), SentTo(st, id) + kwargs)
  }

  ghost predicate KwargsInv(st: State, ts: seq<Touch>, id: Id) {
    && UpToDate(st, id)
    && SameReading(SentTo(st, id), Merge(Offered(ts, id)))
  }

  lemma AttachedEmit(st: State, e: Event, id: Id)
    ensures Attached(Emit(st, e).events, id) == Attached(st.events, id) + KwargsIn(e, id)
  {
    assert (st.events + [e])[..|st.events|] == st.events;
  }

  lemma MergeSnoc(maps: seq<Kwargs>, m: Kwargs)
    ensures Merge(maps + [m]) == Merge(maps) + m
  {
    assert (maps + [m])[..|maps|] == maps;
  }

  lemma NoRepeatsSnoc(maps: seq<Kwargs>, m: Kwargs)
    requires NoRepeats(maps) && forall key :: key in m ==> m[key] != Get(Merge(maps), key)
    ensures NoRepeats(maps + [m])
  {
    var more := maps + [m];
    forall i, key | 0 <= i < |more| && key in more[i] ensures more[i][key] != Get(Merge(more[..i]), key) {
      assert more[..i] == maps[..i];
      if i == |maps| {
        assert maps[..i] == maps;
      }
    }
  }

  // Unsent records exactly the delta it returns; the delta makes up for all of
  // kwargs and holds nothing already known.
  lemma UnsentEffect(st: State, i: Id, kwargs: Kwargs, id: Id)
    requires id != ""
    ensures var (next, delta) := Unsent(st, i, kwargs);
            && next.events == st.events
            && SentTo(next, id) == (if i == id then SentTo(st, id) + delta else SentTo(st, id))
            && (i == id ==> SameReading(SentTo(st, id) + delta, SentTo(st, id) + kwargs))
            && (i == id ==> forall key :: key in delta ==> delta[key] != Get(SentTo(st, id), key))
  {}

  // An event carrying a delta that has been recorded keeps the reader up to date.
  lemma EmitLearns(st: State, next: State, e: Event, id: Id, delta: Kwargs)
    requires UpToDate(st, id) && next.events == st.events
    requires SentTo(next, id) == SentTo(st, id) + delta
    requires forall key :: key in delta ==> delta[key] != Get(SentTo(st, id), key)
    requires KwargsIn(e, id) == if delta == map[] then [] else [delta]
    ensures UpToDate(Emit(next, e), id)
  {
    AttachedEmit(next, e, id);
    if delta == map[] {
      EmitNothing(Attached(st.events, id), SentTo(st, id));
    } else {
      EmitDelta(Attached(st.events, id), delta);
    }
  }

  lemma EmitNothing(maps: seq<Kwargs>, sent: Kwargs)
    ensures maps + [] == maps && sent + map[] == sent
  {}

  lemma EmitDelta(maps: seq<Kwargs>, delta: Kwargs)
    requires NoRepeats(maps) && forall key :: key in delta ==> delta[key] != Get(Merge(maps), key)
    ensures Merge(maps + [delta]) == Merge(maps) + delta && NoRepeats(maps + [delta])
  {
    MergeSnoc(maps, delta);
    NoRepeatsSnoc(maps, delta);
  }

  // What a message's keyword map tells the reader of id.
  ghost function KwargsFor(m: Message, id: Id): Kwargs
    requires m.AI?
  {
    if m.id == id then m.kwargs else map[]
  }

  // Sending with an event: the next state, the delta, and any event that carries it.
  lemma SendLearns(st: State, m: Message, e: Event, id: Id)
    requires id != "" && m.AI? && UpToDate(st, id)
    requires var delta := Unsent(st, m.id, m.kwargs).1;
             KwargsIn(e, id) == if m.id == id && delta != map[] then [delta] else []
    ensures var (next, delta) := Unsent(st, m.id, m.kwargs);
            && Learns(st, Emit(next, e), id, KwargsFor(m, id))
            && (delta == map[] ==> Learns(st, next, id, KwargsFor(m, id)))
  {
    var (next, delta) := Unsent(st, m.id, m.kwargs);
    UnsentEffect(st, m.id, m.kwargs, id);
    var mine := if m.id == id then delta else map[];
    assert SentTo(st, id) + map[] == SentTo(st, id);
    EmitLearns(st, next, e, id, mine);
  }

  // An event without keyword values changes nothing for the reader.
  lemma PlainLearns(st: State, e: Event, id: Id)
    requires UpToDate(st, id) && KwargsIn(e, id) == []
    ensures Learns(st, Emit(st, e), id, map[])
  {
    assert SentTo(st, id) + map[] == SentTo(st, id);
    EmitLearns(st, st, e, id, map[]);
  }

  // Learning the same map twice, or nothing the second time, is learning it once.
  lemma LearnsAgain(st: State, mid: State, s: State, id: Id, kwargs: Kwargs, again: Kwargs)
    requires Learns(st, mid, id, kwargs) && Learns(mid, s, id, again)
    requires again == kwargs || again == map[]
    ensures Learns(st, s, id, kwargs)
  {
    forall key ensures Get(SentTo(s, id), key) == Get(SentTo(st, id) + kwargs, key) {
      assert Get(SentTo(mid, id), key) == Get(SentTo(st, id) + kwargs, key);
    }
  }

  lemma TextLearns(st: State, m: Message, usage: Option<Usage>, already: bool, id: Id)
    requires id != "" && m.AI? && UpToDate(st, id)
    ensures Learns(st, SendText(st, m, usage, already).0, id, if already then map[] else KwargsFor(m, id))
  {
    var delta := if already then map[] else Unsent(st, m.id, m.kwargs).1;
    var e := AiText(m.id, m.text, usage, delta);
    if already {
      PlainLearns(st, e, id);
    } else {
      SendLearns(st, m, e, id);
    }
  }

  lemma CallsLearn(st: State, m: Message, already: bool, id: Id)
    requires id != "" && m.AI? && UpToDate(st, id)
    ensures Learns(st, SendCalls(st, m, already).0, id, if already then map[] else KwargsFor(m, id))
  {
    var delta := if already then map[] else Unsent(st, m.id, m.kwargs).1;
    var e := AiCalls(m.id, m.calls, delta);
    if already {
      PlainLearns(st, e, id);
    } else {
      SendLearns(st, m, e, id);
    }
  }

  lemma RestLearns(st: State, m: Message, already: bool, id: Id)
    requires id != "" && m.AI? && UpToDate(st, id)
    ensures Learns(st, SendRest(st, m, already), id, if already then map[] else KwargsFor(m, id))
  {
    if already {
      assert SentTo(st, id) + map[] == SentTo(st, id);
    } else {
      var (next, delta) := Unsent(st, m.id, m.kwargs);
      SendLearns(st, m, AiText(m.id, "", None, delta), id);
    }
  }

  // Bookkeeping that leaves keyword values and events alone.
  lemma SameLearns(st: State, s: State, id: Id)
    requires UpToDate(st, id) && s.sent == st.sent && s.events == st.events
    ensures Learns(st, s, id, map[])
  {
    assert SentTo(st, id) + map[] == SentTo(st, id);
  }

  // st0 differs from st in bookkeeping only.
  lemma LearnsFrom(st: State, st0: State, s: State, id: Id, kwargs: Kwargs)
    requires st0.sent == st.sent && Learns(st0, s, id, kwargs)
    ensures Learns(st, s, id, kwargs)
  {}

  // The two halves of a chunk: its text, then its calls.
  lemma ChunkTextLearns(st: State, s0: State, m: Message, counted: Option<Usage>, id: Id)
    requires id != "" && m.AI? && UpToDate(st, id) && s0.sent == st.sent && s0.events == st.events
    ensures var s1 := if m.text != "" then SendText(MarkStreamed(s0, m.id), m, counted, false).0 else s0;
            Learns(st, s1, id, if m.text != "" then KwargsFor(m, id) else map[])
  {
    if m.text != "" {
      var marked := MarkStreamed(s0, m.id);
      TextLearns(marked, m, counted, false, id);
    } else {
      SameLearns(st, s0, id);
    }
  }

  lemma ChunkCallsLearn(s1: State, m: Message, sent: bool, id: Id)
    requires id != "" && m.AI? && UpToDate(s1, id)
    ensures var s2 := if m.calls != [] then SendCalls(MarkStreamed(s1, m.id), m, sent).0 else s1;
            Learns(s1, s2, id, if m.calls != [] && !sent then KwargsFor(m, id) else map[])
  {
    if m.calls != [] {
      CallsLearn(MarkStreamed(s1, m.id), m, sent, id);
    } else {
      SameLearns(s1, s1, id);
    }
  }

  lemma ChunkLearns(st: State, m: Message, id: Id)
    requires id != "" && UpToDate(st, id)
    ensures Learns(st, OnChunk(st, m), id, if m.AI? && ChunkPayload(m) != [] then KwargsFor(m, id) else map[])
  {
    match m
    case AI(i, text, calls, usage, kwargs) =>
      var (s0, counted) := Account(st, i, usage);
      var (s1, sent) := if text != "" then SendText(MarkStreamed(s0, i), m, counted, false) else (s0, false);
      ChunkTextLearns(st, s0, m, counted, id);
      ChunkCallsLearn(s1, m, sent, id);
      var first := if text != "" then KwargsFor(m, id) else map[];
      var second := if calls != [] && !sent then KwargsFor(m, id) else map[];
      ChunkLearnsBoth(st, s1, OnChunk(st, m), m, id, first, second);
    case Tool(i, _) =>
      PlainLearns(MarkStreamed(st, i), ToolResult(m), id);
    case Other(_) =>
      SameLearns(st, st, id);
  }

  lemma ChunkLearnsBoth(st: State, s1: State, s2: State, m: Message, id: Id, first: Kwargs, second: Kwargs)
    requires m.AI? && Learns(st, s1, id, first) && Learns(s1, s2, id, second)
    requires first == if m.text != "" then KwargsFor(m, id) else map[]
    requires second == KwargsFor(m, id) || second == map[]
    requires m.calls == [] ==> second == map[]
    requires m.calls != [] && m.text == "" ==> second == KwargsFor(m, id)
    ensures Learns(st, s2, id, if ChunkPayload(m) != [] then KwargsFor(m, id) else map[])
  {
    if m.text != "" {
      LearnsAgain(st, s1, s2, id, first, second);
    } else {
      LearnsThen(st, s1, s2, id, second);
    }
  }

  // Learning nothing first does not matter.
  lemma LearnsThen(st: State, mid: State, s: State, id: Id, kwargs: Kwargs)
    requires Learns(st, mid, id, map[]) && Learns(mid, s, id, kwargs)
    ensures Learns(st, s, id, kwargs)
  {
    assert SentTo(st, id) + map[] == SentTo(st, id);
    forall key ensures Get(SentTo(s, id), key) == Get(SentTo(st, id) + kwargs, key) {
      assert Get(SentTo(mid, id), key) == Get(SentTo(st, id), key);
      assert Get(SentTo(s, id), key) == Get(SentTo(mid, id) + kwargs, key);
    }
  }

  lemma FreshLearns(st: State, m: Message, id: Id)
    requires id != "" && UpToDate(st, id)
    ensures Learns(st, OnFresh(st, m), id, if m.AI? then KwargsFor(m, id) else map[])
  {
    match m
    case AI(i, text, calls, usage, kwargs) =>
      var (s0, counted) := Account(st, i, usage);
      var (s1, sent) := if calls != [] then SendCalls(s0, m, false) else (s0, false);
      var first := if calls != [] then KwargsFor(m, id) else map[];
      if calls != [] {
        CallsLearn(s0, m, false, id);
        LearnsFrom(st, s0, s1, id, first);
      } else {
        SameLearns(st, s0, id);
      }
      var second := if sent then map[] else KwargsFor(m, id);
      if text != "" {
        TextLearns(s1, m, counted, sent, id);
      } else if i != "" {
        RestLearns(s1, m, sent, id);
      } else {
        SameLearns(s1, s1, id);
      }
      if calls != [] {
        LearnsAgain(st, s1, OnFresh(st, m), id, first, if text == "" && i == "" then map[] else second);
      } else {
        LearnsFrom(st, s1, OnFresh(st, m), id, KwargsFor(m, id));
      }
    case Tool(i, _) =>
      PlainLearns(st, ToolResult(m), id);
    case Other(_) =>
      SameLearns(st, st, id);
  }

  lemma ShownLearns(st: State, m: Message, id: Id)
    requires id != "" && UpToDate(st, id)
    ensures Learns(st, OnShown(st, m), id, if m.AI? && id !in st.seen then KwargsFor(m, id) else map[])
  {
    if m.id != "" && m.id in st.seen {
      SameLearns(st, st, id);
    } else {
      var s := if m.id == "" then st else st.(seen := st.seen + {m.id});
      if m.id != "" && m.id in s.streamed {
        if m.AI? {
          var s0 := Account(s, m.id, m.usage).0;
          RestLearns(s0, m, false, id);
          LearnsFrom(st, s0, OnShown(st, m), id, KwargsFor(m, id));
        } else {
          SameLearns(st, s, id);
        }
      } else {
        FreshLearns(s, m, id);
        LearnsFrom(st, s, OnShown(st, m), id, if m.AI? then KwargsFor(m, id) else map[]);
      }
    }
  }

  // t puts its keyword map on offer for id.
  ghost predicate Offers(ts: seq<Touch>, t: Touch, id: Id) {
    && t.msg.id == id && t.msg.AI?
    && (if t.Streamed? then ChunkPayload(t.msg) != [] else FirstShown(ts, id) == |ts|)
  }

  ghost function OfferOf(ts: seq<Touch>, t: Touch, id: Id): Kwargs {
    if Offers(ts, t, id) then t.msg.kwargs else map[]
  }

  lemma MergeOffered(ts: seq<Touch>, t: Touch, id: Id)
    ensures Merge(Offered(ts + [t], id)) == Merge(Offered(ts, id)) + OfferOf(ts, t, id)
  {
    assert (ts + [t])[..|ts|] == ts;
    var offered := Offered(ts, id);
    if Offers(ts, t, id) {
      assert Offered(ts + [t], id) == offered + [t.msg.kwargs];
      MergeSnoc(offered, t.msg.kwargs);
    } else {
      assert Offered(ts + [t], id) == offered + [];
      assert offered + [] == offered;
      assert Merge(offered) + map[] == Merge(offered);
    }
  }

  lemma TouchLearns(st: State, ts: seq<Touch>, t: Touch, id: Id)
    requires id != "" && TraceInv(st, ts, id) && UpToDate(st, id)
    ensures Learns(st, OnTouch(st, t), id, OfferOf(ts, t, id))
  {
    match t {
      case Streamed(m) => ChunkLearns(st, m, id);
      case Shown(m) => ShownLearns(st, m, id);
    }
  }

  lemma ReadingSnoc(sent: Kwargs, offered: Kwargs, next: Kwargs, kwargs: Kwargs)
    requires SameReading(sent, offered) && SameReading(next, sent + kwargs)
    ensures SameReading(next, offered + kwargs)
  {
    forall key ensures Get(next, key) == Get(offered + kwargs, key) {
      assert Get(sent, key) == Get(offered, key) && Get(next, key) == Get(sent + kwargs, key);
    }
  }

  lemma KwargsStep(st: State, ts: seq<Touch>, t: Touch, id: Id)
    requires id != "" && TraceInv(st, ts, id) && KwargsInv(st, ts, id)
    ensures KwargsInv(OnTouch(st, t), ts + [t], id)
  {
    TouchLearns(st, ts, t, id);
    MergeOffered(ts, t, id);
    ReadingSnoc(SentTo(st, id), Merge(Offered(ts, id)), SentTo(OnTouch(st, t), id), OfferOf(ts, t, id));
  }

  // --- usage ---

  // The usage values on offer for one id: every AI chunk's, and the first AI
  // snapshot entry's; without an id, every snapshot entry's.
  ghost function OfferedUsage(ts: seq<Touch>, id: Id): seq<Usage> {
    if ts == [] then []
    else
      var init, last := ts[..|ts|-1], ts[|ts|-1];
      OfferedUsage(init, id) + if last.msg.id == id then UsageIn(init, last) else []
  }

  ghost function UsageIn(ts: seq<Touch>, t: Touch): seq<Usage> {
    if t.msg.AI? && t.msg.usage.Some? && (t.Streamed? || t.msg.id == "" || FirstShown(ts, t.msg.id) == |ts|)
    then [t.msg.usage.value] else []
  }

  // What is counted: the first usage on offer for an id, and everything on offer
  // without one.
  ghost function CountedFor(ts: seq<Touch>, id: Id): seq<Usage> {
    var offered := OfferedUsage(ts, id);
    if id == "" || offered == [] then offered else [offered[0]]
  }

  // The (id, usage) pairs counted so far, in order of arrival.
  ghost function Ledger(ts: seq<Touch>): seq<(Id, Usage)> {
    if ts == [] then []
    else
      var init, last := ts[..|ts|-1], ts[|ts|-1];
      var offer := UsageIn(init, last);
      Ledger(init)
      + if offer != [] && (last.msg.id == "" || OfferedUsage(init, last.msg.id) == [])
        then [(last.msg.id, offer[0])] else []
  }

  ghost function EntriesFor(ledger: seq<(Id, Usage)>, id: Id): seq<Usage> {
    if ledger == [] then []
    else
      var last := ledger[|ledger|-1];
      EntriesFor(ledger[..|ledger|-1], id) + if last.0 == id then [last.1] else []
  }

  ghost function Total(ledger: seq<(Id, Usage)>): Usage {
    if ledger == [] then NO_USAGE else AddUsage(Total(ledger[..|ledger|-1]), ledger[|ledger|-1].1)
  }

  lemma SnocUsage(ts: seq<Touch>, t: Touch, id: Id)
    ensures OfferedUsage(ts + [t], id) == OfferedUsage(ts, id) + if t.msg.id == id then UsageIn(ts, t) else []
  {
    assert (ts + [t])[..|ts|] == ts;
  }

  lemma SnocLedger(ledger: seq<(Id, Usage)>, e: (Id, Usage), id: Id)
    ensures EntriesFor(ledger + [e], id) == EntriesFor(ledger, id) + if e.0 == id then [e.1] else []
    ensures Total(ledger + [e]) == AddUsage(Total(ledger), e.1)
  {
    assert (ledger + [e])[..|ledger|] == ledger;
  }

  // Whether a touch adds a line to the ledger.
  ghost predicate Counts(ts: seq<Touch>, t: Touch) {
    UsageIn(ts, t) != [] && (t.msg.id == "" || OfferedUsage(ts, t.msg.id) == [])
  }

  lemma LedgerSnoc(ts: seq<Touch>, t: Touch)
    ensures Ledger(ts + [t]) == if Counts(ts, t) then Ledger(ts) + [(t.msg.id, UsageIn(ts, t)[0])] else Ledger(ts)
  {
    assert (ts + [t])[..|ts|] == ts;
    assert Ledger(ts) + [] == Ledger(ts);
  }

  // One more touch adds to the ledger what it adds to what is to be counted.
  lemma LedgerStaysExact(ts: seq<Touch>, t: Touch, id: Id)
    requires EntriesFor(Ledger(ts), id) == CountedFor(ts, id)
    ensures EntriesFor(Ledger(ts + [t]), id) == CountedFor(ts + [t], id)
  {
    hide Ledger, OfferedUsage, EntriesFor;
    LedgerSnoc(ts, t);
    SnocUsage(ts, t, id);
    if Counts(ts, t) {
      SnocLedger(Ledger(ts), (t.msg.id, UsageIn(ts, t)[0]), id);
    }
  }

  lemma LedgerEmpty(id: Id)
    ensures EntriesFor(Ledger([]), id) == CountedFor([], id)
  {}

  // The ledger holds for each id exactly what is to be counted for it.
  lemma {:induction false} LedgerIsExact(ts: seq<Touch>, id: Id)
    ensures EntriesFor(Ledger(ts), id) == CountedFor(ts, id)
    decreases |ts|
  {
    hide Ledger, OfferedUsage, EntriesFor, CountedFor;
    if ts == [] {
      LedgerEmpty(id);
    } else {
      var init, last := ts[..|ts|-1], ts[|ts|-1];
      assert init + [last] == ts;
      LedgerIsExact(init, id);
      LedgerStaysExact(init, last, id);
    }
  }

  ghost predicate CountedInv(st: State, ts: seq<Touch>, id: Id) {
    id in st.counted <==> OfferedUsage(ts, id) != []
  }

  ghost predicate UsageInv(st: State, ts: seq<Touch>) {
    && (forall id :: id != "" ==> CountedInv(st, ts, id))
    && st.usage == Total(Ledger(ts))
  }

  lemma SendUsage(st: State, m: Message, usage: Option<Usage>, already: bool)
    requires m.AI?
    ensures SendText(st, m, usage, already).0.usage == st.usage && SendText(st, m, usage, already).0.counted == st.counted
    ensures SendCalls(st, m, already).0.usage == st.usage && SendCalls(st, m, already).0.counted == st.counted
    ensures SendRest(st, m, already).usage == st.usage && SendRest(st, m, already).counted == st.counted
  {}

  ghost predicate SameTotals(a: State, b: State) {
    a.usage == b.usage && a.counted == b.counted
  }

  lemma ChunkAccounts(st: State, m: Message)
    ensures SameTotals(OnChunk(st, m), if m.AI? then Account(st, m.id, m.usage).0 else st)
  {
    if m.AI? {
      var (s0, counted) := Account(st, m.id, m.usage);
      SendUsage(MarkStreamed(s0, m.id), m, counted, false);
      var (s1, sent) := if m.text != "" then SendText(MarkStreamed(s0, m.id), m, counted, false) else (s0, false);
      SendUsage(MarkStreamed(s1, m.id), m, counted, sent);
    }
  }

  lemma FreshAccounts(st: State, m: Message)
    ensures SameTotals(OnFresh(st, m), if m.AI? then Account(st, m.id, m.usage).0 else st)
  {
    if m.AI? {
      var (s0, counted) := Account(st, m.id, m.usage);
      SendUsage(s0, m, counted, false);
      var (s1, sent) := if m.calls != [] then SendCalls(s0, m, false) else (s0, false);
      SendUsage(s1, m, counted, sent);
    }
  }

  lemma ShownAccounts(st: State, m: Message)
    ensures SameTotals(OnShown(st, m),
                       if m.AI? && !(m.id != "" && m.id in st.seen) then Account(st, m.id, m.usage).0 else st)
  {
    var s := if m.id == "" then st else st.(seen := st.seen + {m.id});
    FreshAccounts(s, m);
    if m.AI? {
      SendUsage(Account(s, m.id, m.usage).0, m, None, false);
    }
  }

  // A touch changes the totals only through Account, and offers at most once.
  lemma TouchAccounts(st: State, ts: seq<Touch>, t: Touch)
    requires t.msg.id != "" ==> TraceInv(st, ts, t.msg.id)
    ensures var offer := UsageIn(ts, t);
            SameTotals(OnTouch(st, t), Account(st, t.msg.id, if offer == [] then None else Some(offer[0])).0)
  {
    match t
    case Streamed(m) => ChunkAccounts(st, m);
    case Shown(m) => ShownAccounts(st, m);
  }

  lemma CountedStep(st: State, ts: seq<Touch>, t: Touch, id: Id)
    requires id != "" && CountedInv(st, ts, id) && (t.msg.id != "" ==> TraceInv(st, ts, t.msg.id))
    ensures CountedInv(OnTouch(st, t), ts + [t], id)
  {
    hide OnTouch, UsageIn, OfferedUsage, TraceInv;
    TouchAccounts(st, ts, t);
    SnocUsage(ts, t, id);
  }

  lemma TotalStep(st: State, ts: seq<Touch>, t: Touch)
    requires st.usage == Total(Ledger(ts)) && (t.msg.id != "" ==> TraceInv(st, ts, t.msg.id))
    requires t.msg.id != "" ==> CountedInv(st, ts, t.msg.id)
    ensures OnTouch(st, t).usage == Total(Ledger(ts + [t]))
  {
    hide OnTouch, UsageIn, OfferedUsage, TraceInv, Ledger, Total;
    TouchAccounts(st, ts, t);
    LedgerSnoc(ts, t);
    if Counts(ts, t) {
      SnocLedger(Ledger(ts), (t.msg.id, UsageIn(ts, t)[0]), t.msg.id);
    }
  }

  lemma UsageStep(st: State, ts: seq<Touch>, t: Touch)
    requires UsageInv(st, ts) && (t.msg.id != "" ==> TraceInv(st, ts, t.msg.id))
    ensures UsageInv(OnTouch(st, t), ts + [t])
  {
    hide OnTouch, TraceInv, CountedInv, Ledger;
    TotalStep(st, ts, t);
    forall id | id != "" ensures CountedInv(OnTouch(st, t), ts + [t], id) {
      CountedStep(st, ts, t, id);
    }
  }

  // --- whole turns ---

  ghost predicate IdInv(st: State, ts: seq<Touch>, id: Id) {
    TraceInv(st, ts, id) && KwargsInv(st, ts, id)
  }

  ghost predicate Inv(st: State, ts: seq<Touch>) {
    UsageInv(st, ts) && forall id :: id != "" ==> IdInv(st, ts, id)
  }

  lemma InvStep(st: State, ts: seq<Touch>, t: Touch)
    requires Inv(st, ts)
    ensures Inv(OnTouch(st, t), ts + [t])
  {
    assert t.msg.id != "" ==> IdInv(st, ts, t.msg.id);
    UsageStep(st, ts, t);
    forall id | id != "" ensures IdInv(OnTouch(st, t), ts + [t], id) {
      assert IdInv(st, ts, id);
      TraceStep(st, ts, t, id);
      KwargsStep(st, ts, t, id);
    }
  }

  lemma {:induction false} InvSteps(st: State, ts: seq<Touch>, more: seq<Touch>)
    requires Inv(st, ts)
    ensures Inv(OnTouches(st, more), ts + more)
    decreases |more|
  {
    hide Inv, OnTouch;
    if more == [] {
      assert ts + more == ts;
    } else {
      var init, last := more[..|more|-1], more[|more|-1];
      InvSteps(st, ts, init);
      InvStep(OnTouches(st, init), ts + init, last);
      assert (ts + init) + [last] == ts + more;
    }
  }

  // Events that are not about one message leave everything as it is.
  lemma IdInvEmit(st: State, ts: seq<Touch>, e: Event, id: Id)
    requires IdInv(st, ts, id) && (e.CustomEvent? || e.Values? || e.End?)
    ensures IdInv(Emit(st, e), ts, id)
  {
    TraceEmit(st, e, id);
    AttachedEmit(st, e, id);
    assert Trace(st.events, id) + [] == Trace(st.events, id);
    assert Attached(st.events, id) + [] == Attached(st.events, id);
  }

  lemma InvEmit(st: State, ts: seq<Touch>, e: Event)
    requires Inv(st, ts) && (e.CustomEvent? || e.Values? || e.End?)
    ensures Inv(Emit(st, e), ts)
  {
    forall id | id != "" ensures CountedInv(Emit(st, e), ts, id) {
      assert CountedInv(st, ts, id);
    }
    forall id | id != "" ensures IdInv(Emit(st, e), ts, id) {
      IdInvEmit(st, ts, e, id);
    }
  }

  lemma InvItem(st: State, ts: seq<Touch>, item: Item)
    requires Inv(st, ts)
    ensures Inv(OnItem(st, item), ts + TouchesOf(item))
  {
    hide Inv, Emit, OnTouches, AllShown;
    match item
    case Custom(data) =>
      InvEmit(st, ts, CustomEvent(data));
      assert ts + [] == ts;
    case Chunk(m) =>
      InvStep(st, ts, Streamed(m));
    case Snapshot(messages) =>
      InvSteps(st, ts, AllShown(messages));
      InvEmit(OnTouches(st, AllShown(messages)), ts + AllShown(messages), Values(messages));
  }

  lemma {:induction false} TurnInv(items: seq<Item>)
    ensures Inv(OnItems(items), Feed(items))
    decreases |items|
  {
    if items != [] {
      hide Inv, OnItem, TouchesOf;
      var init := items[..|items|-1];
      TurnInv(init);
      InvItem(OnItems(init), Feed(init), items[|items|-1]);
    }
  }

  lemma FinalInv(items: seq<Item>, id: Id)
    requires id != ""
    ensures IdInv(Emit(OnItems(items), End(OnItems(items).usage)), Feed(items), id)
  {
    TurnInv(items);
    IdInvEmit(OnItems(items), Feed(items), End(OnItems(items).usage), id);
  }

  // Content: for every id and every interleaving of the two feeds.
  lemma ContentReconciled(items: seq<Item>, id: Id)
    requires id != ""
    ensures Trace(EventsOf(items), id) == Expected(Feed(items), id)
  {
    FinalInv(items, id);
  }

  // Keyword values: the reader of the events ends up knowing what was on offer,
  // and is never told what it knows.
  lemma KwargsReconciled(items: seq<Item>, id: Id)
    requires id != ""
    ensures SameReading(Merge(Attached(EventsOf(items), id)), Merge(Offered(Feed(items), id)))
    ensures NoRepeats(Attached(EventsOf(items), id))
  {
    FinalInv(items, id);
  }

  // Every keyword map that any chunk or snapshot entry of the id carried, whether or not
  // it was on offer.
  ghost predicate Carries(t: Touch, id: Id, key: string) {
    t.msg.id == id && t.msg.AI? && key in t.msg.kwargs
  }

  ghost function Carried(ts: seq<Touch>, id: Id): seq<Kwargs> {
    if ts == [] then []
    else
      var init, last := ts[..|ts|-1], ts[|ts|-1];
      Carried(init, id) + if last.msg.id == id && last.msg.AI? then [last.msg.kwargs] else []
  }

  // Touch i has the last word on a key, but was not on offer, and the value is not what
  // was on offer before.
  ghost predicate Withheld(ts: seq<Touch>, id: Id, key: string, i: int) {
    && 0 <= i < |ts| && Carries(ts[i], id, key) && !Offers(ts[..i], ts[i], id)
    && ts[i].msg.kwargs[key] != Get(Merge(Offered(ts[..i], id)), key)
    && forall j :: i < j < |ts| ==> !Carries(ts[j], id, key)
  }

  ghost predicate Loses(ts: seq<Touch>, id: Id, key: string) {
    exists i :: Withheld(ts, id, key, i)
  }

  lemma LosesSnoc(ts: seq<Touch>, t: Touch, id: Id, key: string)
    ensures Loses(ts + [t], id, key)
       <==> if Carries(t, id, key) then !Offers(ts, t, id) && t.msg.kwargs[key] != Get(Merge(Offered(ts, id)), key)
            else Loses(ts, id, key)
  {
    hide Offers, Merge, Offered;
    var more, n := ts + [t], |ts|;
    assert more[..n] == ts && more[n] == t;
    forall i | 0 <= i < n ensures Withheld(more, id, key, i) <==> Withheld(ts, id, key, i) && !Carries(t, id, key) {
      assert more[..i] == ts[..i] && more[i] == ts[i];
      assert forall j :: i < j < n ==> more[j] == ts[j];
    }
    if Carries(t, id, key) && !Offers(ts, t, id) && t.msg.kwargs[key] != Get(Merge(Offered(ts, id)), key) {
      assert Withheld(more, id, key, n);
    }
    if !Carries(t, id, key) && Loses(ts, id, key) {
      var i :| Withheld(ts, id, key, i);
      assert Withheld(more, id, key, i);
    }
  }

  lemma CarriedSnoc(ts: seq<Touch>, t: Touch, id: Id, key: string)
    ensures Get(Merge(Carried(ts + [t], id)), key)
         == if Carries(t, id, key) then t.msg.kwargs[key] else Get(Merge(Carried(ts, id)), key)
  {
    assert (ts + [t])[..|ts|] == ts;
    var carried := Carried(ts, id);
    if t.msg.id == id && t.msg.AI? {
      MergeSnoc(carried, t.msg.kwargs);
    } else {
      assert carried + [] == carried;
    }
    hide Merge;
  }

  lemma {:induction false} LosesExactly(ts: seq<Touch>, id: Id, key: string)
    ensures Loses(ts, id, key) <==> Get(Merge(Offered(ts, id)), key) != Get(Merge(Carried(ts, id)), key)
    decreases |ts|
  {
    if ts != [] {
      var init, last := ts[..|ts|-1], ts[|ts|-1];
      assert ts == init + [last];
      LosesExactly(init, id, key);
      LosesSnoc(init, last, id, key);
      CarriedSnoc(init, last, id, key);
      MergeOffered(init, last, id);
      hide Loses, Merge, Offered, Carried;
    }
  }

  // The reader ends up knowing what all maps say together, if and only if none that was
  // not on offer has the last word on a key with a value not on offer before.
  lemma AllKwargsReadExactly(items: seq<Item>, id: Id)
    requires id != ""
    ensures SameReading(Merge(Attached(EventsOf(items), id)), Merge(Carried(Feed(items), id)))
       <==> forall key :: !Loses(Feed(items), id, key)
  {
    KwargsReconciled(items, id);
    forall key
      ensures Loses(Feed(items), id, key)
         <==> Get(Merge(Attached(EventsOf(items), id)), key) != Get(Merge(Carried(Feed(items), id)), key)
    {
      LosesExactly(Feed(items), id, key);
    }
    hide Loses, Merge, Attached, Carried, Offered, EventsOf, Feed, Get;
  }

  // Usage: the end event carries the sum over a ledger that holds, for each id,
  // the first usage on offer and nothing else.
  lemma UsageReconciled(items: seq<Item>)
    ensures var events := EventsOf(items);
            && events[|events|-1] == End(Total(Ledger(Feed(items))))
            && forall id :: EntriesFor(Ledger(Feed(items)), id) == CountedFor(Feed(items), id)
  {
    TurnInv(items);
    forall id ensures EntriesFor(Ledger(Feed(items)), id) == CountedFor(Feed(items), id) {
      LedgerIsExact(Feed(items), id);
    }
  }

  // --- text ---

  ghost function TextOf(ps: seq<Payload>): string {
    if ps == [] then "" else TextOf(ps[..|ps|-1]) + (if ps[|ps|-1].Text? then ps[|ps|-1].text else "")
  }

  lemma {:induction false} TextOfConcat(a: seq<Payload>, b: seq<Payload>)
    ensures TextOf(a + b) == TextOf(a) + TextOf(b)
    decreases |b|
  {
    if b == [] {
      assert a + b == a;
    } else {
      var init, last := b[..|b|-1], b[|b|-1];
      TextOfConcat(a, init);
      assert (a + b)[..|a + b|-1] == a + init && (a + b)[|a + b|-1] == last;
      var text := if last.Text? then last.text else "";
      assert TextOf(a) + (TextOf(init) + text) == (TextOf(a) + TextOf(init)) + text;
    }
  }

  // The AI text delivered for one id over a whole turn.
  ghost function TextFor(events: seq<Event>, id: Id): string {
    TextOf(Trace(events, id))
  }

  ghost function ChunkText(ts: seq<Touch>, id: Id): string {
    TextOf(ChunkTrace(ts, id))
  }

  ghost function LateText(ts: seq<Touch>, id: Id): string {
    TextOf(LateContent(ts, id))
  }

  ghost function SnapshotText(ts: seq<Touch>, id: Id): string {
    var k := FirstShown(ts, id);
    if k < |ts| && ts[k].msg.AI? then ts[k].msg.text else ""
  }

  lemma ShownText(m: Message)
    ensures TextOf(ShownPayload(m)) == if m.AI? then m.text else ""
  {
    match m
    case AI(_, text, calls, _, _) =>
      TextOfConcat(CallsPayload(calls), TextPayload(text));
      assert [Text(text)][..0] == [] && [Calls(calls)][..0] == [];
    case Tool(_, _) =>
      assert [Result(m)][..0] == [];
    case Other(_) =>
  }

  lemma ChunksSplit(ts: seq<Touch>, id: Id)
    ensures ChunkTrace(ts, id) == EarlyContent(ts, id) + LateContent(ts, id)
  {
    var k := FirstShown(ts, id);
    var a, b := ts[..k], ts[k..];
    assert ts == a + b;
    ChunkConcat(a, b, id);
  }

  lemma SnapshotIsText(ts: seq<Touch>, id: Id)
    ensures TextOf(SnapshotContent(ts, id)) == SnapshotText(ts, id)
  {
    var k := FirstShown(ts, id);
    if k < |ts| {
      ShownText(ts[k].msg);
    }
  }

  lemma PartsText(early: seq<Payload>, shown: seq<Payload>, late: seq<Payload>)
    ensures TextOf(early + (if early == [] then shown else []) + late)
            == if early != [] then TextOf(early + late) else TextOf(shown) + TextOf(late)
  {
    if early != [] {
      assert early + [] + late == early + late;
    } else {
      assert [] + shown + late == shown + late;
      TextOfConcat(shown, late);
    }
  }

  // The text of what is expected.
  lemma ExpectedText(ts: seq<Touch>, id: Id)
    ensures TextOf(Expected(ts, id))
            == if EarlyContent(ts, id) != [] then ChunkText(ts, id) else SnapshotText(ts, id) + LateText(ts, id)
  {
    ChunksSplit(ts, id);
    SnapshotIsText(ts, id);
    PartsText(EarlyContent(ts, id), SnapshotContent(ts, id), LateContent(ts, id));
  }

  // For every run: the chunk texts, or the snapshot's text followed by whatever
  // chunks come later.
  lemma TextReconciled(items: seq<Item>, id: Id)
    requires id != ""
    ensures var ts := Feed(items);
            TextFor(EventsOf(items), id)
            == if EarlyContent(ts, id) != [] then ChunkText(ts, id) else SnapshotText(ts, id) + LateText(ts, id)
  {
    ContentReconciled(items, id);
    ExpectedText(Feed(items), id);
  }

  lemma {:induction false} ChunkConcat(a: seq<Touch>, b: seq<Touch>, id: Id)
    ensures ChunkTrace(a + b, id) == ChunkTrace(a, id) + ChunkTrace(b, id)
    decreases |b|
  {
    hide ChunkPart;
    if b == [] {
      assert a + b == a;
    } else {
      var init, last := b[..|b|-1], b[|b|-1];
      assert b == init + [last];
      assert a + b == (a + init) + [last];
      calc {
        ChunkTrace(a + b, id);
      == { SnocChunks(a + init, last, id); }
        ChunkTrace(a + init, id) + ChunkPart(last, id);
      == { ChunkConcat(a, init, id); }
        (ChunkTrace(a, id) + ChunkTrace(init, id)) + ChunkPart(last, id);
      ==
        ChunkTrace(a, id) + (ChunkTrace(init, id) + ChunkPart(last, id));
      == { SnocChunks(init, last, id); }
        ChunkTrace(a, id) + ChunkTrace(b, id);
      }
    }
  }

  // When no chunk of the id arrives after its first snapshot: exactly the chunk
  // texts if anything was streamed, exactly the snapshot text otherwise.
  lemma TextExactlyOnce(items: seq<Item>, id: Id)
    requires id != "" && LateContent(Feed(items), id) == []
    ensures TextFor(EventsOf(items), id)
            == if ChunkTrace(Feed(items), id) != [] then ChunkText(Feed(items), id) else SnapshotText(Feed(items), id)
  {
    TextReconciled(items, id);
    var ts := Feed(items);
    ChunksSplit(ts, id);
    assert SnapshotText(ts, id) + "" == SnapshotText(ts, id);
  }

  // The text is delivered twice over exactly when a snapshot with text comes
  // before the first chunk of its id and text chunks follow it.
  lemma TextDoubledExactly(items: seq<Item>, id: Id)
    requires id != ""
    ensures var ts := Feed(items);
            var text := TextFor(EventsOf(items), id);
            text != ChunkText(ts, id) && text != SnapshotText(ts, id)
            <==> EarlyContent(ts, id) == [] && SnapshotText(ts, id) != "" && LateText(ts, id) != ""
  {
    TextReconciled(items, id);
    var ts := Feed(items);
    ChunksSplit(ts, id);
    if EarlyContent(ts, id) == [] {
      assert ChunkTrace(ts, id) == LateContent(ts, id);
      var a, b := SnapshotText(ts, id), LateText(ts, id);
      assert |a + b| == |a| + |b|;
      if a == "" { assert a + b == b; }
      if b == "" { assert a + b == a; }
    }
  }

  // What is delivered is the snapshot's text exactly when no text chunk follows it - or
  // when the message was streamed before, and its chunks happen to say the same.
  lemma SnapshotTextExactly(items: seq<Item>, id: Id)
    requires id != ""
    ensures var ts := Feed(items);
            TextFor(EventsOf(items), id) == SnapshotText(ts, id)
            <==> if EarlyContent(ts, id) == [] then LateText(ts, id) == "" else ChunkText(ts, id) == SnapshotText(ts, id)
  {
    TextReconciled(items, id);
    hide EventsOf, Feed, TextFor, EarlyContent, SnapshotText, LateText, ChunkText;
  }

  // --- inputs on which a text is doubled, and lost, and a keyword value withheld ---

  function Says(id: Id, text: string): Message {
    AI(id, text, [], None, map[])
  }

  function Asks(id: Id, calls: seq<string>): Message {
    AI(id, "", calls, None, map[])
  }

  lemma OneItem(a: Item)
    ensures OnItems([a]) == OnItem(START, a) && Feed([a]) == TouchesOf(a)
  {
    assert [a][..0] == [];
    assert [] + TouchesOf(a) == TouchesOf(a);
    hide OnItem, TouchesOf;
  }

  lemma TwoItems(a: Item, b: Item)
    ensures OnItems([a, b]) == OnItem(OnItem(START, a), b) && Feed([a, b]) == TouchesOf(a) + TouchesOf(b)
  {
    assert [a, b][..1] == [a] && [a, b][1] == b;
    OneItem(a);
    hide OnItem, TouchesOf;
  }

  // A snapshot with a text, and then the chunk it is made of: the text comes twice.
  lemma TextCanDouble(id: Id, text: string)
    requires id != "" && text != ""
    ensures var items := [Snapshot([Says(id, text)]), Chunk(Says(id, text))];
            && ChunkText(Feed(items), id) == text && SnapshotText(Feed(items), id) == text
            && TextFor(EventsOf(items), id) == text + text
  {
    var m := Says(id, text);
    var items := [Snapshot([m]), Chunk(m)];
    TwoItems(items[0], items[1]);
    assert AllShown([m]) == [Shown(m)];
    TwoTouches(Shown(m), Streamed(m), id);
    assert [Shown(m)] + [Streamed(m)] == [Shown(m), Streamed(m)];
    TextReconciled(items, id);
    OneText(text);
    hide EventsOf, TextFor;
  }

  lemma OneText(text: string)
    ensures TextOf(TextPayload(text)) == text
  {
    if text != "" {
      assert [Text(text)][..0] == [];
      assert "" + text == text;
    }
  }

  lemma TwoTouches(a: Touch, b: Touch, id: Id)
    requires a.msg.id == id && b.msg.id == id && a.Shown? != b.Shown?
    ensures var ts := [a, b];
            && FirstShown(ts, id) == (if a.Shown? then 0 else 1)
            && EarlyContent(ts, id) == (if a.Shown? then [] else ChunkPayload(a.msg))
            && LateContent(ts, id) == (if a.Shown? then ChunkPayload(b.msg) else [])
            && SnapshotContent(ts, id) == ShownPayload(if a.Shown? then a.msg else b.msg)
            && ChunkTrace(ts, id) == ChunkPayload(if a.Shown? then b.msg else a.msg)
  {
    var ts := [a, b];
    assert ts[..1] == [a] && [a][..0] == [] && ts[..0] == [] && ts[0..] == ts && ts[1..] == [b] && [b][..0] == [];
    assert FirstShown([a], id) == if a.Shown? then 0 else 1;
    assert ChunkTrace([a], id) == ChunkPart(a, id) && ChunkTrace([b], id) == ChunkPart(b, id);
    assert ChunkTrace(ts, id) == ChunkPart(a, id) + ChunkPart(b, id);
  }

  // A chunk with calls only, and then the snapshot that adds a text: the message counts
  // as streamed, and the text is never delivered.
  lemma SnapshotTextCanBeLost(id: Id, text: string, call: string)
    requires id != "" && text != ""
    ensures var items := [Chunk(Asks(id, [call])), Snapshot([AI(id, text, [call], None, map[])])];
            SnapshotText(Feed(items), id) == text && TextFor(EventsOf(items), id) == ""
  {
    var c, m := Asks(id, [call]), AI(id, text, [call], None, map[]);
    var items := [Chunk(c), Snapshot([m])];
    TwoItems(items[0], items[1]);
    assert AllShown([m]) == [Shown(m)];
    TwoTouches(Streamed(c), Shown(m), id);
    assert [Streamed(c)] + [Shown(m)] == [Streamed(c), Shown(m)];
    TextReconciled(items, id);
    CallsThenText([call], text);
    hide EventsOf, TextFor;
  }

  lemma EmptyChunk(m: Message)
    requires m.AI? && m.text == "" && m.calls == [] && m.usage == None
    ensures OnItem(START, Chunk(m)) == START
  {}

  lemma NothingAttached(e: Event, id: Id)
    requires e.End?
    ensures Attached([] + [e], id) == []
  {
    assert ([] + [e])[..0] == [];
  }

  // A single chunk without text or calls: its keyword value is never delivered.
  lemma KwargsCanBeWithheld(id: Id, key: string, value: string)
    requires id != ""
    ensures var items := [Chunk(AI(id, "", [], None, map[key := Some(value)]))];
            Loses(Feed(items), id, key) && Attached(EventsOf(items), id) == []
  {
    var m := AI(id, "", [], None, map[key := Some(value)]);
    OneItem(Chunk(m));
    EmptyChunk(m);
    NothingAttached(End(NO_USAGE), id);
    assert Withheld([Streamed(m)], id, key, 0);
    hide OnItems, Feed, Loses, Withheld, Attached, OnItem;
  }

  lemma CallsThenText(calls: seq<string>, text: string)
    ensures TextOf(CallsPayload(calls)) == "" && TextOf(CallsPayload(calls) + TextPayload(text)) == text
  {
    assert calls != [] ==> [Calls(calls)][..0] == [];
    OneText(text);
    TextOfConcat(CallsPayload(calls), TextPayload(text));
  }

  // --- chat ---

  // The id of the last event that carried text.
  ghost function LastTextId(events: seq<Event>): Id {
    if events == [] then ""
    else
      var last := events[|events|-1];
      if last.AiText? && last.content != "" then last.id else LastTextId(events[..|events|-1])
  }

  lemma {:induction false} TraceText(events: seq<Event>, id: Id)
    requires events != []
    ensures TextFor(events, id)
            == TextFor(events[..|events|-1], id)
               + var e := events[|events|-1]; if e.AiText? && e.id == id then e.content else ""
  {
    var init, e := events[..|events|-1], events[|events|-1];
    TextOfConcat(Trace(init, id), PayloadOf(e, id));
    var p := PayloadOf(e, id);
    if p != [] {
      assert p[..|p|-1] == [];
    }
  }

  function BufferFor(chunks: map<Id, seq<string>>, id: Id): seq<string> {
    if id in chunks then chunks[id] else []
  }

  // The buffers hold what each id has delivered so far.
  ghost predicate GatheredFor(chunks: map<Id, seq<string>>, events: seq<Event>, id: Id) {
    TextFor(events, id) == Concat(BufferFor(chunks, id))
  }

  ghost predicate Gathered(chunks: map<Id, seq<string>>, events: seq<Event>) {
    forall id :: GatheredFor(chunks, events, id)
  }

  lemma GatherNone()
    ensures Gathered(map[], []) && LastTextId([]) == ""
  {}

  lemma GatheredText(chunks: map<Id, seq<string>>, events: seq<Event>, id: Id)
    requires Gathered(chunks, events)
    ensures TextFor(events, id) == Concat(BufferFor(chunks, id))
  {
    assert GatheredFor(chunks, events, id);
  }

  lemma TextSnoc(events: seq<Event>, e: Event, id: Id)
    ensures TextFor(events + [e], id)
         == if e.AiText? && e.id == id && e.content != "" then TextFor(events, id) + e.content else TextFor(events, id)
  {
    var more := events + [e];
    assert more[..|events|] == events;
    TraceText(more, id);
    hide TextFor;
    assert TextFor(events, id) + "" == TextFor(events, id);
  }

  // The buffers after one more event.
  function Buffered(chunks: map<Id, seq<string>>, e: Event): map<Id, seq<string>> {
    if e.AiText? && e.content != "" then chunks[e.id := BufferFor(chunks, e.id) + [e.content]] else chunks
  }

  lemma GatherOne(chunks: map<Id, seq<string>>, events: seq<Event>, e: Event, id: Id)
    requires GatheredFor(chunks, events, id)
    ensures GatheredFor(Buffered(chunks, e), events + [e], id)
  {
    hide TextFor, Concat;
    TextSnoc(events, e, id);
    if e.AiText? && e.content != "" && e.id == id {
      ConcatSnoc(BufferFor(chunks, id), e.content);
    }
  }

  lemma GatherStep(chunks: map<Id, seq<string>>, events: seq<Event>, e: Event)
    requires Gathered(chunks, events)
    ensures Gathered(Buffered(chunks, e), events + [e])
  {
    hide GatheredFor, Buffered;
    forall id ensures GatheredFor(Buffered(chunks, e), events + [e], id) {
      GatherOne(chunks, events, e, id);
    }
  }

  lemma LastTextSnoc(events: seq<Event>, e: Event)
    ensures LastTextId(events + [e]) == if e.AiText? && e.content != "" then e.id else LastTextId(events)
  {
    assert (events + [e])[..|events|] == events;
  }

  // chat() gathers the text per id and returns that of the last id to produce
  // any. Messages without an id share one buffer.
  method Chat(items: seq<Item>) returns (text: string)
    ensures text == TextFor(EventsOf(items), LastTextId(EventsOf(items)))
  {
    hide LastTextId, EventsOf, Gathered;
    var events := Stream(items);
    GatherNone();
    var chunks: map<Id, seq<string>> := map[];
    var lastId := "";
    for k := 0 to |events|
      invariant lastId == LastTextId(events[..k])
      invariant Gathered(chunks, events[..k])
    {
      hide LastTextId, EventsOf, Gathered;
      var e := events[k];
      GatherStep(chunks, events[..k], e);
      LastTextSnoc(events[..k], e);
      assert events[..k+1] == events[..k] + [e];
      if e.AiText? && e.content != "" {
        chunks := chunks[e.id := BufferFor(chunks, e.id) + [e.content]];
        lastId := e.id;
      }
    }
    assert events[..|events|] == events;
    GatheredText(chunks, events, lastId);
    text := Concat(BufferFor(chunks, lastId));
  }

  // --- what is passed through ---

  ghost predicate IsForwarded(e: Event) {
    e.CustomEvent? || e.Values?
  }

  // The custom and values events among some events.
  ghost function Forwarded(events: seq<Event>): seq<Event> {
    if events == [] then []
    else
      var init, last := Forwarded(events[..|events|-1]), events[|events|-1];
      if IsForwarded(last) then init + [last] else init
  }

  // One event for every custom item and every snapshot.
  ghost function ForwardedItems(items: seq<Item>): seq<Event> {
    if items == [] then []
    else
      var init, last := ForwardedItems(items[..|items|-1]), items[|items|-1];
      match last
      case Custom(data) => init + [CustomEvent(data)]
      case Chunk(_) => init
      case Snapshot(messages) => init + [Values(messages)]
  }

  lemma ForwardedEmit(st: State, e: Event)
    ensures Forwarded(Emit(st, e).events)
         == if IsForwarded(e) then Forwarded(st.events) + [e] else Forwarded(st.events)
  {
    assert (st.events + [e])[..|st.events|] == st.events;
  }

  // Sending a part of a message emits nothing but events about it.
  lemma SendForwardsNothing(st: State, m: Message, usage: Option<Usage>, alreadySent: bool)
    requires m.AI?
    ensures Forwarded(SendText(st, m, usage, alreadySent).0.events) == Forwarded(st.events)
    ensures Forwarded(SendCalls(st, m, alreadySent).0.events) == Forwarded(st.events)
    ensures Forwarded(SendRest(st, m, alreadySent).events) == Forwarded(st.events)
  {
    hide Forwarded, Emit;
    var (next, delta) := if alreadySent then (st, map[]) else Unsent(st, m.id, m.kwargs);
    assert next.events == st.events;
    ForwardedEmit(next, AiText(m.id, m.text, usage, delta));
    ForwardedEmit(next, AiCalls(m.id, m.calls, delta));
    ForwardedEmit(next, AiText(m.id, "", None, delta));
  }

  lemma ChunkForwardsNothing(st: State, m: Message)
    ensures Forwarded(OnChunk(st, m).events) == Forwarded(st.events)
  {
    hide Forwarded, Unsent, SendText, SendCalls;
    if m.AI? {
      var (s0, counted) := Account(st, m.id, m.usage);
      var (s1, sent) := if m.text != "" then SendText(MarkStreamed(s0, m.id), m, counted, false) else (s0, false);
      SendForwardsNothing(MarkStreamed(s0, m.id), m, counted, false);
      SendForwardsNothing(MarkStreamed(s1, m.id), m, None, sent);
    } else if m.Tool? {
      ForwardedEmit(MarkStreamed(st, m.id), ToolResult(m));
    }
  }

  lemma FreshForwardsNothing(st: State, m: Message)
    ensures Forwarded(OnFresh(st, m).events) == Forwarded(st.events)
  {
    hide Forwarded, Unsent, SendText, SendCalls, SendRest;
    if m.AI? {
      var (s0, counted) := Account(st, m.id, m.usage);
      var (s1, sent) := if m.calls != [] then SendCalls(s0, m, false) else (s0, false);
      SendForwardsNothing(s0, m, None, false);
      SendForwardsNothing(s1, m, counted, sent);
    } else if m.Tool? {
      ForwardedEmit(st, ToolResult(m));
    }
  }

  lemma ShownForwardsNothing(st: State, m: Message)
    ensures Forwarded(OnShown(st, m).events) == Forwarded(st.events)
  {
    hide Forwarded, OnFresh, SendRest;
    var s := if m.id == "" then st else st.(seen := st.seen + {m.id});
    FreshForwardsNothing(s, m);
    if m.AI? {
      SendForwardsNothing(Account(s, m.id, m.usage).0, m, None, false);
    }
  }

  lemma {:induction false} ShownAllForwardNothing(st: State, ts: seq<Touch>)
    requires forall i :: 0 <= i < |ts| ==> ts[i].Shown?
    ensures Forwarded(OnTouches(st, ts).events) == Forwarded(st.events)
    decreases |ts|
  {
    if ts != [] {
      hide Forwarded, OnShown;
      ShownAllForwardNothing(st, ts[..|ts|-1]);
      ShownForwardsNothing(OnTouches(st, ts[..|ts|-1]), ts[|ts|-1].msg);
    }
  }

  // Custom items and snapshots are passed on, each once and in order, whatever the
  // messages do.
  lemma {:induction false} PassedThrough(items: seq<Item>)
    ensures Forwarded(OnItems(items).events) == ForwardedItems(items)
    decreases |items|
  {
    if items != [] {
      var init, last := items[..|items|-1], items[|items|-1];
      PassedThrough(init);
      var st := OnItems(init);
      hide Forwarded, OnChunk, OnTouches;
      match last
      case Custom(data) => ForwardedEmit(st, CustomEvent(data));
      case Chunk(m) => ChunkForwardsNothing(st, m);
      case Snapshot(messages) =>
        ShownAllForwardNothing(st, AllShown(messages));
        ForwardedEmit(OnTouches(st, AllShown(messages)), Values(messages));
    }
  }

  lemma EventsPassThrough(items: seq<Item>)
    ensures Forwarded(EventsOf(items)) == ForwardedItems(items)
  {
    PassedThrough(items);
    ForwardedEmit(OnItems(items), End(OnItems(items).usage));
  }
}
