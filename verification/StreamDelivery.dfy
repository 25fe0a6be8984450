// What the events of a turn carry besides content: the usage of each message, exactly
// once and with its text; messages without an id; and the order of events.
module StreamDelivery {
  import opened Wrappers
  import opened Sequences
  import opened StreamClient
  import opened StreamReconciliation

  // --- usage on the events of one id ---

  ghost function UsageOn(e: Event, id: Id): seq<Usage> {
    if e.AiText? && e.id == id && e.usage.Some? then [e.usage.value] else []
  }

  // The usages that the AI text events of an id carry, in order.
  ghost function UsagesOn(events: seq<Event>, id: Id): seq<Usage> {
    if events == [] then [] else UsagesOn(events[..|events|-1], id) + UsageOn(events[|events|-1], id)
  }

  // A chunk with anything in it marks its id as streamed.
  ghost predicate Bears(m: Message) {
    m.Tool? || (m.AI? && (m.text != "" || m.calls != []))
  }

  ghost predicate StreamedAt(ts: seq<Touch>, id: Id, k: int) {
    0 <= k < |ts| && ts[k].Streamed? && ts[k].msg.id == id && Bears(ts[k].msg)
  }

  ghost predicate ShownAt(ts: seq<Touch>, id: Id, k: int) {
    0 <= k < |ts| && ts[k].Shown? && ts[k].msg.id == id
  }

  // Usage is on offer from every chunk of the id, and from its first snapshot entry.
  ghost predicate OffersAt(ts: seq<Touch>, id: Id, k: int) {
    && 0 <= k < |ts| && ts[k].msg.id == id && ts[k].msg.AI? && ts[k].msg.usage.Some?
    && (ts[k].Streamed? || forall j :: 0 <= j < k ==> !ShownAt(ts, id, j))
  }

  ghost predicate FirstOffer(ts: seq<Touch>, id: Id, k: int) {
    OffersAt(ts, id, k) && forall j :: 0 <= j < k ==> !OffersAt(ts, id, j)
  }

  // What is offered there comes with a text that is delivered.
  ghost predicate SpokenAt(ts: seq<Touch>, id: Id, k: int) {
    && 0 <= k < |ts| && ts[k].msg.AI? && ts[k].msg.text != ""
    && (ts[k].Streamed? || forall j :: 0 <= j < k ==> !StreamedAt(ts, id, j))
  }

  ghost predicate CarriesFirst(ts: seq<Touch>, id: Id, usages: seq<Usage>) {
    && (forall k :: FirstOffer(ts, id, k) ==> usages == if SpokenAt(ts, id, k) then [ts[k].msg.usage.value] else [])
    && ((forall k :: !OffersAt(ts, id, k)) ==> usages == [])
  }

  // --- one more touch ---

  lemma EmitUsage(st: State, e: Event, id: Id)
    ensures UsagesOn(Emit(st, e).events, id) == UsagesOn(st.events, id) + UsageOn(e, id)
  {
    assert (st.events + [e])[..|st.events|] == st.events;
  }

  // What sending the parts of a message adds to the usages.
  lemma SendUsages(st: State, m: Message, usage: Option<Usage>, already: bool, id: Id)
    requires m.AI?
    ensures UsagesOn(SendText(st, m, usage, already).0.events, id)
         == UsagesOn(st.events, id) + if m.id == id && usage.Some? then [usage.value] else []
    ensures UsagesOn(SendCalls(st, m, already).0.events, id) == UsagesOn(st.events, id)
    ensures UsagesOn(SendRest(st, m, already).events, id) == UsagesOn(st.events, id)
  {
    hide UsagesOn, Emit;
    var (next, delta) := if already then (st, map[]) else Unsent(st, m.id, m.kwargs);
    assert next.events == st.events;
    EmitUsage(next, AiText(m.id, m.text, usage, delta), id);
    EmitUsage(next, AiCalls(m.id, m.calls, delta), id);
    EmitUsage(next, AiText(m.id, "", None, delta), id);
    assert UsagesOn(st.events, id) + [] == UsagesOn(st.events, id);
  }

  // The usage a message still has to be counted for.
  ghost function Uncounted(st: State, m: Message, id: Id): seq<Usage> {
    if m.AI? && m.id == id && m.usage.Some? && (id == "" || id !in st.counted) then [m.usage.value] else []
  }

  lemma ChunkUsages(st: State, m: Message, id: Id)
    ensures UsagesOn(OnChunk(st, m).events, id)
         == UsagesOn(st.events, id) + if m.AI? && m.text != "" then Uncounted(st, m, id) else []
  {
    hide UsagesOn, SendText, SendCalls;
    if m.AI? {
      var (s0, counted) := Account(st, m.id, m.usage);
      SendUsages(MarkStreamed(s0, m.id), m, counted, false, id);
      var (s1, sent) := if m.text != "" then SendText(MarkStreamed(s0, m.id), m, counted, false) else (s0, false);
      SendUsages(MarkStreamed(s1, m.id), m, counted, sent, id);
    } else if m.Tool? {
      EmitUsage(MarkStreamed(st, m.id), ToolResult(m), id);
    }
    assert UsagesOn(st.events, id) + [] == UsagesOn(st.events, id);
  }

  lemma FreshUsages(st: State, m: Message, id: Id)
    ensures UsagesOn(OnFresh(st, m).events, id)
         == UsagesOn(st.events, id) + if m.AI? && m.text != "" then Uncounted(st, m, id) else []
  {
    hide UsagesOn, SendText, SendCalls, SendRest;
    if m.AI? {
      var (s0, counted) := Account(st, m.id, m.usage);
      SendUsages(s0, m, counted, false, id);
      var (s1, sent) := if m.calls != [] then SendCalls(s0, m, false) else (s0, false);
      SendUsages(s1, m, counted, sent, id);
    } else if m.Tool? {
      EmitUsage(st, ToolResult(m), id);
    }
    assert UsagesOn(st.events, id) + [] == UsagesOn(st.events, id);
  }

  lemma ShownUsages(st: State, m: Message, id: Id)
    ensures var untold := m.id == "" || (m.id !in st.seen && m.id !in st.streamed);
            var usages := if m.AI? && m.text != "" && untold then Uncounted(st, m, id) else [];
            UsagesOn(OnShown(st, m).events, id) == UsagesOn(st.events, id) + usages
  {
    hide UsagesOn, OnFresh, SendRest;
    var s := if m.id == "" then st else st.(seen := st.seen + {m.id});
    FreshUsages(s, m, id);
    if m.AI? {
      SendUsages(Account(s, m.id, m.usage).0, m, None, false, id);
    }
    assert UsagesOn(st.events, id) + [] == UsagesOn(st.events, id);
  }

  // --- what the tables stand for ---

  ghost predicate TablesAre(st: State, ts: seq<Touch>, id: Id) {
    && (id in st.counted <==> exists k :: OffersAt(ts, id, k))
    && (id in st.seen <==> exists k :: ShownAt(ts, id, k))
    && (id in st.streamed <==> exists k :: StreamedAt(ts, id, k))
  }

  ghost predicate UsageSound(st: State, ts: seq<Touch>, id: Id) {
    TablesAre(st, ts, id) && CarriesFirst(ts, id, UsagesOn(st.events, id))
  }

  ghost predicate Shows(t: Touch, id: Id) {
    t.Shown? && t.msg.id == id
  }

  ghost predicate Streams(t: Touch, id: Id) {
    t.Streamed? && t.msg.id == id && Bears(t.msg)
  }

  // Whether one more touch offers usage.
  ghost predicate OffersNow(ts: seq<Touch>, t: Touch, id: Id) {
    && t.msg.id == id && t.msg.AI? && t.msg.usage.Some?
    && (t.Streamed? || forall j :: !ShownAt(ts, id, j))
  }

  lemma TouchSnoc(ts: seq<Touch>, t: Touch, id: Id)
    ensures forall k :: k != |ts| ==> (ShownAt(ts + [t], id, k) <==> ShownAt(ts, id, k))
    ensures forall k :: k != |ts| ==> (StreamedAt(ts + [t], id, k) <==> StreamedAt(ts, id, k))
    ensures forall k :: k != |ts| ==> (OffersAt(ts + [t], id, k) <==> OffersAt(ts, id, k))
    ensures ShownAt(ts + [t], id, |ts|) <==> Shows(t, id)
    ensures StreamedAt(ts + [t], id, |ts|) <==> Streams(t, id)
    ensures OffersAt(ts + [t], id, |ts|) <==> OffersNow(ts, t, id)
  {
    var more := ts + [t];
    assert forall k :: 0 <= k < |ts| ==> more[k] == ts[k];
    assert more[|ts|] == t;
    hide Bears;
  }

  lemma SomeSnoc(ts: seq<Touch>, t: Touch, id: Id)
    ensures (exists k :: ShownAt(ts + [t], id, k)) <==> (exists k :: ShownAt(ts, id, k)) || Shows(t, id)
    ensures (exists k :: StreamedAt(ts + [t], id, k)) <==> (exists k :: StreamedAt(ts, id, k)) || Streams(t, id)
    ensures (exists k :: OffersAt(ts + [t], id, k)) <==> (exists k :: OffersAt(ts, id, k)) || OffersNow(ts, t, id)
  {
    TouchSnoc(ts, t, id);
    var more, n := ts + [t], |ts|;
    hide ShownAt, StreamedAt, OffersAt, OffersNow, Shows, Streams;
    if k :| ShownAt(ts, id, k) && k != n { assert ShownAt(more, id, k); }
    if k :| StreamedAt(ts, id, k) && k != n { assert StreamedAt(more, id, k); }
    if k :| OffersAt(ts, id, k) && k != n { assert OffersAt(more, id, k); }
    NothingBeyond(ts, id);
  }

  lemma NothingBeyond(ts: seq<Touch>, id: Id)
    ensures !ShownAt(ts, id, |ts|) && !StreamedAt(ts, id, |ts|) && !OffersAt(ts, id, |ts|)
  {}

  lemma SendTables(st: State, m: Message, usage: Option<Usage>, already: bool)
    requires m.AI?
    ensures var s := SendText(st, m, usage, already).0; s.seen == st.seen && s.streamed == st.streamed && s.counted == st.counted
    ensures var s := SendCalls(st, m, already).0; s.seen == st.seen && s.streamed == st.streamed && s.counted == st.counted
    ensures var s := SendRest(st, m, already); s.seen == st.seen && s.streamed == st.streamed && s.counted == st.counted
  {}

  lemma ChunkTables(st: State, m: Message, id: Id)
    requires id != ""
    ensures var s := OnChunk(st, m);
            && s.seen == st.seen && (id in s.streamed <==> id in st.streamed || (m.id == id && Bears(m)))
            && (id in s.counted <==> id in st.counted || (m.AI? && m.id == id && m.usage.Some?))
  {
    hide SendText, SendCalls;
    if m.AI? {
      var (s0, counted) := Account(st, m.id, m.usage);
      SendTables(MarkStreamed(s0, m.id), m, counted, false);
      var (s1, sent) := if m.text != "" then SendText(MarkStreamed(s0, m.id), m, counted, false) else (s0, false);
      SendTables(MarkStreamed(s1, m.id), m, counted, sent);
    }
  }

  lemma FreshTables(st: State, m: Message, id: Id)
    requires id != ""
    ensures var s := OnFresh(st, m);
            && s.seen == st.seen && s.streamed == st.streamed
            && (id in s.counted <==> id in st.counted || (m.AI? && m.id == id && m.usage.Some?))
  {
    hide SendText, SendCalls, SendRest;
    if m.AI? {
      var (s0, counted) := Account(st, m.id, m.usage);
      SendTables(s0, m, counted, false);
      var (s1, sent) := if m.calls != [] then SendCalls(s0, m, false) else (s0, false);
      SendTables(s1, m, counted, sent);
    }
  }

  lemma ShownTables(st: State, m: Message, id: Id)
    requires id != ""
    ensures var s := OnShown(st, m);
            && (id in s.seen <==> id in st.seen || m.id == id) && s.streamed == st.streamed
            && (id in s.counted <==> id in st.counted || (m.AI? && m.id == id && m.usage.Some? && id !in st.seen))
  {
    hide OnFresh, SendRest;
    var s := if m.id == "" then st else st.(seen := st.seen + {m.id});
    FreshTables(s, m, id);
    if m.AI? {
      SendTables(Account(s, m.id, m.usage).0, m, None, false);
    }
  }

  lemma TablesStep(st: State, ts: seq<Touch>, t: Touch, id: Id)
    requires id != "" && TablesAre(st, ts, id)
    ensures TablesAre(OnTouch(st, t), ts + [t], id)
  {
    hide OnChunk, OnShown, ShownAt, StreamedAt, OffersAt, Bears;
    SomeSnoc(ts, t, id);
    match t
    case Streamed(m) => ChunkTables(st, m, id);
    case Shown(m) => ShownTables(st, m, id);
  }

  // The usage one more touch delivers.
  lemma UsageStep(st: State, ts: seq<Touch>, t: Touch, id: Id)
    requires id != "" && TablesAre(st, ts, id)
    ensures UsagesOn(OnTouch(st, t).events, id)
         == UsagesOn(st.events, id)
            + if OffersNow(ts, t, id) && SpokenNow(ts, t, id) && !(exists k :: OffersAt(ts, id, k)) then [t.msg.usage.value] else []
  {
    hide UsagesOn, OnChunk, OnShown, ShownAt, StreamedAt, OffersAt;
    match t
    case Streamed(m) => ChunkUsages(st, m, id);
    case Shown(m) => ShownUsages(st, m, id);
  }

  ghost predicate SpokenNow(ts: seq<Touch>, t: Touch, id: Id) {
    t.msg.AI? && t.msg.text != "" && (t.Streamed? || forall j :: !StreamedAt(ts, id, j))
  }

  lemma SpokenSnoc(ts: seq<Touch>, t: Touch, id: Id)
    ensures forall k :: 0 <= k < |ts| ==> (SpokenAt(ts + [t], id, k) <==> SpokenAt(ts, id, k))
    ensures SpokenAt(ts + [t], id, |ts|) <==> SpokenNow(ts, t, id)
  {
    var more := ts + [t];
    TouchSnoc(ts, t, id);
    assert more[|ts|] == t && forall k :: 0 <= k < |ts| ==> more[k] == ts[k];
    assert forall j :: StreamedAt(ts, id, j) ==> 0 <= j < |ts|;
    hide StreamedAt, ShownAt, OffersAt;
  }

  lemma CarriesStep(ts: seq<Touch>, t: Touch, id: Id, usages: seq<Usage>)
    requires CarriesFirst(ts, id, usages)
    ensures CarriesFirst(ts + [t], id,
                         usages + if OffersNow(ts, t, id) && SpokenNow(ts, t, id) && !(exists k :: OffersAt(ts, id, k))
                                  then [t.msg.usage.value] else [])
  {
    var more, n := ts + [t], |ts|;
    TouchSnoc(ts, t, id);
    SpokenSnoc(ts, t, id);
    NothingBeyond(ts, id);
    assert more[n] == t && forall k :: 0 <= k < n ==> more[k] == ts[k];
    assert forall k :: OffersAt(ts, id, k) ==> 0 <= k < n;
    hide OffersAt, SpokenAt, OffersNow, SpokenNow;
    if k :| OffersAt(ts, id, k) {
      FirstExists(ts, id, k);
    }
  }

  lemma {:induction false} FirstExists(ts: seq<Touch>, id: Id, k: int)
    requires OffersAt(ts, id, k)
    ensures exists j :: FirstOffer(ts, id, j)
    decreases k
  {
    if j :| 0 <= j < k && OffersAt(ts, id, j) {
      FirstExists(ts, id, j);
    } else {
      assert FirstOffer(ts, id, k);
    }
  }

  lemma SoundStep(st: State, ts: seq<Touch>, t: Touch, id: Id)
    requires id != "" && UsageSound(st, ts, id)
    ensures UsageSound(OnTouch(st, t), ts + [t], id)
  {
    hide OnTouch, TablesAre, CarriesFirst;
    TablesStep(st, ts, t, id);
    UsageStep(st, ts, t, id);
    CarriesStep(ts, t, id, UsagesOn(st.events, id));
  }

  lemma {:induction false} SoundSteps(st: State, ts: seq<Touch>, more: seq<Touch>, id: Id)
    requires id != "" && UsageSound(st, ts, id)
    ensures UsageSound(OnTouches(st, more), ts + more, id)
    decreases |more|
  {
    hide UsageSound, OnTouch;
    if more == [] {
      assert ts + more == ts;
    } else {
      var init, last := more[..|more|-1], more[|more|-1];
      SoundSteps(st, ts, init, id);
      SoundStep(OnTouches(st, init), ts + init, last, id);
      assert (ts + init) + [last] == ts + more;
    }
  }

  lemma SoundEmit(st: State, ts: seq<Touch>, e: Event, id: Id)
    requires UsageSound(st, ts, id) && !e.AiText?
    ensures UsageSound(Emit(st, e), ts, id)
  {
    hide CarriesFirst, OffersAt, ShownAt, StreamedAt;
    EmitUsage(st, e, id);
    assert UsagesOn(st.events, id) + [] == UsagesOn(st.events, id);
  }

  lemma SoundItem(st: State, ts: seq<Touch>, item: Item, id: Id)
    requires id != "" && UsageSound(st, ts, id)
    ensures UsageSound(OnItem(st, item), ts + TouchesOf(item), id)
  {
    hide UsageSound, OnTouch, Emit, AllShown;
    match item
    case Custom(data) =>
      SoundEmit(st, ts, CustomEvent(data), id);
      assert ts + [] == ts;
    case Chunk(m) =>
      SoundStep(st, ts, Streamed(m), id);
      assert OnTouch(st, Streamed(m)) == OnChunk(st, m) by {
        OneTouch(st, m);
      }
    case Snapshot(messages) =>
      SoundSteps(st, ts, AllShown(messages), id);
      SoundEmit(OnTouches(st, AllShown(messages)), ts + AllShown(messages), Values(messages), id);
  }

  lemma OneTouch(st: State, m: Message)
    ensures OnTouch(st, Streamed(m)) == OnChunk(st, m)
  {}

  lemma StartSound(id: Id)
    ensures UsageSound(START, [], id)
  {}

  lemma {:induction false} TurnSound(items: seq<Item>, id: Id)
    requires id != ""
    ensures UsageSound(OnItems(items), Feed(items), id)
    decreases |items|
  {
    hide UsageSound, OnItem, TouchesOf;
    if items == [] {
      StartSound(id);
    } else {
      var init := items[..|items|-1];
      TurnSound(init, id);
      SoundItem(OnItems(init), Feed(init), items[|items|-1], id);
    }
  }

  // The AI text events of an id carry exactly one usage, the first on offer, if it is
  // offered together with a text that is delivered; otherwise none.
  lemma UsageDelivered(items: seq<Item>, id: Id)
    requires id != ""
    ensures CarriesFirst(Feed(items), id, UsagesOn(EventsOf(items), id))
  {
    hide CarriesFirst;
    TurnSound(items, id);
    SoundEmit(OnItems(items), Feed(items), End(OnItems(items).usage), id);
  }

  // --- the order of events ---

  ghost predicate Concerns(e: Event, id: Id) {
    match e
    case AiText(i, _, _, _) => i == id
    case AiCalls(i, _, _) => i == id
    case ToolResult(m) => m.id == id
    case _ => false
  }

  // From before to after only events about one message id have been added.
  ghost predicate AddsAbout(before: seq<Event>, after: seq<Event>, id: Id) {
    before <= after && forall i :: |before| <= i < |after| ==> Concerns(after[i], id)
  }

  lemma AddsEmit(before: seq<Event>, st: State, e: Event, id: Id)
    requires AddsAbout(before, st.events, id) && Concerns(e, id)
    ensures AddsAbout(before, Emit(st, e).events, id)
  {}

  lemma SendAdds(before: seq<Event>, st: State, m: Message, usage: Option<Usage>, already: bool)
    requires m.AI? && AddsAbout(before, st.events, m.id)
    ensures AddsAbout(before, SendText(st, m, usage, already).0.events, m.id)
    ensures AddsAbout(before, SendCalls(st, m, already).0.events, m.id)
    ensures AddsAbout(before, SendRest(st, m, already).events, m.id)
  {
    hide AddsAbout, Emit;
    var (next, delta) := if already then (st, map[]) else Unsent(st, m.id, m.kwargs);
    assert next.events == st.events;
    AddsEmit(before, next, AiText(m.id, m.text, usage, delta), m.id);
    AddsEmit(before, next, AiCalls(m.id, m.calls, delta), m.id);
    AddsEmit(before, next, AiText(m.id, "", None, delta), m.id);
  }

  lemma AddsNothing(events: seq<Event>, id: Id)
    ensures AddsAbout(events, events, id)
  {}

  lemma ChunkAdds(st: State, m: Message)
    ensures AddsAbout(st.events, OnChunk(st, m).events, m.id)
  {
    hide AddsAbout, SendText, SendCalls;
    AddsNothing(st.events, m.id);
    if m.AI? {
      var (s0, counted) := Account(st, m.id, m.usage);
      SendAdds(st.events, MarkStreamed(s0, m.id), m, counted, false);
      var (s1, sent) := if m.text != "" then SendText(MarkStreamed(s0, m.id), m, counted, false) else (s0, false);
      SendAdds(st.events, MarkStreamed(s1, m.id), m, counted, sent);
    } else if m.Tool? {
      AddsEmit(st.events, MarkStreamed(st, m.id), ToolResult(m), m.id);
    }
  }

  lemma FreshAdds(before: seq<Event>, st: State, m: Message)
    requires AddsAbout(before, st.events, m.id)
    ensures AddsAbout(before, OnFresh(st, m).events, m.id)
  {
    hide AddsAbout, SendText, SendCalls, SendRest;
    if m.AI? {
      var (s0, counted) := Account(st, m.id, m.usage);
      SendAdds(before, s0, m, counted, false);
      var (s1, sent) := if m.calls != [] then SendCalls(s0, m, false) else (s0, false);
      SendAdds(before, s1, m, counted, sent);
    } else if m.Tool? {
      AddsEmit(before, st, ToolResult(m), m.id);
    }
  }

  // Each arrival adds, at the end, events about its own message only: the events of a
  // turn stand in the order in which their messages arrive.
  lemma ArrivalsInOrder(st: State, t: Touch)
    ensures AddsAbout(st.events, OnTouch(st, t).events, t.msg.id)
  {
    hide AddsAbout, OnChunk, OnFresh, SendRest;
    var m := t.msg;
    AddsNothing(st.events, m.id);
    match t
    case Streamed(_) => ChunkAdds(st, m);
    case Shown(_) =>
      var s := if m.id == "" then st else st.(seen := st.seen + {m.id});
      FreshAdds(st.events, s, m);
      if m.AI? {
        SendAdds(st.events, Account(s, m.id, m.usage).0, m, None, false);
      }
  }

  // --- messages without an id ---

  // All they contain, arrival by arrival.
  ghost function Unnamed(ts: seq<Touch>): seq<Payload> {
    if ts == [] then []
    else
      var last := ts[|ts|-1];
      Unnamed(ts[..|ts|-1]) + if last.msg.id != "" then [] else if last.Streamed? then ChunkPayload(last.msg) else ShownPayload(last.msg)
  }

  // The usages that come with their texts.
  ghost function UnnamedUsages(ts: seq<Touch>): seq<Usage> {
    if ts == [] then []
    else
      var m := ts[|ts|-1].msg;
      UnnamedUsages(ts[..|ts|-1]) + if m.id == "" && m.AI? && m.text != "" && m.usage.Some? then [m.usage.value] else []
  }

  ghost predicate PassesUnnamed(st: State, ts: seq<Touch>) {
    Trace(st.events, "") == Unnamed(ts) && UsagesOn(st.events, "") == UnnamedUsages(ts)
  }

  lemma SendTrace(st: State, m: Message, usage: Option<Usage>, already: bool)
    requires m.AI?
    ensures Trace(SendText(st, m, usage, already).0.events, "") == Trace(st.events, "") + For(m, "", TextPayload(m.text))
    ensures Trace(SendCalls(st, m, already).0.events, "") == Trace(st.events, "") + For(m, "", CallsPayload(m.calls))
    ensures Trace(SendRest(st, m, already).events, "") == Trace(st.events, "")
  {
    TextGains(st, m, usage, already, "");
    CallsGain(st, m, already, "");
    RestGains(st, m, already, "");
    assert Trace(st.events, "") + [] == Trace(st.events, "");
  }

  lemma ChunkUnnamed(st: State, m: Message)
    ensures Trace(OnChunk(st, m).events, "") == Trace(st.events, "") + For(m, "", ChunkPayload(m))
  {
    hide Trace, SendText, SendCalls;
    assert Trace(st.events, "") + [] == Trace(st.events, "");
    if m.AI? {
      var (s0, counted) := Account(st, m.id, m.usage);
      SendTrace(MarkStreamed(s0, m.id), m, counted, false);
      var (s1, sent) := if m.text != "" then SendText(MarkStreamed(s0, m.id), m, counted, false) else (s0, false);
      SendTrace(MarkStreamed(s1, m.id), m, counted, sent);
      assert s1.events == s0.events || m.text != "";
    } else if m.Tool? {
      TraceEmit(MarkStreamed(st, m.id), ToolResult(m), "");
    }
  }

  lemma FreshUnnamed(st: State, m: Message)
    ensures Trace(OnFresh(st, m).events, "") == Trace(st.events, "") + For(m, "", ShownPayload(m))
  {
    hide Trace, SendText, SendCalls, SendRest;
    assert Trace(st.events, "") + [] == Trace(st.events, "");
    if m.AI? {
      var (s0, counted) := Account(st, m.id, m.usage);
      SendTrace(s0, m, counted, false);
      var (s1, sent) := if m.calls != [] then SendCalls(s0, m, false) else (s0, false);
      SendTrace(s1, m, counted, sent);
    } else if m.Tool? {
      TraceEmit(st, ToolResult(m), "");
    }
  }

  lemma UnnamedStep(st: State, ts: seq<Touch>, t: Touch)
    requires PassesUnnamed(st, ts)
    ensures PassesUnnamed(OnTouch(st, t), ts + [t])
  {
    hide Trace, UsagesOn, OnChunk, OnFresh, SendRest;
    assert (ts + [t])[..|ts|] == ts;
    var m := t.msg;
    assert Trace(st.events, "") + [] == Trace(st.events, "");
    assert UsagesOn(st.events, "") + [] == UsagesOn(st.events, "");
    match t
    case Streamed(_) =>
      ChunkUnnamed(st, m);
      ChunkUsages(st, m, "");
    case Shown(_) =>
      ShownUsages(st, m, "");
      var s := if m.id == "" then st else st.(seen := st.seen + {m.id});
      FreshUnnamed(s, m);
      if m.AI? {
        SendTrace(Account(s, m.id, m.usage).0, m, None, false);
      }
  }

  lemma {:induction false} UnnamedSteps(st: State, ts: seq<Touch>, more: seq<Touch>)
    requires PassesUnnamed(st, ts)
    ensures PassesUnnamed(OnTouches(st, more), ts + more)
    decreases |more|
  {
    hide PassesUnnamed, OnTouch;
    if more == [] {
      assert ts + more == ts;
    } else {
      var init, last := more[..|more|-1], more[|more|-1];
      UnnamedSteps(st, ts, init);
      UnnamedStep(OnTouches(st, init), ts + init, last);
      assert (ts + init) + [last] == ts + more;
    }
  }

  lemma UnnamedEmit(st: State, ts: seq<Touch>, e: Event)
    requires PassesUnnamed(st, ts) && (e.CustomEvent? || e.Values? || e.End?)
    ensures PassesUnnamed(Emit(st, e), ts)
  {
    hide Trace, UsagesOn;
    TraceEmit(st, e, "");
    EmitUsage(st, e, "");
    assert Trace(st.events, "") + [] == Trace(st.events, "");
    assert UsagesOn(st.events, "") + [] == UsagesOn(st.events, "");
  }

  lemma UnnamedItem(st: State, ts: seq<Touch>, item: Item)
    requires PassesUnnamed(st, ts)
    ensures PassesUnnamed(OnItem(st, item), ts + TouchesOf(item))
  {
    hide PassesUnnamed, OnTouch, Emit, AllShown;
    match item
    case Custom(data) =>
      UnnamedEmit(st, ts, CustomEvent(data));
      assert ts + [] == ts;
    case Chunk(m) =>
      UnnamedStep(st, ts, Streamed(m));
      OneTouch(st, m);
    case Snapshot(messages) =>
      UnnamedSteps(st, ts, AllShown(messages));
      UnnamedEmit(OnTouches(st, AllShown(messages)), ts + AllShown(messages), Values(messages));
  }

  lemma UnnamedStart()
    ensures PassesUnnamed(START, [])
  {}

  lemma {:induction false} TurnUnnamed(items: seq<Item>)
    ensures PassesUnnamed(OnItems(items), Feed(items))
    decreases |items|
  {
    hide PassesUnnamed, OnItem, TouchesOf;
    if items == [] {
      UnnamedStart();
    } else {
      TurnUnnamed(items[..|items|-1]);
      UnnamedItem(OnItems(items[..|items|-1]), Feed(items[..|items|-1]), items[|items|-1]);
    }
  }

  // Messages without an id cannot be matched: every arrival is delivered in full.
  lemma UnnamedDelivered(items: seq<Item>)
    ensures Trace(EventsOf(items), "") == Unnamed(Feed(items))
    ensures UsagesOn(EventsOf(items), "") == UnnamedUsages(Feed(items))
  {
    TurnUnnamed(items);
    UnnamedEmit(OnItems(items), Feed(items), End(OnItems(items).usage));
  }

  // --- totals, component by component ---

  ghost function Sum(xs: seq<int>): int {
    if xs == [] then 0 else xs[0] + Sum(xs[1..])
  }

  lemma {:induction false} SumSnoc(xs: seq<int>, x: int)
    ensures Sum(xs + [x]) == Sum(xs) + x
    decreases |xs|
  {
    if xs == [] {
      assert [x][1..] == [];
    } else {
      assert (xs + [x])[1..] == xs[1..] + [x];
      SumSnoc(xs[1..], x);
    }
  }

  function InputOf(u: Usage): int { u.input }
  function OutputOf(u: Usage): int { u.output }
  function TotalOf(u: Usage): int { u.total }

  ghost function Column(ledger: seq<(Id, Usage)>, part: Usage -> int): seq<int> {
    seq(|ledger|, i requires 0 <= i < |ledger| => part(ledger[i].1))
  }

  lemma {:induction false} TotalsAreSums(ledger: seq<(Id, Usage)>)
    ensures Total(ledger).input == Sum(Column(ledger, InputOf))
    ensures Total(ledger).output == Sum(Column(ledger, OutputOf))
    ensures Total(ledger).total == Sum(Column(ledger, TotalOf))
    decreases |ledger|
  {
    if ledger != [] {
      var init, last := ledger[..|ledger|-1], ledger[|ledger|-1];
      TotalsAreSums(init);
      ColumnSnoc(init, last, InputOf);
      ColumnSnoc(init, last, OutputOf);
      ColumnSnoc(init, last, TotalOf);
      assert init + [last] == ledger;
    }
  }

  lemma ColumnSnoc(ledger: seq<(Id, Usage)>, e: (Id, Usage), part: Usage -> int)
    ensures Sum(Column(ledger + [e], part)) == Sum(Column(ledger, part)) + part(e.1)
  {
    assert Column(ledger + [e], part) == Column(ledger, part) + [part(e.1)];
    SumSnoc(Column(ledger, part), part(e.1));
  }

  // The end event carries, for each component, the sum over all that was counted: of
  // every id the first usage on offer, and all that came without an id.
  lemma TotalsDelivered(items: seq<Item>)
    ensures var ledger, events := Ledger(Feed(items)), EventsOf(items);
            var end := events[|events|-1];
            && end.End? && end.totals.input == Sum(Column(ledger, InputOf))
            && end.totals.output == Sum(Column(ledger, OutputOf))
            && end.totals.total == Sum(Column(ledger, TotalOf))
  {
    UsageReconciled(items);
    hide Ledger, EventsOf, Total;
    TotalsAreSums(Ledger(Feed(items)));
  }

  // --- keyword values, said of the maps themselves ---

  // A value other than None.
  ghost predicate Has(m: Kwargs, key: string, value: string) {
    key in m && m[key] == Some(value)
  }

  // Of every key the reader ends up with the last value on offer, if any.
  lemma ValuesDelivered(items: seq<Item>, id: Id, key: string, value: string)
    requires id != ""
    ensures Has(Merge(Attached(EventsOf(items), id)), key, value) <==> Has(Merge(Offered(Feed(items), id)), key, value)
  {
    KwargsReconciled(items, id);
    hide Merge, Attached, EventsOf, Offered, Feed;
    var a, b := Merge(Attached(EventsOf(items), id)), Merge(Offered(Feed(items), id));
    assert Get(a, key) == Get(b, key);
  }

  // --- keyword values of messages without an id ---

  // The map of every arrival without an id that has a text or calls: it goes out whole,
  // with the first event about the arrival.
  ghost function UnnamedKwargs(ts: seq<Touch>): seq<Kwargs> {
    if ts == [] then []
    else UnnamedKwargs(ts[..|ts|-1]) + WholeMap(ts[|ts|-1].msg)
  }

  ghost function WholeMap(m: Message): seq<Kwargs> {
    if m.id == "" && m.AI? && (m.text != "" || m.calls != []) && m.kwargs != map[] then [m.kwargs] else []
  }

  ghost predicate AttachesUnnamed(st: State, ts: seq<Touch>) {
    Attached(st.events, "") == UnnamedKwargs(ts)
  }

  // The map that goes out with a part of a message, as far as messages without an id go.
  ghost function Part(m: Message, already: bool): seq<Kwargs>
    requires m.AI?
  {
    if m.id == "" && !already && m.kwargs != map[] then [m.kwargs] else []
  }

  lemma SendAttaches(st: State, m: Message, usage: Option<Usage>, already: bool)
    requires m.AI?
    ensures Attached(SendText(st, m, usage, already).0.events, "") == Attached(st.events, "") + Part(m, already)
    ensures Attached(SendCalls(st, m, already).0.events, "") == Attached(st.events, "") + Part(m, already)
    ensures m.id != "" ==> Attached(SendRest(st, m, already).events, "") == Attached(st.events, "")
    ensures m.id == "" ==> SendText(st, m, usage, already).1 == (!already && m.kwargs != map[])
    ensures m.id == "" ==> SendCalls(st, m, already).1 == (!already && m.kwargs != map[])
  {
    hide Attached, Emit;
    var (next, delta) := if already then (st, map[]) else Unsent(st, m.id, m.kwargs);
    assert next.events == st.events;
    AttachedEmit(next, AiText(m.id, m.text, usage, delta), "");
    AttachedEmit(next, AiCalls(m.id, m.calls, delta), "");
    AttachedEmit(next, AiText(m.id, "", None, delta), "");
    assert Attached(st.events, "") + [] == Attached(st.events, "");
  }

  lemma ChunkAttaches(st: State, m: Message)
    ensures Attached(OnChunk(st, m).events, "") == Attached(st.events, "") + WholeMap(m)
  {
    hide Attached, SendText, SendCalls;
    assert Attached(st.events, "") + [] == Attached(st.events, "");
    if m.AI? {
      var (s0, counted) := Account(st, m.id, m.usage);
      SendAttaches(MarkStreamed(s0, m.id), m, counted, false);
      var (s1, sent) := if m.text != "" then SendText(MarkStreamed(s0, m.id), m, counted, false) else (s0, false);
      SendAttaches(MarkStreamed(s1, m.id), m, counted, sent);
      assert Attached(s1.events, "") + [] == Attached(s1.events, "");
    } else if m.Tool? {
      AttachedEmit(MarkStreamed(st, m.id), ToolResult(m), "");
    }
  }

  lemma FreshAttaches(st: State, m: Message)
    ensures Attached(OnFresh(st, m).events, "") == Attached(st.events, "") + WholeMap(m)
  {
    hide Attached, SendText, SendCalls, SendRest;
    assert Attached(st.events, "") + [] == Attached(st.events, "");
    if m.AI? {
      var (s0, counted) := Account(st, m.id, m.usage);
      SendAttaches(s0, m, counted, false);
      var (s1, sent) := if m.calls != [] then SendCalls(s0, m, false) else (s0, false);
      SendAttaches(s1, m, counted, sent);
      assert Attached(s1.events, "") + [] == Attached(s1.events, "");
    } else if m.Tool? {
      AttachedEmit(st, ToolResult(m), "");
    }
  }

  lemma AttachStep(st: State, ts: seq<Touch>, t: Touch)
    requires AttachesUnnamed(st, ts)
    ensures AttachesUnnamed(OnTouch(st, t), ts + [t])
  {
    hide Attached, OnChunk, OnFresh, SendRest;
    assert (ts + [t])[..|ts|] == ts;
    var m := t.msg;
    assert Attached(st.events, "") + [] == Attached(st.events, "");
    match t
    case Streamed(_) => ChunkAttaches(st, m);
    case Shown(_) =>
      var s := if m.id == "" then st else st.(seen := st.seen + {m.id});
      FreshAttaches(s, m);
      if m.AI? {
        SendAttaches(Account(s, m.id, m.usage).0, m, None, false);
      }
  }

  lemma {:induction false} AttachSteps(st: State, ts: seq<Touch>, more: seq<Touch>)
    requires AttachesUnnamed(st, ts)
    ensures AttachesUnnamed(OnTouches(st, more), ts + more)
    decreases |more|
  {
    hide AttachesUnnamed, OnTouch;
    if more == [] {
      assert ts + more == ts;
    } else {
      var init, last := more[..|more|-1], more[|more|-1];
      AttachSteps(st, ts, init);
      AttachStep(OnTouches(st, init), ts + init, last);
      assert (ts + init) + [last] == ts + more;
    }
  }

  lemma AttachEmit(st: State, ts: seq<Touch>, e: Event)
    requires AttachesUnnamed(st, ts) && (e.CustomEvent? || e.Values? || e.End?)
    ensures AttachesUnnamed(Emit(st, e), ts)
  {
    hide Attached;
    AttachedEmit(st, e, "");
    assert Attached(st.events, "") + [] == Attached(st.events, "");
  }

  lemma AttachItem(st: State, ts: seq<Touch>, item: Item)
    requires AttachesUnnamed(st, ts)
    ensures AttachesUnnamed(OnItem(st, item), ts + TouchesOf(item))
  {
    hide AttachesUnnamed, OnTouch, Emit, AllShown;
    match item
    case Custom(data) =>
      AttachEmit(st, ts, CustomEvent(data));
      assert ts + [] == ts;
    case Chunk(m) =>
      AttachStep(st, ts, Streamed(m));
      OneTouch(st, m);
    case Snapshot(messages) =>
      AttachSteps(st, ts, AllShown(messages));
      AttachEmit(OnTouches(st, AllShown(messages)), ts + AllShown(messages), Values(messages));
  }

  lemma AttachStart()
    ensures AttachesUnnamed(START, [])
  {}

  lemma {:induction false} TurnAttaches(items: seq<Item>)
    ensures AttachesUnnamed(OnItems(items), Feed(items))
    decreases |items|
  {
    hide AttachesUnnamed, OnItem, TouchesOf;
    if items == [] {
      AttachStart();
    } else {
      TurnAttaches(items[..|items|-1]);
      AttachItem(OnItems(items[..|items|-1]), Feed(items[..|items|-1]), items[|items|-1]);
    }
  }

  lemma UnnamedKwargsDelivered(items: seq<Item>)
    ensures Attached(EventsOf(items), "") == UnnamedKwargs(Feed(items))
  {
    TurnAttaches(items);
    AttachEmit(OnItems(items), Feed(items), End(OnItems(items).usage));
  }
}
