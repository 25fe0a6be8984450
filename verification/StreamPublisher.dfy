// Answering a chat message while the run is still streaming: throttled updates,
// then one final message, whatever happens.
module StreamPublisher {
  import opened Wrappers
  import opened StreamText

  const MIN_INTERVAL := 0.35
  const THREAD_BUSY :=
    "This conversation is already processing another request. Please wait for it to finish and try again."
  const RUN_FAILED := "An error occurred while processing your request. Please try again."
  const NO_RESPONSE := "(No response from agent)"

  // A message of the run's state.
  datatype Message =
    | Human(hidden: bool)
    | AI(text: string, files: seq<string>)
    | Tool(clarification: bool, content: string)
    | OtherMessage

  datatype StreamEvent =
    | MessageEvent(data: EventData)
    | ValuesEvent(messages: seq<Message>)
    | OtherEvent

  datatype Failure = ThreadBusy | RunError

  datatype Outbound = Outbound(text: string, isFinal: bool)

  // The last usable text of the current turn.
  function ResponseText(messages: seq<Message>): string {
    if messages == [] then ""
    else
      var last := messages[|messages|-1];
      if last.Human? && !last.hidden then ""
      else if last.Tool? && last.clarification && last.content != "" then last.content
      else if last.AI? && last.text != "" then last.text
      else ResponseText(messages[..|messages|-1])
  }

  // The files presented in the current turn, latest message first.
  function Artifacts(messages: seq<Message>): seq<string> {
    if messages == [] then []
    else
      var last := messages[|messages|-1];
      if last.Human? && !last.hidden then []
      else (if last.AI? then last.files else []) + Artifacts(messages[..|messages|-1])
  }

  function BaseName(path: string): string {
    if path == "" then "" else if path[|path|-1] == '/' then "" else BaseName(path[..|path|-1]) + [path[|path|-1]]
  }

  function JoinNames(paths: seq<string>): string {
    if paths == [] then ""
    else if |paths| == 1 then BaseName(paths[0])
    else BaseName(paths[0]) + "\U{3001}" + JoinNames(paths[1..])
  }

  function ArtifactText(paths: seq<string>): (t: string)
    ensures t != ""
  {
    if |paths| == 1 then "Created File: \U{1F4CE} " + BaseName(paths[0])
    else "Created Files: \U{1F4CE} " + JoinNames(paths)
  }

  function Filter(paths: seq<string>, keep: set<string>): seq<string> {
    if paths == [] then [] else (if paths[0] in keep then [paths[0]] else []) + Filter(paths[1..], keep)
  }

  function Reject(paths: seq<string>, drop: set<string>): seq<string> {
    if paths == [] then [] else (if paths[0] in drop then [] else [paths[0]]) + Reject(paths[1..], drop)
  }

  function Append(text: string, more: string): string {
    if text != "" then text + "\n\n" + more else more
  }

  // The text with the names of unresolved and resolved files added to it.
  function WithArtifacts(text: string, artifacts: seq<string>, resolvable: set<string>): string {
    var resolved, unresolved := Filter(artifacts, resolvable), Reject(artifacts, resolvable);
    var t := if unresolved != [] then Append(text, ArtifactText(unresolved)) else text;
    if resolved != [] then Append(t, ArtifactText(resolved)) else t
  }

  // --- what a run amounts to ---

  // Buffers, the text to display, and the last full state, after some events.
  datatype RunState = RunState(progress: Progress, latest: string, lastValues: Option<seq<Message>>)

  const START := RunState(Progress(map[], ""), "", None)

  function OnEvent(st: RunState, e: StreamEvent): RunState {
    match e
    case MessageEvent(data) =>
      var next := Feed(st.progress, data);
      var text := if TextIn(data).Some? then BufferOf(next.texts, next.current) else "";
      st.(progress := next, latest := if text != "" then text else st.latest)
    case ValuesEvent(messages) =>
      var text := ResponseText(messages);
      st.(latest := if text != "" then text else st.latest, lastValues := Some(messages))
    case OtherEvent => st
  }

  ghost function StateAfter(events: seq<StreamEvent>): RunState {
    if events == [] then START else OnEvent(StateAfter(events[..|events|-1]), events[|events|-1])
  }

  // The updates published, and the clock sample of each.
  datatype Updates = Updates(texts: seq<string>, samples: seq<real>)

  ghost predicate Publishes(u: Updates, latest: string, now: real)
    requires |u.texts| == |u.samples|
  {
    && latest != ""
    && (u.texts == [] || (latest != u.texts[|u.texts|-1] && now - u.samples[|u.samples|-1] >= MIN_INTERVAL))
  }

  // An update after every event that leaves a new text to show, unless the last
  // one was too recent.
  ghost function UpdatesOf(events: seq<StreamEvent>, clock: seq<real>): (u: Updates)
    requires |clock| == |events|
    ensures |u.texts| == |u.samples|
  {
    if events == [] then Updates([], [])
    else
      var n := |events| - 1;
      var u := UpdatesOf(events[..n], clock[..n]);
      var latest := StateAfter(events).latest;
      if Publishes(u, latest, clock[n]) then Updates(u.texts + [latest], u.samples + [clock[n]]) else u
  }

  // The text of the final message.
  function FinalText(st: RunState, resolvable: set<string>, error: Option<Failure>): (t: string)
    ensures t != ""
  {
    var messages := if st.lastValues.Some? then st.lastValues.value else [AI(st.latest, [])];
    var text := WithArtifacts(ResponseText(messages), Artifacts(messages), resolvable);
    if text != "" then text
    else if error.Some? then (if error.value.ThreadBusy? then THREAD_BUSY else RUN_FAILED)
    else if st.latest != "" then st.latest else NO_RESPONSE
  }

  function AsUpdates(texts: seq<string>): (out: seq<Outbound>)
    ensures |out| == |texts| && forall i :: 0 <= i < |texts| ==> out[i] == Outbound(texts[i], false)
  {
    seq(|texts|, i requires 0 <= i < |texts| => Outbound(texts[i], false))
  }

  // One run: events as they arrive, each with the clock sample that would be taken
  // for it, and possibly an exception after the last one. The updates are
  // followed by exactly one final message.
  method HandleStreamingChat(events: seq<StreamEvent>, clock: seq<real>, error: Option<Failure>, resolvable: set<string>)
    returns (published: seq<Outbound>)
    requires |clock| == |events|
    ensures published == AsUpdates(UpdatesOf(events, clock).texts)
                         + [Outbound(FinalText(StateAfter(events), resolvable, error), true)]
  {
    var lastValues: Option<seq<Message>> := None;
    var buffers := new Buffers();
    var current := "";
    var latest := "";
    var lastPublishedText := "";
    var lastPublishAt := 0.0;
    published := [];
    for k := 0 to |events|
      invariant RunState(Progress(buffers.texts, current), latest, lastValues) == StateAfter(events[..k])
      invariant published == AsUpdates(UpdatesOf(events[..k], clock[..k]).texts)
      invariant LastUpdate(UpdatesOf(events[..k], clock[..k]), lastPublishedText, lastPublishAt)
    {
      assert events[..k+1][..k] == events[..k] && clock[..k+1][..k] == clock[..k];
      ghost var before := UpdatesOf(events[..k], clock[..k]);
      match events[k] {
        case MessageEvent(data) =>
          var text;
          text, current := buffers.Accumulate(current, data);
          if text.Some? && text.value != "" {
            latest := text.value;
          }
        case ValuesEvent(messages) =>
          lastValues := Some(messages);
          var snapshot := ResponseText(messages);
          if snapshot != "" {
            latest := snapshot;
          }
        case OtherEvent =>
      }
      assert RunState(Progress(buffers.texts, current), latest, lastValues) == StateAfter(events[..k+1]);
      hide StateAfter, AsUpdates;
      PublishesWhen(before, latest, clock[k], lastPublishedText, lastPublishAt);
      if latest == "" || latest == lastPublishedText {
        continue;
      }
      var now := clock[k];
      if lastPublishedText != "" && now - lastPublishAt < MIN_INTERVAL {
        continue;
      }
      AsUpdatesSnoc(before.texts, latest);
      published := published + [Outbound(latest, false)];
      lastPublishedText := latest;
      lastPublishAt := now;
    }
    assert events[..|events|] == events && clock[..|clock|] == clock;
    var final := FinalText(RunState(Progress(buffers.texts, current), latest, lastValues), resolvable, error);
    published := published + [Outbound(final, true)];
  }

  // The handler's two local variables, in terms of the updates so far.
  ghost predicate LastUpdate(u: Updates, text: string, at: real)
    requires |u.texts| == |u.samples|
  {
    if u.texts == [] then text == ""
    else text != "" && text == u.texts[|u.texts|-1] && at == u.samples[|u.samples|-1]
  }

  lemma PublishesWhen(u: Updates, latest: string, now: real, text: string, at: real)
    requires |u.texts| == |u.samples| && LastUpdate(u, text, at)
    ensures Publishes(u, latest, now)
            <==> !(latest == "" || latest == text) && !(text != "" && now - at < MIN_INTERVAL)
    ensures latest != "" ==> LastUpdate(Updates(u.texts + [latest], u.samples + [now]), latest, now)
  {}

  lemma AsUpdatesSnoc(texts: seq<string>, more: string)
    ensures AsUpdates(texts + [more]) == AsUpdates(texts) + [Outbound(more, false)]
  {}

  // --- what every run shows ---

  // Updates carry text, never the same twice in a row, at a bounded rate.
  ghost predicate Paced(u: Updates) {
    && |u.texts| == |u.samples|
    && (forall i :: 0 <= i < |u.texts| ==> u.texts[i] != "")
    && (forall i :: 0 < i < |u.texts| ==> u.texts[i] != u.texts[i-1] && u.samples[i] - u.samples[i-1] >= 0.35)
  }

  lemma PacedSnoc(u: Updates, latest: string, now: real)
    requires Paced(u) && Publishes(u, latest, now)
    ensures Paced(Updates(u.texts + [latest], u.samples + [now]))
  {
    var v := Updates(u.texts + [latest], u.samples + [now]);
    forall i | 0 < i < |v.texts|
      ensures v.texts[i] != v.texts[i-1] && v.samples[i] - v.samples[i-1] >= 0.35
    {
      if i < |u.texts| {
        assert u.texts[i] != u.texts[i-1] && u.samples[i] - u.samples[i-1] >= 0.35;
      }
    }
  }

  lemma {:induction false} UpdatesArePaced(events: seq<StreamEvent>, clock: seq<real>)
    requires |clock| == |events|
    ensures Paced(UpdatesOf(events, clock))
    decreases |events|
  {
    if events != [] {
      var n := |events| - 1;
      UpdatesArePaced(events[..n], clock[..n]);
      var before, latest := UpdatesOf(events[..n], clock[..n]), StateAfter(events).latest;
      if Publishes(before, latest, clock[n]) {
        PacedSnoc(before, latest, clock[n]);
      }
    }
  }

  // The text was the one to show after event k, and the sample is that event's.
  ghost predicate ShownAt(events: seq<StreamEvent>, clock: seq<real>, text: string, sample: real, k: int)
    requires |clock| == |events|
  {
    0 <= k < |events| && text == StateAfter(events[..k+1]).latest && sample == clock[k]
  }

  ghost predicate Timely(events: seq<StreamEvent>, clock: seq<real>, text: string, sample: real)
    requires |clock| == |events|
  {
    exists k :: ShownAt(events, clock, text, sample, k)
  }

  lemma TimelyLater(events: seq<StreamEvent>, clock: seq<real>, n: nat, text: string, sample: real)
    requires |clock| == |events| && n <= |events| && Timely(events[..n], clock[..n], text, sample)
    ensures Timely(events, clock, text, sample)
  {
    hide StateAfter;
    var k :| ShownAt(events[..n], clock[..n], text, sample, k);
    assert events[..n][..k+1] == events[..k+1];
    assert ShownAt(events, clock, text, sample, k);
  }

  lemma NowTimely(events: seq<StreamEvent>, clock: seq<real>, n: nat)
    requires |clock| == |events| == n + 1
    ensures Timely(events, clock, StateAfter(events).latest, clock[n])
  {
    hide StateAfter;
    assert events[..n+1] == events;
    assert ShownAt(events, clock, StateAfter(events).latest, clock[n], n);
  }

  ghost predicate AllTimely(events: seq<StreamEvent>, clock: seq<real>, u: Updates)
    requires |clock| == |events|
  {
    |u.texts| == |u.samples| && forall i :: 0 <= i < |u.texts| ==> Timely(events, clock, u.texts[i], u.samples[i])
  }

  lemma AllTimelyNext(events: seq<StreamEvent>, clock: seq<real>, n: nat, u: Updates)
    requires |clock| == |events| == n + 1 && AllTimely(events[..n], clock[..n], u)
    ensures AllTimely(events, clock, u)
    ensures AllTimely(events, clock, Updates(u.texts + [StateAfter(events).latest], u.samples + [clock[n]]))
  {
    hide StateAfter, Timely;
    NowTimely(events, clock, n);
    forall i | 0 <= i < |u.texts| ensures Timely(events, clock, u.texts[i], u.samples[i]) {
      TimelyLater(events, clock, n, u.texts[i], u.samples[i]);
    }
  }

  lemma UpdatesSnoc(events: seq<StreamEvent>, clock: seq<real>, n: nat)
    requires |clock| == |events| == n + 1
    ensures var u, latest := UpdatesOf(events[..n], clock[..n]), StateAfter(events).latest;
            UpdatesOf(events, clock)
            == if Publishes(u, latest, clock[n]) then Updates(u.texts + [latest], u.samples + [clock[n]]) else u
  {
    hide StateAfter, Publishes;
  }

  // Updates show what was current at their time.
  lemma {:induction false} UpdatesAreTimely(events: seq<StreamEvent>, clock: seq<real>)
    requires |clock| == |events|
    ensures AllTimely(events, clock, UpdatesOf(events, clock))
    decreases |events|
  {
    if events != [] {
      var n := |events| - 1;
      hide AllTimely, UpdatesOf, StateAfter, Publishes;
      UpdatesAreTimely(events[..n], clock[..n]);
      AllTimelyNext(events, clock, n, UpdatesOf(events[..n], clock[..n]));
      UpdatesSnoc(events, clock, n);
    }
  }

  // After every event what is current has been published, unless the last update is
  // too recent.
  lemma NothingDueIsMissed(events: seq<StreamEvent>, clock: seq<real>)
    requires |clock| == |events|
    ensures var u, latest := UpdatesOf(events, clock), StateAfter(events).latest;
            latest != "" ==>
              && u.texts != []
              && (latest == u.texts[|u.texts|-1] || clock[|clock|-1] - u.samples[|u.samples|-1] < 0.35)
  {
    if events != [] {
      UpdatesSnoc(events, clock, |events| - 1);
      hide UpdatesOf, StateAfter;
    }
  }

  // The text a message offers to answer with.
  function AnswerIn(m: Message): string {
    if m.AI? then m.text else if m.Tool? && m.clarification then m.content else ""
  }

  predicate StartsTurn(m: Message) {
    m.Human? && !m.hidden
  }

  ghost predicate LastAnswer(messages: seq<Message>, i: int) {
    && 0 <= i < |messages| && AnswerIn(messages[i]) != ""
    && forall j :: i < j < |messages| ==> AnswerIn(messages[j]) == "" && !StartsTurn(messages[j])
  }

  lemma LastAnswerSnoc(init: seq<Message>, m: Message, i: int)
    ensures LastAnswer(init + [m], i)
       <==> if i == |init| then AnswerIn(m) != "" else LastAnswer(init, i) && AnswerIn(m) == "" && !StartsTurn(m)
  {
    hide AnswerIn, StartsTurn;
    var all := init + [m];
    assert all[|init|] == m;
    assert forall j :: 0 <= j < |init| ==> all[j] == init[j];
  }

  lemma ResponseTextSnoc(init: seq<Message>, m: Message)
    ensures ResponseText(init + [m])
         == if StartsTurn(m) then "" else if AnswerIn(m) != "" then AnswerIn(m) else ResponseText(init)
  {
    assert (init + [m])[..|init|] == init;
  }

  // The response is the text of the last message that offers one, unless the user
  // has spoken since; then there is none.
  lemma {:induction false} ResponseTextExactly(messages: seq<Message>)
    ensures forall i :: LastAnswer(messages, i) ==> ResponseText(messages) == AnswerIn(messages[i])
    ensures ResponseText(messages) != "" ==> exists i :: LastAnswer(messages, i)
    decreases |messages|
  {
    if messages != [] {
      var init, m := messages[..|messages|-1], messages[|messages|-1];
      assert messages == init + [m];
      ResponseTextExactly(init);
      ResponseTextSnoc(init, m);
      assert StartsTurn(m) ==> AnswerIn(m) == "";
      hide LastAnswer, ResponseText, AnswerIn, StartsTurn;
      forall i ensures LastAnswer(messages, i)
                  <==> if i == |init| then AnswerIn(m) != "" else LastAnswer(init, i) && AnswerIn(m) == "" && !StartsTurn(m) {
        LastAnswerSnoc(init, m, i);
      }
      forall i | LastAnswer(messages, i) ensures i < |messages| && ResponseText(messages) == AnswerIn(messages[i]) {
        AnswerIndex(messages, i);
        if i < |init| {
          AnswerIndex(init, i);
        }
      }
      if ResponseText(messages) != "" {
        if AnswerIn(m) != "" {
          assert LastAnswer(messages, |init|);
        } else {
          var i :| LastAnswer(init, i);
          AnswerIndex(init, i);
          assert LastAnswer(messages, i);
        }
      }
    }
  }

  lemma AnswerIndex(messages: seq<Message>, i: int)
    requires LastAnswer(messages, i)
    ensures 0 <= i < |messages|
  {}

  // --- the text to display ---

  // The payloads of the message events, in order.
  ghost function DatasOf(events: seq<StreamEvent>): seq<EventData> {
    if events == [] then []
    else
      var last := events[|events|-1];
      DatasOf(events[..|events|-1]) + if last.MessageEvent? then [last.data] else []
  }

  lemma {:induction false} ProgressIsFed(events: seq<StreamEvent>)
    ensures StateAfter(events).progress == FeedAll(DatasOf(events))
    decreases |events|
  {
    if events != [] {
      var init, last := events[..|events|-1], events[|events|-1];
      ProgressIsFed(init);
      if last.MessageEvent? {
        var datas := DatasOf(init);
        assert (datas + [last.data])[..|datas|] == datas;
      } else {
        assert DatasOf(init) + [] == DatasOf(init);
      }
      hide Feed, ResponseText;
    }
  }

  // The last event brings a text to display: the response in a full state, or all that
  // is known of the message it belongs to.
  ghost predicate Brings(events: seq<StreamEvent>, text: string) {
    && events != [] && text != ""
    && var last := events[|events|-1];
       || (last.ValuesEvent? && text == ResponseText(last.messages))
       || (last.MessageEvent? && Speaks(last.data)
           && exists id :: UnderWay(DatasOf(events), id) && text == Fold("", TextsOf(DatasOf(events), id)))
  }

  lemma BringsWhen(events: seq<StreamEvent>, text: string)
    requires events != []
    ensures Brings(events, text) ==> StateAfter(events).latest == text
    ensures (forall t :: !Brings(events, t)) ==> StateAfter(events).latest == StateAfter(events[..|events|-1]).latest
  {
    var last := events[|events|-1];
    if last.MessageEvent? {
      hide StateAfter;
      MessageShows(events);
      BringsSpoken(events, text);
      if Speaks(last.data) {
        BringsSpoken(events, BufferShown(events));
      }
      hide Brings, Speaks, BufferShown;
    } else if last.ValuesEvent? && ResponseText(last.messages) != "" {
      assert Brings(events, ResponseText(last.messages));
    }
  }

  // The buffer of the message under way after some events.
  ghost function BufferShown(events: seq<StreamEvent>): string {
    var p := FeedAll(DatasOf(events));
    BufferOf(p.texts, CurrentOr(p))
  }

  // A text that is spoken brings the whole buffer.
  lemma BringsSpoken(events: seq<StreamEvent>, text: string)
    requires events != [] && events[|events|-1].MessageEvent?
    ensures Brings(events, text) <==> text != "" && Speaks(events[|events|-1].data) && text == BufferShown(events)
  {
    var datas, id := DatasOf(events), CurrentOr(FeedAll(DatasOf(events)));
    hide Speaks, Fold, TextsOf, FeedAll, DatasOf, UnderWay;
    BuffersAreIndependent(datas, id);
    UnderWayExactly(datas, id);
    forall other ensures UnderWay(datas, other) <==> other == id {
      UnderWayExactly(datas, other);
    }
  }

  lemma MessageShows(events: seq<StreamEvent>)
    requires events != [] && events[|events|-1].MessageEvent?
    ensures var init, last := events[..|events|-1], events[|events|-1];
            StateAfter(events).latest
            == if Speaks(last.data) && BufferShown(events) != "" then BufferShown(events) else StateAfter(init).latest
  {
    var init, last := events[..|events|-1], events[|events|-1];
    ProgressIsFed(init);
    ProgressIsFed(events);
    SpeaksWhen(last.data);
    hide Speaks, FeedAll;
    assert events == init + [MessageEvent(last.data)];
    if Speaks(last.data) {
      SpokenIsCurrent(init, last.data);
    }
    hide Feed;
  }

  lemma SpokenIsCurrent(init: seq<StreamEvent>, data: EventData)
    requires Speaks(data)
    ensures var events := init + [MessageEvent(data)];
            CurrentOr(FeedAll(DatasOf(events))) == FeedAll(DatasOf(events)).current
  {
    var events, datas := init + [MessageEvent(data)], DatasOf(init);
    assert events[..|init|] == init;
    assert (datas + [data])[..|datas|] == datas;
    SpeaksWhen(data);
    NamedTarget(data, FeedAll(datas).current);
  }

  ghost predicate BringsAt(events: seq<StreamEvent>, i: int, text: string) {
    0 <= i < |events| && Brings(events[..i+1], text)
  }

  ghost predicate LastBrought(events: seq<StreamEvent>, i: int, text: string) {
    BringsAt(events, i, text) && forall j, t :: i < j < |events| ==> !BringsAt(events, j, t)
  }

  lemma BringsAtInit(events: seq<StreamEvent>, n: nat)
    requires |events| == n + 1
    ensures forall i, t :: i != n ==> (BringsAt(events, i, t) <==> BringsAt(events[..n], i, t))
    ensures forall t :: BringsAt(events, n, t) <==> Brings(events, t)
    ensures forall t :: !BringsAt(events[..n], n, t)
  {
    hide Brings;
    forall i, t | i != n ensures BringsAt(events, i, t) <==> BringsAt(events[..n], i, t) {
      if 0 <= i < n {
        assert events[..i+1] == events[..n][..i+1];
      }
    }
    assert events[..n+1] == events;
  }

  lemma LastBroughtInit(events: seq<StreamEvent>, n: nat, i: int, text: string)
    requires |events| == n + 1 && LastBrought(events, i, text)
    ensures if i == n then Brings(events, text) else LastBrought(events[..n], i, text) && forall t :: !Brings(events, t)
  {
    BringsAtInit(events, n);
    hide Brings, BringsAt;
    if i != n {
      assert i < n by {
        hide *;
        IndexInside(events, i, text);
      }
    }
  }

  lemma IndexInside(events: seq<StreamEvent>, i: int, text: string)
    requires LastBrought(events, i, text)
    ensures 0 <= i < |events|
  {
    hide Brings;
  }

  // What is displayed is what the last event that brought a text brought.
  lemma {:induction false} LatestExactly(events: seq<StreamEvent>, i: int, text: string)
    requires LastBrought(events, i, text)
    ensures StateAfter(events).latest == text
    decreases |events|
  {
    hide StateAfter, Brings, LastBrought;
    IndexInside(events, i, text);
    var n := |events| - 1;
    LastBroughtInit(events, n, i, text);
    BringsWhen(events, text);
    if i != n {
      LatestExactly(events[..n], i, text);
    }
  }

  // And nothing is displayed before a text has been brought.
  lemma {:induction false} NothingYetDisplayed(events: seq<StreamEvent>)
    requires forall i, t :: !BringsAt(events, i, t)
    ensures StateAfter(events).latest == ""
    decreases |events|
  {
    if events != [] {
      var n := |events| - 1;
      BringsAtInit(events, n);
      BringsWhen(events, "");
      hide StateAfter, Brings, BringsAt;
      assert forall t :: !Brings(events, t) by {
        forall t ensures !Brings(events, t) {
          assert !BringsAt(events, n, t);
        }
      }
      NothingInFront(events, n);
      NothingYetDisplayed(events[..n]);
    }
  }

  lemma NothingInFront(events: seq<StreamEvent>, n: nat)
    requires |events| == n + 1 && forall i, t :: !BringsAt(events, i, t)
    ensures forall i, t :: !BringsAt(events[..n], i, t)
  {
    BringsAtInit(events, n);
    hide BringsAt;
    forall i, t ensures !BringsAt(events[..n], i, t) {
      assert !BringsAt(events, i, t);
    }
  }

  // Every text belongs to the message id, and no full state arrives.
  ghost predicate About(events: seq<StreamEvent>, id: string) {
    forall i :: 0 <= i < |events| ==>
                  && !events[i].ValuesEvent?
                  && (events[i].MessageEvent? && Speaks(events[i].data) ==> UnderWay(DatasOf(events[..i+1]), id))
  }

  lemma AboutShorter(events: seq<StreamEvent>, id: string, n: nat)
    requires About(events, id) && n <= |events|
    ensures About(events[..n], id)
  {
    forall i | 0 <= i < n ensures events[..n][i] == events[i] && events[..n][..i+1] == events[..i+1] {}
  }

  // The text of one message only grows while it is streamed.
  lemma {:induction false} LatestIsBuffer(events: seq<StreamEvent>, id: string)
    requires About(events, id)
    ensures StateAfter(events).latest == BufferOf(StateAfter(events).progress.texts, id)
    ensures StateAfter(events).lastValues == None
    ensures events != [] ==> StateAfter(events[..|events|-1]).latest <= StateAfter(events).latest
    decreases |events|
  {
    if events != [] {
      var n := |events| - 1;
      var init, last := events[..n], events[n];
      AboutShorter(events, id, n);
      LatestIsBuffer(init, id);
      if last.MessageEvent? {
        SpeaksWhen(last.data);
        if Speaks(last.data) {
          assert events[..n+1] == events && events == init + [MessageEvent(last.data)];
          SpokenIsCurrent(init, last.data);
          ProgressIsFed(events);
          UnderWayExactly(DatasOf(events), id);
          hide UnderWay;
          MergeExtends(BufferOf(StateAfter(init).progress.texts, id), TextIn(last.data).value);
        }
      }
    }
  }

  // What a reader sees of one message - updates, then the final text - is a chain
  // of extensions, whether or not the run ends in an exception.
  lemma {:induction false} ReaderSeesGrowth(events: seq<StreamEvent>, clock: seq<real>, id: string)
    requires |clock| == |events| && About(events, id)
    ensures var u := UpdatesOf(events, clock);
            && (forall i :: 0 < i < |u.texts| ==> u.texts[i-1] <= u.texts[i])
            && (u.texts != [] ==> u.texts[|u.texts|-1] <= StateAfter(events).latest)
    decreases |events|
  {
    if events != [] {
      var n := |events| - 1;
      hide StateAfter, About, UpdatesOf, Publishes;
      AboutShorter(events, id, n);
      ReaderSeesGrowth(events[..n], clock[..n], id);
      LatestIsBuffer(events, id);
      UpdatesSnoc(events, clock, n);
    }
  }

  lemma FinalOfOneMessage(events: seq<StreamEvent>, id: string, resolvable: set<string>, error: Option<Failure>)
    requires About(events, id)
    ensures var st := StateAfter(events);
            st.latest != "" ==> FinalText(st, resolvable, error) == st.latest
  {
    LatestIsBuffer(events, id);
    var latest := StateAfter(events).latest;
    assert [AI(latest, [])][..0] == [] && Artifacts([]) == [];
    assert Artifacts([AI(latest, [])]) == [] + [];
  }

  lemma WithArtifactsExtends(text: string, artifacts: seq<string>, resolvable: set<string>)
    ensures text <= WithArtifacts(text, artifacts, resolvable)
    ensures artifacts != [] ==> text < WithArtifacts(text, artifacts, resolvable)
    ensures artifacts == [] ==> text == WithArtifacts(text, artifacts, resolvable)
  {
    FilterOrReject(artifacts, resolvable);
  }

  // Every file is named: it is among the resolved ones or the others.
  lemma {:induction false} FilterOrReject(paths: seq<string>, keep: set<string>)
    ensures |Filter(paths, keep)| + |Reject(paths, keep)| == |paths|
    decreases |paths|
  {
    if paths != [] {
      FilterOrReject(paths[1..], keep);
    }
  }

  // When a full state has arrived, the final message begins with the response of its
  // current turn, and says more exactly when files were presented.
  lemma FinalCarriesResponse(st: RunState, messages: seq<Message>, resolvable: set<string>, error: Option<Failure>)
    requires st.lastValues == Some(messages) && ResponseText(messages) != ""
    ensures ResponseText(messages) <= FinalText(st, resolvable, error)
    ensures FinalText(st, resolvable, error) == ResponseText(messages) <==> Artifacts(messages) == []
  {
    WithArtifactsExtends(ResponseText(messages), Artifacts(messages), resolvable);
  }

  // --- every presented file is named ---

  ghost predicate OccursAt(t: string, s: string, i: int) {
    0 <= i <= |s| - |t| && s[i..i + |t|] == t
  }

  ghost predicate Occurs(t: string, s: string) {
    exists i :: OccursAt(t, s, i)
  }

  lemma OccursWithin(t: string, a: string, s: string, b: string)
    requires Occurs(t, s)
    ensures Occurs(t, a + s + b)
  {
    var i :| OccursAt(t, s, i);
    var all := a + s + b;
    assert all[|a| + i..|a| + i + |t|] == s[i..i + |t|];
    assert OccursAt(t, all, |a| + i);
  }

  lemma OccursItself(t: string)
    ensures Occurs(t, t)
  {
    assert t[0..|t|] == t;
    assert OccursAt(t, t, 0);
  }

  lemma {:induction false} NameJoined(paths: seq<string>, i: nat)
    requires i < |paths|
    ensures Occurs(BaseName(paths[i]), JoinNames(paths))
    decreases |paths|
  {
    hide Occurs, BaseName;
    var name, sep := BaseName(paths[0]), "\U{3001}";
    if i == 0 {
      OccursItself(name);
      if |paths| > 1 {
        OccursWithin(name, "", name, sep + JoinNames(paths[1..]));
        assert "" + name + (sep + JoinNames(paths[1..])) == JoinNames(paths);
      }
    } else {
      NameJoined(paths[1..], i - 1);
      OccursWithin(BaseName(paths[i]), name + sep, JoinNames(paths[1..]), "");
      assert name + sep + JoinNames(paths[1..]) + "" == JoinNames(paths);
    }
  }

  lemma ArtifactTextNames(paths: seq<string>, i: nat)
    requires i < |paths|
    ensures Occurs(BaseName(paths[i]), ArtifactText(paths))
  {
    hide Occurs, BaseName;
    NameJoined(paths, i);
    var name, head := BaseName(paths[i]), if |paths| == 1 then "Created File: \U{1F4CE} " else "Created Files: \U{1F4CE} ";
    OccursWithin(name, head, JoinNames(paths), "");
    assert head + JoinNames(paths) + "" == ArtifactText(paths);
  }

  lemma AppendLast(name: string, text: string, more: string)
    requires Occurs(name, more)
    ensures Occurs(name, Append(text, more))
  {
    hide Occurs;
    OccursWithin(name, text + "\n\n", more, "");
    assert text + "\n\n" + more + "" == text + "\n\n" + more;
  }

  lemma AppendFirst(name: string, text: string, more: string)
    requires Occurs(name, text) && text != ""
    ensures Occurs(name, Append(text, more))
  {
    hide Occurs;
    OccursWithin(name, "", text, "\n\n" + more);
    assert "" + text + ("\n\n" + more) == text + "\n\n" + more;
  }

  lemma AppendNotEmpty(text: string, more: string)
    requires more != ""
    ensures Append(text, more) != ""
  {}

  lemma {:induction false} FilterHas(paths: seq<string>, keep: set<string>, path: string)
    requires path in paths
    ensures if path in keep then path in Filter(paths, keep) else path in Reject(paths, keep)
    decreases |paths|
  {
    if path != paths[0] {
      FilterHas(paths[1..], keep, path);
    }
  }

  lemma WithArtifactsNames(text: string, artifacts: seq<string>, resolvable: set<string>, i: nat)
    requires i < |artifacts|
    ensures Occurs(BaseName(artifacts[i]), WithArtifacts(text, artifacts, resolvable))
  {
    hide Occurs, BaseName, Append, ArtifactText, Filter, Reject;
    var path, name := artifacts[i], BaseName(artifacts[i]);
    var resolved, unresolved := Filter(artifacts, resolvable), Reject(artifacts, resolvable);
    FilterHas(artifacts, resolvable, path);
    if path in resolvable {
      var j :| 0 <= j < |resolved| && resolved[j] == path;
      ArtifactTextNames(resolved, j);
      AppendLast(name, if unresolved != [] then Append(text, ArtifactText(unresolved)) else text, ArtifactText(resolved));
    } else {
      var j :| 0 <= j < |unresolved| && unresolved[j] == path;
      ArtifactTextNames(unresolved, j);
      AppendLast(name, text, ArtifactText(unresolved));
      AppendNotEmpty(text, ArtifactText(unresolved));
      AppendFirst(name, Append(text, ArtifactText(unresolved)), ArtifactText(resolved));
    }
  }

  // Whatever the state, the final text names every file presented in the current turn.
  lemma FinalNamesFiles(st: RunState, messages: seq<Message>, resolvable: set<string>, error: Option<Failure>, i: nat)
    requires st.lastValues == Some(messages) && i < |Artifacts(messages)|
    ensures Occurs(BaseName(Artifacts(messages)[i]), FinalText(st, resolvable, error))
  {
    hide Occurs, BaseName, WithArtifacts;
    WithArtifactsNames(ResponseText(messages), Artifacts(messages), resolvable, i);
    WithArtifactsNotEmpty(ResponseText(messages), Artifacts(messages), resolvable);
  }

  lemma WithArtifactsNotEmpty(text: string, artifacts: seq<string>, resolvable: set<string>)
    requires artifacts != []
    ensures WithArtifacts(text, artifacts, resolvable) != ""
  {
    WithArtifactsExtends(text, artifacts, resolvable);
  }

  // --- which files are presented, and how they are named ---

  // Message i belongs to the current turn.
  ghost predicate InTurn(messages: seq<Message>, i: int) {
    0 <= i < |messages| && forall j :: i <= j < |messages| ==> !StartsTurn(messages[j])
  }

  ghost predicate PresentedBy(messages: seq<Message>, i: int, file: string) {
    InTurn(messages, i) && messages[i].AI? && file in messages[i].files
  }

  lemma InTurnSnoc(init: seq<Message>, m: Message, i: int)
    ensures InTurn(init + [m], i) <==> !StartsTurn(m) && (i == |init| || InTurn(init, i))
  {
    hide StartsTurn;
    var all := init + [m];
    assert all[|init|] == m && forall j :: 0 <= j < |init| ==> all[j] == init[j];
  }

  // Exactly the files of the current turn are presented; those of earlier turns are
  // left out.
  lemma {:induction false} ArtifactsExactly(messages: seq<Message>, file: string)
    ensures file in Artifacts(messages) <==> exists i :: PresentedBy(messages, i, file)
    decreases |messages|
  {
    if messages != [] {
      var init, m, n := messages[..|messages|-1], messages[|messages|-1], |messages| - 1;
      assert messages == init + [m];
      ArtifactsExactly(init, file);
      forall i ensures PresentedBy(messages, i, file)
                  <==> !StartsTurn(m) && if i == n then m.AI? && file in m.files else PresentedBy(init, i, file) {
        InTurnSnoc(init, m, i);
        assert 0 <= i < n ==> messages[i] == init[i];
      }
      hide InTurn;
      if !StartsTurn(m) && m.AI? && file in m.files {
        assert PresentedBy(messages, n, file);
      }
      if i :| PresentedBy(init, i, file) && i != n {
        assert !StartsTurn(m) ==> PresentedBy(messages, i, file);
      }
      assert forall i :: PresentedBy(init, i, file) ==> 0 <= i < n by {
        PresentedIndex(init, file);
      }
    }
  }

  lemma PresentedIndex(messages: seq<Message>, file: string)
    ensures forall i :: PresentedBy(messages, i, file) ==> 0 <= i < |messages|
  {}

  // The part of a path after its last slash.
  lemma {:induction false} BaseNameExactly(path: string) returns (dir: string)
    ensures path == dir + BaseName(path) && '/' !in BaseName(path)
    ensures dir == "" || dir[|dir|-1] == '/'
    decreases |path|
  {
    if path == "" {
      dir := "";
    } else if path[|path|-1] == '/' {
      dir := path;
    } else {
      dir := BaseNameExactly(path[..|path|-1]);
    }
  }

  // One file, or several.
  lemma ListFormat(p: string, q: string)
    ensures ArtifactText([p]) == "Created File: \U{1F4CE} " + BaseName(p)
    ensures ArtifactText([p, q]) == "Created Files: \U{1F4CE} " + (BaseName(p) + "\U{3001}" + BaseName(q))
  {
    hide BaseName;
    assert [p, q][1..] == [q];
    assert JoinNames([q]) == BaseName(q);
    assert JoinNames([p, q]) == BaseName(p) + "\U{3001}" + BaseName(q);
  }

  // Unresolved files are listed in front of resolved ones, each list in its own paragraph.
  lemma FilesAreListed(text: string, p: string, q: string, resolvable: set<string>)
    requires text != ""
    ensures WithArtifacts(text, [p], resolvable) == text + "\n\n" + ArtifactText([p])
    ensures (p in resolvable <==> q in resolvable) ==>
              WithArtifacts(text, [p, q], resolvable) == text + "\n\n" + ArtifactText([p, q])
    ensures p in resolvable && q !in resolvable ==>
              WithArtifacts(text, [p, q], resolvable) == text + "\n\n" + ArtifactText([q]) + "\n\n" + ArtifactText([p])
    ensures p !in resolvable && q in resolvable ==>
              WithArtifacts(text, [p, q], resolvable) == text + "\n\n" + ArtifactText([p]) + "\n\n" + ArtifactText([q])
  {
    hide ArtifactText, Filter, Reject;
    TwoFiltered(p, q, resolvable);
    assert [p] + [q] == [p, q] && [] + [q] == [q] && [p] + [] == [p];
  }

  lemma TwoFiltered(p: string, q: string, keep: set<string>)
    ensures Filter([p], keep) == (if p in keep then [p] else []) && Reject([p], keep) == (if p in keep then [] else [p])
    ensures Filter([p, q], keep) == (if p in keep then [p] else []) + (if q in keep then [q] else [])
    ensures Reject([p, q], keep) == (if p in keep then [] else [p]) + (if q in keep then [] else [q])
  {
    assert [p][1..] == [] && [p, q][1..] == [q] && [q][1..] == [];
    assert Filter([], keep) == [] && Reject([], keep) == [];
    assert Filter([q], keep) == if q in keep then [q] else [];
    assert Reject([q], keep) == if q in keep then [] else [q];
  }

  ghost function Fallback(latest: string, error: Option<Failure>): string {
    match error
    case Some(ThreadBusy) =>
      "This conversation is already processing another request. Please wait for it to finish and try again."
    case Some(RunError) => "An error occurred while processing your request. Please try again."
    case None => if latest != "" then latest else "(No response from agent)"
  }

  // What the final message says when the last full state has neither an answer nor
  // files, and when none has arrived.
  lemma FinalFallback(st: RunState, resolvable: set<string>, error: Option<Failure>)
    ensures st.lastValues.None? && st.latest != "" ==> FinalText(st, resolvable, error) == st.latest
    ensures st.lastValues.Some? && ResponseText(st.lastValues.value) == "" && Artifacts(st.lastValues.value) == []
            ==> FinalText(st, resolvable, error) == Fallback(st.latest, error)
  {
    assert [AI(st.latest, [])][..0] == [] && Artifacts([]) == [];
    assert Artifacts([AI(st.latest, [])]) == [] + [];
    WithArtifactsExtends(st.latest, [], resolvable);
    WithArtifactsExtends("", [], resolvable);
  }

  ghost predicate LastState(events: seq<StreamEvent>, i: int) {
    0 <= i < |events| && events[i].ValuesEvent? && forall j :: i < j < |events| ==> !events[j].ValuesEvent?
  }

  lemma LastStateSnoc(init: seq<StreamEvent>, last: StreamEvent, i: int)
    ensures LastState(init + [last], i) <==> if last.ValuesEvent? then i == |init| else LastState(init, i)
  {
    var all := init + [last];
    assert all[|init|] == last && forall j :: 0 <= j < |init| ==> all[j] == init[j];
  }

  lemma LastValuesSnoc(events: seq<StreamEvent>)
    requires events != []
    ensures StateAfter(events).lastValues
         == if events[|events|-1].ValuesEvent? then Some(events[|events|-1].messages)
            else StateAfter(events[..|events|-1]).lastValues
  {
    hide Feed, ResponseText, TextIn, BufferOf;
  }

  // The last full state is the one that counts.
  lemma {:induction false} LastStateCounts(events: seq<StreamEvent>, i: int)
    requires LastState(events, i)
    ensures StateAfter(events).lastValues == Some(events[i].messages)
    decreases |events|
  {
    hide StateAfter;
    var init, last := events[..|events|-1], events[|events|-1];
    assert events == init + [last];
    LastValuesSnoc(events);
    LastStateSnoc(init, last, i);
    if !last.ValuesEvent? {
      LastStateCounts(init, i);
    }
  }
}
