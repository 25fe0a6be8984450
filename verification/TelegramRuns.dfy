// Whole runs of the Telegram channel: what a final text leaves behind, when the
// channel's record of a message is wrong, and what that does to a final text.
module TelegramRuns {
  import opened Wrappers
  import opened Sequences
  import opened TelegramStream

  // --- what the tries of a final text do ---

  // Message id carries part i: in a message nobody knew before, or, for the first
  // part, in the streamed message - which is left as it is when the part equals the
  // recorded text.
  ghost predicate PartShown(a: Screen, b: Screen, chat: int, state: Option<StreamState>, part: string, i: nat, id: int) {
    var s := Slot(chat, id);
    && s in b.used
    && if state.Some? && i == 0 && id == state.value.messageId then
         if part == state.value.lastText then
           (s in b.shown <==> s in a.shown) && (s in a.shown ==> b.shown[s] == a.shown[s])
         else s in b.shown && b.shown[s] == part
       else
         s !in a.used && s in b.shown && b.shown[s] == part && !(state.Some? && i == 0 && part == state.value.lastText)
  }

  ghost function Mine(chat: int, state: Option<StreamState>): set<Slot> {
    if state.Some? then {Slot(chat, state.value.messageId)} else {}
  }

  lemma NothingEdited(calls: seq<Call>)
    requires forall i :: 0 <= i < |calls| ==> calls[i].Sending?
    ensures EditedSlots(calls) == {}
  {}

  lemma AttemptsEffect(s: Screen, calls: seq<Call>, chat: int, text: string, n: nat, id: Option<int>)
    requires Proper(s) && AllPossible(s, calls) && Attempts(calls, chat, text, n, id)
    ensures Proper(AfterAll(s, calls)) && KeepsBut(s, AfterAll(s, calls), {})
    ensures id.Some? ==> PartShown(s, AfterAll(s, calls), chat, None, text, 0, id.value)
  {
    NothingEdited(calls);
    CallsKeep(s, calls, {});
    if id.Some? {
      var init := calls[..|calls|-1];
      NothingEdited(init);
      CallsKeep(s, init, {});
    }
  }

  lemma FinalEditEffect(s: Screen, calls: seq<Call>, chat: int, id: int, text: string, edited: bool)
    requires Proper(s) && AllPossible(s, calls) && FinalEdit(calls, chat, id, text, edited)
    ensures Proper(AfterAll(s, calls)) && KeepsBut(s, AfterAll(s, calls), {Slot(chat, id)})
    ensures edited ==> Slot(chat, id) in AfterAll(s, calls).shown && AfterAll(s, calls).shown[Slot(chat, id)] == text
  {
    assert EditedSlots(calls) <= {Slot(chat, id)};
    CallsKeep(s, calls, {Slot(chat, id)});
    hide KeepsBut, AllPossible;
    assert Possible(AfterAll(s, calls[..|calls|-1]), calls[|calls|-1]) by {
      LastPossible(s, calls);
    }
  }

  lemma LastPossible(s: Screen, calls: seq<Call>)
    requires AllPossible(s, calls) && calls != []
    ensures Possible(AfterAll(s, calls[..|calls|-1]), calls[|calls|-1])
  {}

  lemma FirstTryEffect(s: Screen, calls: seq<Call>, chat: int, state: StreamState, chunk: string, id: Option<int>)
    requires Proper(s) && AllPossible(s, calls) && FirstTry(calls, chat, state, chunk, id)
    requires Slot(chat, state.messageId) in s.used
    ensures Proper(AfterAll(s, calls)) && KeepsBut(s, AfterAll(s, calls), {Slot(chat, state.messageId)})
    ensures id.Some? ==> PartShown(s, AfterAll(s, calls), chat, Some(state), chunk, 0, id.value)
  {
    if chunk != state.lastText {
      if id == Some(state.messageId) && FinalEdit(calls, chat, state.messageId, chunk, true) {
        FinalEditEffect(s, calls, chat, state.messageId, chunk, true);
      } else {
        var n :| 0 <= n <= |calls| && ResentAfter(calls, n, chat, state, chunk, id);
        ResentEffect(s, calls, n, chat, state, chunk, id);
      }
    }
  }

  lemma ResentEffect(s: Screen, calls: seq<Call>, n: nat, chat: int, state: StreamState, chunk: string, id: Option<int>)
    requires Proper(s) && AllPossible(s, calls) && n <= |calls| && ResentAfter(calls, n, chat, state, chunk, id)
    requires Slot(chat, state.messageId) in s.used && chunk != state.lastText
    ensures Proper(AfterAll(s, calls)) && KeepsBut(s, AfterAll(s, calls), {Slot(chat, state.messageId)})
    ensures id.Some? ==> PartShown(s, AfterAll(s, calls), chat, Some(state), chunk, 0, id.value)
  {
    var edits, sends := calls[..n], calls[n..];
    assert calls == edits + sends;
    CallsConcat(s, edits, sends);
    var mid := AfterAll(s, edits);
    hide AfterAll, AllPossible;
    FinalEditEffect(s, edits, chat, state.messageId, chunk, false);
    AttemptsEffect(mid, sends, chat, chunk, MAX_RETRIES, id);
    hide FinalEdit, Attempts;
    KeepsTrans(s, mid, AfterAll(s, calls), {Slot(chat, state.messageId)}, {});
  }

  lemma TryEffect(s: Screen, calls: seq<Call>, i: nat, chat: int, state: Option<StreamState>, part: string, id: Option<int>)
    requires Proper(s) && AllPossible(s, calls) && Try(calls, i, chat, state, part, id) && Mine(chat, state) <= s.used
    ensures Proper(AfterAll(s, calls))
    ensures KeepsBut(s, AfterAll(s, calls), if i == 0 then Mine(chat, state) else {})
    ensures id.Some? && i == 0 ==> PartShown(s, AfterAll(s, calls), chat, state, part, 0, id.value)
    ensures id.Some? && i > 0 ==> PartShown(s, AfterAll(s, calls), chat, None, part, 0, id.value)
  {
    hide FirstTry, Attempts, AfterAll, AllPossible, PartShown, KeepsBut;
    if state.Some? && i == 0 {
      FirstTryEffect(s, calls, chat, state.value, part, id);
    } else {
      AttemptsEffect(s, calls, chat, part, MAX_RETRIES, id);
    }
  }

  // A part that is shown stays shown while other messages are sent.
  lemma PartStays(a: Screen, b: Screen, c: Screen, chat: int, state: Option<StreamState>, part: string, i: nat, id: int)
    requires PartShown(a, b, chat, state, part, i, id) && KeepsBut(b, c, {})
    ensures PartShown(a, c, chat, state, part, i, id)
  {}

  // A part sent later is in a message that was new at the beginning, too.
  lemma PartIsNew(a: Screen, b: Screen, c: Screen, chat: int, state: Option<StreamState>, part: string, i: nat, id: int)
    requires PartShown(b, c, chat, None, part, 0, id) && a.used <= b.used && i > 0
    ensures PartShown(a, c, chat, state, part, i, id)
  {}

  // After j tries.
  ghost predicate DeliveredBy(a: Screen, b: Screen, chat: int, state: Option<StreamState>, parts: seq<string>,
                              ids: seq<int>, j: nat)
    requires |ids| <= |parts|
  {
    && Proper(b) && KeepsBut(a, b, Mine(chat, state))
    && (forall i :: 0 <= i < j && i < |ids| ==> PartShown(a, b, chat, state, parts[i], i, ids[i]))
    && (forall i, k :: 0 <= i < k < j && k < |ids| ==> ids[i] != ids[k])
  }

  lemma DeliverNext(a: Screen, b: Screen, c: Screen, chat: int, state: Option<StreamState>, parts: seq<string>,
                    ids: seq<int>, j: nat)
    requires |ids| <= |parts| && j > 0 && DeliveredBy(a, b, chat, state, parts, ids, j)
    requires Proper(c) && KeepsBut(b, c, {}) && (j < |ids| ==> PartShown(b, c, chat, None, parts[j], 0, ids[j]))
    ensures DeliveredBy(a, c, chat, state, parts, ids, j + 1)
  {
    KeepsTrans(a, b, c, Mine(chat, state), {});
    assert a.used <= b.used;
    if j < |ids| {
      assert Slot(chat, ids[j]) !in b.used;
      PartIsNew(a, b, c, chat, state, parts[j], j, ids[j]);
    }
    forall i | 0 <= i < j && i < |ids|
      ensures PartShown(a, c, chat, state, parts[i], i, ids[i]) && Slot(chat, ids[i]) in b.used
    {
      PartStays(a, b, c, chat, state, parts[i], i, ids[i]);
    }
    hide PartShown, KeepsBut;
  }

  lemma {:induction false} TriesDeliver(a: Screen, tries: seq<seq<Call>>, chat: int, state: Option<StreamState>,
                                        parts: seq<string>, ok: bool, ids: seq<int>, j: nat)
    requires Proper(a) && Mine(chat, state) <= a.used && AllPossible(a, Flatten(tries))
    requires Tries(tries, chat, state, parts, ok, ids) && j <= |tries|
    ensures AllPossible(a, Flatten(tries[..j]))
    ensures DeliveredBy(a, AfterAll(a, Flatten(tries[..j])), chat, state, parts, ids, j)
    decreases |tries| - j, 1
  {
    PrefixPossible(a, tries, j);
    DeliveredUpTo(a, tries, chat, state, parts, ok, ids, j);
  }

  lemma {:induction false} PrefixPossible(a: Screen, tries: seq<seq<Call>>, j: nat)
    requires j <= |tries| && AllPossible(a, Flatten(tries))
    ensures AllPossible(a, Flatten(tries[..j]))
    decreases |tries| - j
  {
    hide Flatten, AllPossible;
    if j == |tries| {
      assert tries[..j] == tries;
    } else {
      PrefixPossible(a, tries, j + 1);
      assert tries[..j+1] == tries[..j] + [tries[j]];
      FlattenSnoc(tries[..j], tries[j]);
      CallsConcat(a, Flatten(tries[..j]), tries[j]);
    }
  }

  lemma {:induction false} DeliveredUpTo(a: Screen, tries: seq<seq<Call>>, chat: int, state: Option<StreamState>,
                                         parts: seq<string>, ok: bool, ids: seq<int>, j: nat)
    requires Proper(a) && Mine(chat, state) <= a.used && AllPossible(a, Flatten(tries))
    requires Tries(tries, chat, state, parts, ok, ids) && j <= |tries|
    ensures DeliveredBy(a, AfterAll(a, Flatten(tries[..j])), chat, state, parts, ids, j)
    decreases j
  {
    hide AllPossible, Try, PartShown;
    if j == 0 {
      assert tries[..0] == [] && AfterAll(a, []) == a;
    } else {
      DeliveredUpTo(a, tries, chat, state, parts, ok, ids, j - 1);
      PrefixPossible(a, tries, j);
      assert tries[..j] == tries[..j-1] + [tries[j-1]];
      hide AfterAll, Flatten;
      FlattenSnoc(tries[..j-1], tries[j-1]);
      var before := AfterAll(a, Flatten(tries[..j-1]));
      CallsConcat(a, Flatten(tries[..j-1]), tries[j-1]);
      OneMoreTry(a, before, tries[j-1], chat, state, parts, ids, j - 1);
    }
  }

  lemma OneMoreTry(a: Screen, b: Screen, calls: seq<Call>, chat: int, state: Option<StreamState>, parts: seq<string>,
                   ids: seq<int>, j: nat)
    requires |ids| <= |parts| && j < |parts| && DeliveredBy(a, b, chat, state, parts, ids, j)
    requires AllPossible(b, calls) && Mine(chat, state) <= a.used && (j == 0 ==> b == a)
    requires Try(calls, j, chat, state, parts[j], if j < |ids| then Some(ids[j]) else None)
    ensures DeliveredBy(a, AfterAll(b, calls), chat, state, parts, ids, j + 1)
  {
    hide Try, AfterAll, AllPossible, PartShown;
    TryEffect(b, calls, j, chat, state, parts[j], if j < |ids| then Some(ids[j]) else None);
    if j > 0 {
      DeliverNext(a, b, AfterAll(b, calls), chat, state, parts, ids, j);
    }
  }

  // --- what one final leaves behind ---

  // Messages ids of a chat that together show a text.
  ghost predicate Shows(shown: map<Slot, string>, chat: int, ids: seq<int>, texts: seq<string>) {
    && |ids| == |texts| && Distinct(ids)
    && forall i :: 0 <= i < |ids| ==> Slot(chat, ids[i]) in shown && shown[Slot(chat, ids[i])] == texts[i]
  }

  // The message of a tracked key does not show what is recorded.
  ghost predicate Wrong(b: Book, key: Key) {
    && key in b.streams
    && var s := SlotOf(key, b.streams[key]);
       !(s in b.screen.shown && b.screen.shown[s] == b.streams[key].lastText)
  }

  // The record is wrong, and equals the first part of the final text.
  ghost predicate Misled(b: Book, key: Key, text: string) {
    Wrong(b, key) && b.streams[key].lastText == SplitMessage(text)[0]
  }

  lemma FinalEffect(a: Book, key: Key, text: string, tries: seq<seq<Call>>, ok: bool, ids: seq<int>, b: Book)
    requires Sound(a) && FinalStep(a, key, text, tries, ok, ids, b)
    ensures |ids| <= |Parts(key in a.streams, text)|
    ensures DeliveredBy(a.screen, b.screen, key.chat, Record(a, key), Parts(key in a.streams, text), ids, |tries|)
  {
    var state, parts := Record(a, key), Parts(key in a.streams, text);
    assert Proper(a.screen) && Mine(key.chat, state) <= a.screen.used;
    hide Sound, AfterAll, AllPossible, DeliveredBy, Flatten;
    TriesDeliver(a.screen, tries, key.chat, state, parts, ok, ids, |tries|);
    assert tries[..|tries|] == tries;
  }

  // A final that returns normally leaves messages that together show the final text
  // - unless the record was wrong and the final text begins with just that, in which
  // case the streamed message is not written.
  lemma FinalTextDelivered(a: Book, key: Key, text: string, tries: seq<seq<Call>>, ids: seq<int>, b: Book)
    requires Sound(a) && FinalStep(a, key, text, tries, true, ids, b)
    ensures var parts := Parts(key in a.streams, text);
            && (Shows(b.screen.shown, key.chat, ids, parts) <==> !Misled(a, key, text))
            && Concat(parts) == text
            && (if key in a.streams then forall p :: p in parts ==> |p| <= 4096 else parts == [text])
  {
    FinalEffect(a, key, text, tries, true, ids, b);
    var parts := Parts(key in a.streams, text);
    hide PartShown, AllPossible, AfterAll, Flatten, Wrong;
    assert Tries(tries, key.chat, Record(a, key), parts, true, ids);
    if key in a.streams {
      SplitIsExact(text);
      FirstPart(a, key, text, ids, b);
    } else {
      assert [text][..0] == [] && "" + text == text;
    }
    forall i | 0 <= i < |ids| && !(i == 0 && key in a.streams)
      ensures Slot(key.chat, ids[i]) in b.screen.shown && b.screen.shown[Slot(key.chat, ids[i])] == parts[i]
    {
      OtherPart(a.screen, b.screen, key.chat, Record(a, key), parts[i], i, ids[i]);
    }
    hide Sound, FinalStep, Tries, KeepsBut, SplitMessage;
  }

  // A part other than the first of a tracked stream is in a new message.
  lemma OtherPart(a: Screen, b: Screen, chat: int, state: Option<StreamState>, part: string, i: nat, id: int)
    requires PartShown(a, b, chat, state, part, i, id) && !(i == 0 && state.Some?)
    ensures Slot(chat, id) in b.shown && b.shown[Slot(chat, id)] == part
  {}

  lemma FirstPart(a: Book, key: Key, text: string, ids: seq<int>, b: Book)
    requires Sound(a) && key in a.streams && ids != []
    requires PartShown(a.screen, b.screen, key.chat, Some(a.streams[key]), SplitMessage(text)[0], 0, ids[0])
    ensures var s := Slot(key.chat, ids[0]);
            (s in b.screen.shown && b.screen.shown[s] == SplitMessage(text)[0]) <==> !Misled(a, key, text)
  {}

  // Three attempts in a row at sending the text were refused.
  ghost predicate GaveUp(calls: seq<Call>, chat: int, text: string) {
    |calls| >= 3
    && forall i :: |calls| - 3 <= i < |calls| ==> SendsText(calls[i], chat, text) && Sent(calls[i]) == None
  }

  lemma AttemptsGaveUp(calls: seq<Call>, chat: int, text: string)
    requires Attempts(calls, chat, text, MAX_RETRIES, None)
    ensures GaveUp(calls, chat, text)
  {}

  lemma GaveUpAtLast(first: seq<Call>, last: seq<Call>, chat: int, text: string)
    requires GaveUp(last, chat, text)
    ensures GaveUp(first + last, chat, text)
  {
    var all := first + last;
    forall i | |all| - 3 <= i < |all| ensures SendsText(all[i], chat, text) && Sent(all[i]) == None {
      assert all[i] == last[i - |first|];
    }
  }

  lemma TryGaveUp(calls: seq<Call>, i: nat, chat: int, state: Option<StreamState>, part: string)
    requires Try(calls, i, chat, state, part, None)
    ensures GaveUp(calls, chat, part)
  {
    if state.Some? && i == 0 {
      var k :| 0 <= k <= |calls| && ResentAfter(calls, k, chat, state.value, part, None);
      AttemptsGaveUp(calls[k..], chat, part);
      GaveUpAtLast(calls[..k], calls[k..], chat, part);
      assert calls[..k] + calls[k..] == calls;
    } else {
      AttemptsGaveUp(calls, chat, part);
    }
  }

  // A final raises only after three refusals in a row of the next part.
  lemma RaisesOnlyRefused(a: Book, key: Key, text: string, tries: seq<seq<Call>>, ids: seq<int>, b: Book)
    requires FinalStep(a, key, text, tries, false, ids, b)
    ensures |ids| < |Parts(key in a.streams, text)|
    ensures GaveUp(Flatten(tries), key.chat, Parts(key in a.streams, text)[|ids|])
  {
    hide Try, GaveUp, AfterAll, AllPossible, Flatten;
    var part, n := Parts(key in a.streams, text)[|ids|], |ids|;
    TryGaveUp(tries[n], n, key.chat, Record(a, key), part);
    GaveUpAtLast(Flatten(tries[..n]), tries[n], key.chat, part);
    FlattenSnoc(tries[..n], tries[n]);
    assert tries == tries[..n] + [tries[n]];
  }

  // --- one step ---

  // The key an operation is about, if any.
  ghost function Subject(op: Op): Option<Key> {
    if op.Deleted? then None else if op.Running? then Some(Key(op.chat, op.replyTo)) else Some(KeyOf(op.msg))
  }

  // The message an operation may change.
  ghost function Touched(a: Book, op: Op): set<Slot> {
    if op.Publish? then Mine(op.msg.chat, Record(a, KeyOf(op.msg))) else {}
  }

  ghost predicate SameMessage(a: Book, b: Book, key: Key) {
    key in a.streams && key in b.streams && a.streams[key].messageId == b.streams[key].messageId
  }

  // What an operation leaves alone: messages other than its key's, records other than
  // its key's; and a key's record is about the message it was about, or a new one.
  ghost predicate Frame(a: Book, op: Op, b: Book) {
    && Sound(b) && KeepsBut(a.screen, b.screen, Touched(a, op))
    && (forall k :: k in b.streams ==> SameMessage(a, b, k) || SlotOf(k, b.streams[k]) !in a.screen.used)
    && (forall k :: k in b.streams && Subject(op) != Some(k) ==> k in a.streams && b.streams[k] == a.streams[k])
  }

  lemma TrackingRecords(b: Book, key: Key, state: StreamState)
    ensures var t := Tracking(b, key, state);
            && t.screen == b.screen && key in t.streams && t.streams[key] == state
            && forall k :: k in t.streams && k != key ==> k in b.streams && t.streams[k] == b.streams[k]
  {}

  lemma SoundIsProper(b: Book)
    requires Sound(b)
    ensures Proper(b.screen)
  {}

  lemma TrackingFrame(a: Book, op: Op, key: Key, calls: seq<Call>, state: StreamState, b: Book)
    requires Sound(a) && Subject(op) == Some(key) && AllPossible(a.screen, calls) && |calls| == 1
    requires calls[0].Sending? && calls[0].chat == key.chat && Sent(calls[0]) == Some(state.messageId)
    requires |state.lastText| <= MAX_MESSAGE_LENGTH && b == Tracking(a.(screen := AfterAll(a.screen, calls)), key, state)
    ensures Frame(a, op, b)
  {
    hide Sound, AfterAll, AllPossible, KeepsBut, Tracking, Touched, Subject, EditedSlots, Proper;
    var next := a.(screen := AfterAll(a.screen, calls));
    assert calls[|calls|-1] == calls[0];
    SentIsNew(a, calls, key, state);
    NewIsNobodys(a, SlotOf(key, state));
    ScreenSound(a, calls);
    NothingEdited(calls);
    SoundIsProper(a);
    CallsKeep(a.screen, calls, Touched(a, op));
    TrackingSound(next, key, state);
    TrackingRecords(next, key, state);
  }

  lemma ScreenFrame(a: Book, op: Op, calls: seq<Call>, b: Book)
    requires Sound(a) && AllPossible(a.screen, calls) && EditedSlots(calls) <= Touched(a, op)
    requires b == a.(screen := AfterAll(a.screen, calls))
    ensures Frame(a, op, b)
  {
    ScreenSound(a, calls);
    CallsKeep(a.screen, calls, Touched(a, op));
    hide Sound, AfterAll, AllPossible, KeepsBut;
  }

  lemma EditFrame(a: Book, op: Op, key: Key, display: string, calls: seq<Call>, later: real, b: Book)
    requires Sound(a) && op.Publish? && KeyOf(op.msg) == key && key in a.streams && AllPossible(a.screen, calls)
    requires EditCalls(calls, key.chat, a.streams[key], display) && |display| <= MAX_MESSAGE_LENGTH
    requires b == Book(AfterAll(a.screen, calls),
                       a.streams[key := AfterEdit(a.streams[key], key.chat, display, calls, later)], a.order)
    ensures Frame(a, op, b)
  {
    var state := AfterEdit(a.streams[key], key.chat, display, calls, later);
    assert EditedSlots(calls) <= Touched(a, op);
    CallsKeep(a.screen, calls, Touched(a, op));
    assert |a.streams[key].lastText| <= MAX_MESSAGE_LENGTH;
    RecordSound(a, key, state, calls);
    if state.messageId != a.streams[key].messageId {
      SentIsNew(a, calls, key, state);
    }
    hide Sound, AfterAll, AllPossible, KeepsBut, AfterEdit;
  }

  lemma FinalFrame(a: Book, op: Op, key: Key, text: string, tries: seq<seq<Call>>, ok: bool, ids: seq<int>, b: Book)
    requires Sound(a) && op.Publish? && KeyOf(op.msg) == key && FinalStep(a, key, text, tries, ok, ids, b)
    ensures Frame(a, op, b)
  {
    FinalEffect(a, key, text, tries, ok, ids, b);
    DropSound(a, key);
    var dropped := a.(streams := a.streams - {key}, order := Without(a.order, key));
    ScreenSound(dropped, Flatten(tries));
    hide Sound, AfterAll, AllPossible, KeepsBut, Tries, Without, Flatten;
  }

  lemma StepFrame(a: Book, op: Op, o: Outcome, b: Book)
    requires Sound(a) && Step(a, op, o, b) && !op.Deleted?
    ensures Frame(a, op, b)
  {
    hide Sound, Frame, AfterAll, AllPossible, Tracking, EditCalls, AfterEdit, Flatten, Tries;
    if op.Running? {
      var calls, key := o.tries[0], Key(op.chat, op.replyTo);
      if o.ok {
        TrackingFrame(a, op, key, calls, StreamState(Sent(calls[0]).value, 0.0, RUNNING_REPLY), b);
      } else {
        NothingEdited(calls);
        ScreenFrame(a, op, calls, b);
      }
    } else if op.msg.isFinal {
      FinalFrame(a, op, KeyOf(op.msg), op.msg.text, o.tries, o.ok, o.ids, b);
    } else {
      UpdateFrame(a, op, o.tries[0], b);
    }
  }

  lemma UpdateFrame(a: Book, op: Op, calls: seq<Call>, b: Book)
    requires Sound(a) && op.Publish? && UpdateStep(a, KeyOf(op.msg), op.msg.text, op.now, op.later, calls, b)
    ensures Frame(a, op, b)
  {
    var key, display := KeyOf(op.msg), Display(op.msg.text);
    if calls == [] {
      assert AfterAll(a.screen, []) == a.screen && EditedSlots([]) == {};
      ScreenFrame(a, op, calls, b);
    } else if key in a.streams {
      hide Sound, Frame, AfterAll, AllPossible, EditCalls, AfterEdit;
      EditFrame(a, op, key, display, calls, op.later, b);
    } else if Sent(calls[0]).None? {
      NothingEdited(calls);
      hide Sound, Frame, AfterAll, AllPossible;
      ScreenFrame(a, op, calls, b);
    } else {
      hide Sound, Frame, AfterAll, AllPossible, Tracking;
      TrackingFrame(a, op, key, calls, StreamState(Sent(calls[0]).value, op.later, display), b);
    }
  }

  lemma StepSound(a: Book, op: Op, o: Outcome, b: Book)
    requires Sound(a) && Step(a, op, o, b)
    ensures Sound(b) && a.screen.used <= b.screen.used
  {
    if !op.Deleted? {
      StepFrame(a, op, o, b);
      hide Step;
    }
  }

  // --- when a record is wrong ---

  // An edit that took effect although it raised, and a resend that raised too.
  ghost predicate LostEdit(calls: seq<Call>) {
    && |calls| == 2 && calls[0].Editing? && calls[0].applied && calls[0].reply.EditFailed?
    && calls[1].Sending? && Sent(calls[1]).None?
  }

  // What can make a record wrong: the message is deleted, or an edit of it is lost.
  ghost predicate Disturbs(a: Book, op: Op, o: Outcome, key: Key) {
    if op.Deleted? then key in a.streams && SlotOf(key, a.streams[key]) in op.slots
    else op.Publish? && !op.msg.isFinal && KeyOf(op.msg) == key && |o.tries| == 1 && LostEdit(o.tries[0])
  }

  ghost predicate SameRecord(a: Book, b: Book, key: Key) {
    key in a.streams && key in b.streams && a.streams[key] == b.streams[key]
  }

  lemma TrackedIsRight(a: Book, key: Key, calls: seq<Call>, state: StreamState, b: Book)
    requires Sound(a) && AllPossible(a.screen, calls) && |calls| == 1
    requires SendsText(calls[0], key.chat, state.lastText) && Sent(calls[0]) == Some(state.messageId)
    requires |state.lastText| <= MAX_MESSAGE_LENGTH && b == Tracking(a.(screen := AfterAll(a.screen, calls)), key, state)
    ensures !Wrong(b, key) && !SameRecord(a, b, key)
  {
    SentIsNew(a, calls, key, state);
    NewIsNobodys(a, SlotOf(key, state));
    hide Sound, AfterAll, AllPossible;
  }

  // What one further update does to the record of its key.
  lemma EditedRecord(a: Book, key: Key, display: string, calls: seq<Call>, later: real, b: Book)
    requires Sound(a) && key in a.streams && AllPossible(a.screen, calls) && |display| <= MAX_MESSAGE_LENGTH
    requires EditCalls(calls, key.chat, a.streams[key], display) && display != a.streams[key].lastText
    requires b == Book(AfterAll(a.screen, calls),
                       a.streams[key := AfterEdit(a.streams[key], key.chat, display, calls, later)], a.order)
    ensures if SameRecord(a, b, key) then Wrong(b, key) <==> Wrong(a, key) || LostEdit(calls) else !Wrong(b, key)
  {
    var state := AfterEdit(a.streams[key], key.chat, display, calls, later);
    var s0, c := a.screen, calls[0];
    assert calls[..1] == [c];
    OneCall(s0, c);
    var s1 := After(s0, c);
    if |calls| == 1 {
      assert calls == [c];
    } else {
      assert calls == [c] + [calls[1]];
      CallsSnoc(s0, [c], calls[1]);
      CallKeeps(s0, c);
      CallKeeps(s1, calls[1]);
      assert EditedSlots([calls[1]]) == {};
      if state.messageId != a.streams[key].messageId {
        SentIsNew(a, calls, key, state);
      }
    }
    hide Sound, AfterAll, AllPossible;
  }

  // A step makes a record wrong exactly when it disturbs it; a record that is
  // written anew is right.
  lemma WrongStep(a: Book, op: Op, o: Outcome, b: Book, key: Key)
    requires Sound(a) && Step(a, op, o, b) && key in b.streams
    ensures if SameRecord(a, b, key) then Wrong(b, key) <==> Wrong(a, key) || Disturbs(a, op, o, key) else !Wrong(b, key)
  {
    if op.Deleted? {
    } else if Subject(op) != Some(key) {
      StepFrame(a, op, o, b);
      OthersUnchanged(a, op, o, b, key);
    } else if op.Running? {
      SubjectRunning(a, op, o, b, key);
    } else {
      SubjectPublish(a, op, o, b, key);
    }
  }

  lemma OthersUnchanged(a: Book, op: Op, o: Outcome, b: Book, key: Key)
    requires Sound(a) && Frame(a, op, b) && key in b.streams && Subject(op) != Some(key) && !op.Deleted?
    ensures SameRecord(a, b, key) && (Wrong(b, key) <==> Wrong(a, key)) && !Disturbs(a, op, o, key)
  {
    assert SlotOf(key, a.streams[key]) !in Touched(a, op);
    hide Registered;
  }

  lemma SubjectRunning(a: Book, op: Op, o: Outcome, b: Book, key: Key)
    requires Sound(a) && Step(a, op, o, b) && op.Running? && Subject(op) == Some(key) && key in b.streams
    ensures if SameRecord(a, b, key) then Wrong(b, key) <==> Wrong(a, key) else !Wrong(b, key)
  {
    var calls := o.tries[0];
    if o.ok {
      TrackedIsRight(a, key, calls, StreamState(Sent(calls[0]).value, 0.0, RUNNING_REPLY), b);
    } else {
      NothingEdited(calls);
      CallsKeep(a.screen, calls, {});
    }
  }

  lemma SubjectPublish(a: Book, op: Op, o: Outcome, b: Book, key: Key)
    requires Sound(a) && Step(a, op, o, b) && op.Publish? && Subject(op) == Some(key) && key in b.streams
    ensures if SameRecord(a, b, key) then Wrong(b, key) <==> Wrong(a, key) || Disturbs(a, op, o, key) else !Wrong(b, key)
  {
    hide Sound, Tracking, AfterEdit, Wrong;
    if !op.msg.isFinal {
      var calls, display := o.tries[0], Display(op.msg.text);
      if key in a.streams && calls != [] {
        EditedRecord(a, key, display, calls, op.later, b);
      } else if calls != [] && Sent(calls[0]).Some? {
        TrackedIsRight(a, key, calls, StreamState(Sent(calls[0]).value, op.later, display), b);
      } else {
        assert b.streams == a.streams;
        assert key in a.streams ==> calls == [] && b == a;
      }
    }
  }

  // --- whole runs ---

  ghost predicate Start(b: Book) {
    Proper(b.screen) && b.streams == map[] && b.order == []
  }

  // Operation k leads from book k to book k + 1, with outcome k.
  ghost predicate IsRun(books: seq<Book>, ops: seq<Op>, outs: seq<Outcome>) {
    && |books| == |ops| + 1 && |outs| == |ops| && Start(books[0])
    && forall k :: 0 <= k < |ops| ==> Step(books[k], ops[k], outs[k], books[k+1])
  }

  lemma {:induction false} RunSound(books: seq<Book>, ops: seq<Op>, outs: seq<Outcome>, k: nat)
    requires IsRun(books, ops, outs) && k <= |ops|
    ensures Sound(books[k])
    decreases k
  {
    if k > 0 {
      hide Sound, Step;
      RunSound(books, ops, outs, k - 1);
      StepSound(books[k-1], ops[k-1], outs[k-1], books[k]);
    }
  }

  lemma {:induction false} DistinctCount(order: seq<Key>)
    ensures |set k | k in order| <= |order|
    decreases |order|
  {
    if order != [] {
      DistinctCount(order[1..]);
      assert (set k | k in order) == {order[0]} + (set k | k in order[1..]);
    }
  }

  // At most 256 streams are ever tracked.
  lemma TrackedBounded(books: seq<Book>, ops: seq<Op>, outs: seq<Outcome>, k: nat)
    requires IsRun(books, ops, outs) && k <= |ops|
    ensures |books[k].streams| <= 256
  {
    RunSound(books, ops, outs, k);
    DistinctCount(books[k].order);
  }

  // --- records over a run ---

  ghost predicate Unwritten(books: seq<Book>, key: Key, j: nat, k: nat)
    requires j <= k < |books|
  {
    forall m :: j <= m <= k ==> SameRecord(books[m], books[k], key)
  }

  // Operation j disturbs the record that the key still has in book k.
  ghost predicate DisturbedAt(books: seq<Book>, ops: seq<Op>, outs: seq<Outcome>, key: Key, j: int, k: nat)
    requires |books| == |ops| + 1 == |outs| + 1 && k <= |ops|
  {
    0 <= j < k && Unwritten(books, key, j, k) && Disturbs(books[j], ops[j], outs[j], key)
  }

  ghost predicate Disturbed(books: seq<Book>, ops: seq<Op>, outs: seq<Outcome>, key: Key, k: nat)
    requires |books| == |ops| + 1 == |outs| + 1 && k <= |ops|
  {
    exists j :: DisturbedAt(books, ops, outs, key, j, k)
  }

  lemma UnwrittenNext(books: seq<Book>, key: Key, j: nat, k: nat)
    requires j < k < |books|
    ensures Unwritten(books, key, j, k) <==> SameRecord(books[k-1], books[k], key) && Unwritten(books, key, j, k - 1)
  {
    if Unwritten(books, key, j, k) {
      assert SameRecord(books[k-1], books[k], key);
      forall m | j <= m <= k - 1 ensures SameRecord(books[m], books[k-1], key) {
        assert SameRecord(books[m], books[k], key);
      }
    }
    if SameRecord(books[k-1], books[k], key) && Unwritten(books, key, j, k - 1) {
      forall m | j <= m <= k ensures SameRecord(books[m], books[k], key) {
        assert m < k ==> SameRecord(books[m], books[k-1], key);
      }
    }
  }

  lemma DisturbedNext(books: seq<Book>, ops: seq<Op>, outs: seq<Outcome>, key: Key, k: nat)
    requires IsRun(books, ops, outs) && 0 < k <= |ops|
    ensures Disturbed(books, ops, outs, key, k)
       <==> SameRecord(books[k-1], books[k], key)
            && (Disturbed(books, ops, outs, key, k - 1) || Disturbs(books[k-1], ops[k-1], outs[k-1], key))
  {
    hide SameRecord, Disturbs, Unwritten, Step;
    if j :| DisturbedAt(books, ops, outs, key, j, k) {
      UnwrittenNext(books, key, j, k);
      if j < k - 1 {
        assert DisturbedAt(books, ops, outs, key, j, k - 1);
      }
    }
    if SameRecord(books[k-1], books[k], key) {
      var p := k - 1;
      if j :| DisturbedAt(books, ops, outs, key, j, p) {
        UnwrittenNext(books, key, j, k);
        assert DisturbedAt(books, ops, outs, key, j, k);
      }
      if Disturbs(books[k-1], ops[k-1], outs[k-1], key) {
        UnwrittenNow(books, key, k);
        assert DisturbedAt(books, ops, outs, key, k - 1, k);
      }
    }
  }

  lemma UnwrittenNow(books: seq<Book>, key: Key, k: nat)
    requires 0 < k < |books| && SameRecord(books[k-1], books[k], key)
    ensures Unwritten(books, key, k - 1, k)
  {}

  // A record is wrong if and only if, since it was written, its message was deleted
  // or an edit of it was lost.
  lemma {:induction false} WrongExactly(books: seq<Book>, ops: seq<Op>, outs: seq<Outcome>, key: Key, k: nat)
    requires IsRun(books, ops, outs) && k <= |ops|
    ensures Wrong(books[k], key) <==> Disturbed(books, ops, outs, key, k)
    decreases k
  {
    if k == 0 {
      assert !Wrong(books[0], key);
    } else {
      WrongExactly(books, ops, outs, key, k - 1);
      RunSound(books, ops, outs, k - 1);
      assert Step(books[k-1], ops[k-1], outs[k-1], books[k]);
      WrongNext(books[k-1], ops[k-1], outs[k-1], books[k], key);
      DisturbedNext(books, ops, outs, key, k);
      hide *;
    }
  }

  lemma WrongNext(a: Book, op: Op, o: Outcome, b: Book, key: Key)
    requires Sound(a) && Step(a, op, o, b)
    ensures Wrong(b, key) <==> SameRecord(a, b, key) && (Wrong(a, key) || Disturbs(a, op, o, key))
  {
    if key in b.streams {
      hide Sound, Step, Wrong, Disturbs;
      WrongStep(a, op, o, b, key);
    }
  }

  // --- finals over a run ---

  ghost predicate IsFinal(ops: seq<Op>, k: int) {
    0 <= k < |ops| && ops[k].Publish? && ops[k].msg.isFinal
  }

  // The parts of the final text of operation k.
  ghost function PartsAt(books: seq<Book>, ops: seq<Op>, k: nat): seq<string>
    requires IsFinal(ops, k) && k < |books|
  {
    Parts(KeyOf(ops[k].msg) in books[k].streams, ops[k].msg.text)
  }

  ghost predicate MisledAt(books: seq<Book>, ops: seq<Op>, k: nat)
    requires IsFinal(ops, k) && k < |books|
  {
    Misled(books[k], KeyOf(ops[k].msg), ops[k].msg.text)
  }

  // Every final that returns normally leaves exactly its text - or its record was
  // wrong: its message was deleted or an edit of it was lost since the record was
  // written, and the text begins with what is recorded.
  lemma FinalsDelivered(books: seq<Book>, ops: seq<Op>, outs: seq<Outcome>, k: nat)
    requires IsRun(books, ops, outs) && IsFinal(ops, k) && outs[k].ok
    ensures var key, msg, parts := KeyOf(ops[k].msg), ops[k].msg, PartsAt(books, ops, k);
            && Concat(parts) == msg.text
            && (Shows(books[k+1].screen.shown, msg.chat, outs[k].ids, parts) <==> !MisledAt(books, ops, k))
            && (MisledAt(books, ops, k) <==>
                  && Disturbed(books, ops, outs, key, k)
                  && books[k].streams[key].lastText == SplitMessage(msg.text)[0])
  {
    var key := KeyOf(ops[k].msg);
    RunSound(books, ops, outs, k);
    FinalTextDelivered(books[k], key, ops[k].msg.text, outs[k].tries, outs[k].ids, books[k+1]);
    WrongExactly(books, ops, outs, key, k);
    hide Sound, Disturbed, FinalStep;
    assert Wrong(books[k], key) ==> key in books[k].streams;
  }

  // --- and afterwards ---

  // A message that is nobody's any more.
  ghost predicate Idle(b: Book, s: Slot) {
    s in b.screen.used && forall k :: k in b.streams ==> SlotOf(k, b.streams[k]) != s
  }

  ghost predicate Unchanged(a: Screen, b: Screen, s: Slot) {
    (s in b.shown <==> s in a.shown) && (s in a.shown ==> b.shown[s] == a.shown[s])
  }

  lemma IdleStep(a: Book, op: Op, o: Outcome, b: Book, s: Slot)
    requires Sound(a) && Step(a, op, o, b) && Idle(a, s)
    ensures Idle(b, s)
    ensures if op.Deleted? && s in op.slots then s !in b.screen.shown else Unchanged(a.screen, b.screen, s)
  {
    if !op.Deleted? {
      StepFrame(a, op, o, b);
      hide Step, Sound;
      assert s !in Touched(a, op);
    }
  }

  ghost predicate DeletedIn(ops: seq<Op>, i: nat, j: nat, s: Slot)
    requires i <= j <= |ops|
  {
    exists m :: i <= m < j && ops[m].Deleted? && s in ops[m].slots
  }

  lemma {:induction false} IdleStays(books: seq<Book>, ops: seq<Op>, outs: seq<Outcome>, i: nat, j: nat, s: Slot)
    requires IsRun(books, ops, outs) && i <= j <= |ops| && Idle(books[i], s)
    ensures Idle(books[j], s)
    ensures if DeletedIn(ops, i, j, s) then s !in books[j].screen.shown else Unchanged(books[i].screen, books[j].screen, s)
    decreases j
  {
    if i < j {
      hide Sound, Step, Idle;
      IdleStays(books, ops, outs, i, j - 1, s);
      RunSound(books, ops, outs, j - 1);
      IdleStep(books[j-1], ops[j-1], outs[j-1], books[j], s);
      assert DeletedIn(ops, i, j, s) <==> DeletedIn(ops, i, j - 1, s) || (ops[j-1].Deleted? && s in ops[j-1].slots);
    }
  }

  lemma AnswerIsIdle(a: Book, key: Key, text: string, tries: seq<seq<Call>>, ok: bool, ids: seq<int>, b: Book, i: nat)
    requires Sound(a) && FinalStep(a, key, text, tries, ok, ids, b) && i < |ids|
    ensures Idle(b, Slot(key.chat, ids[i]))
  {
    FinalEffect(a, key, text, tries, ok, ids, b);
    var s := Slot(key.chat, ids[i]);
    assert PartShown(a.screen, b.screen, key.chat, Record(a, key), Parts(key in a.streams, text)[i], i, ids[i]);
    hide DeliveredBy, AllPossible, AfterAll, Flatten;
  }

  // No message of an answer is ever changed again, unless somebody deletes it.
  lemma AnswersStay(books: seq<Book>, ops: seq<Op>, outs: seq<Outcome>, k: nat, m: nat, i: nat)
    requires IsRun(books, ops, outs) && IsFinal(ops, k) && i < |outs[k].ids| && k < m <= |ops|
    ensures var s := Slot(ops[k].msg.chat, outs[k].ids[i]);
            if DeletedIn(ops, k + 1, m, s) then s !in books[m].screen.shown
            else Unchanged(books[k+1].screen, books[m].screen, s)
  {
    RunSound(books, ops, outs, k);
    AnswerIsIdle(books[k], KeyOf(ops[k].msg), ops[k].msg.text, outs[k].tries, outs[k].ok, outs[k].ids, books[k+1], i);
    hide Sound, Step, Idle;
    IdleStays(books, ops, outs, k + 1, m, Slot(ops[k].msg.chat, outs[k].ids[i]));
  }

  // --- what a caller can check ---

  // Nothing is deleted, and no update loses an edit.
  ghost predicate Calm(ops: seq<Op>, outs: seq<Outcome>)
    requires |outs| == |ops|
  {
    forall k :: 0 <= k < |ops| ==> !ops[k].Deleted? && (|outs[k].tries| == 1 ==> !LostEdit(outs[k].tries[0]))
  }

  // In a calm run every final that returns normally is delivered in full, and still
  // shown at the end.
  lemma CalmRunsDeliver(books: seq<Book>, ops: seq<Op>, outs: seq<Outcome>, k: nat)
    requires IsRun(books, ops, outs) && Calm(ops, outs) && IsFinal(ops, k) && outs[k].ok
    ensures Shows(books[|ops|].screen.shown, ops[k].msg.chat, outs[k].ids, PartsAt(books, ops, k))
    ensures Concat(PartsAt(books, ops, k)) == ops[k].msg.text
  {
    FinalsDelivered(books, ops, outs, k);
    CalmIsUndisturbed(books, ops, outs, KeyOf(ops[k].msg), k);
    hide Disturbed, MisledAt, Step;
    forall i | 0 <= i < |outs[k].ids|
      ensures Unchanged(books[k+1].screen, books[|ops|].screen, Slot(ops[k].msg.chat, outs[k].ids[i]))
    {
      AnswersStay(books, ops, outs, k, |ops|, i);
    }
  }

  lemma CalmIsUndisturbed(books: seq<Book>, ops: seq<Op>, outs: seq<Outcome>, key: Key, k: nat)
    requires |books| == |ops| + 1 == |outs| + 1 && Calm(ops, outs) && k <= |ops|
    ensures !Disturbed(books, ops, outs, key, k)
  {
    forall j ensures !DisturbedAt(books, ops, outs, key, j, k) {
      hide LostEdit, Unwritten;
    }
  }

  // --- runs of the channel ---

  // All calls of a run, in order.
  ghost function CallsOf(outs: seq<Outcome>): seq<Call> {
    if outs == [] then [] else CallsOf(outs[..|outs|-1]) + Flatten(outs[|outs|-1].tries)
  }

  lemma CallsOfSnoc(outs: seq<Outcome>, o: Outcome)
    ensures CallsOf(outs + [o]) == CallsOf(outs) + Flatten(o.tries)
  {
    assert (outs + [o])[..|outs|] == outs;
  }

  lemma NoRun(b: Book)
    requires Start(b)
    ensures IsRun([b], [], []) && CallsOf([]) == []
  {}

  // Whatever happens in the chats, and however the platform answers, is a run, made of
  // the calls the platform has seen.
  method Serve(channel: TelegramChannel, ops: seq<Op>)
    returns (oks: seq<bool>, ghost books: seq<Book>, ghost outs: seq<Outcome>)
    requires channel.Valid() && Start(channel.View())
    modifies channel, channel.platform
    ensures channel.Valid() && IsRun(books, ops, outs)
    ensures books[0] == old(channel.View()) && books[|ops|] == channel.View()
    ensures channel.platform.log == old(channel.platform.log) + CallsOf(outs)
    ensures |oks| == |ops| && forall k :: 0 <= k < |ops| ==> oks[k] == outs[k].ok
    ensures forall k :: IsFinal(ops, k) && outs[k].ok ==> Accounted(books, ops, outs, k)
    ensures |channel.streams| <= 256
  {
    hide Step, Flatten, CallsOf, Accounted, IsRun, Start, Sound;
    books, outs, oks := [channel.View()], [], [];
    NoRun(channel.View());
    for k := 0 to |ops|
      invariant channel.Valid() && IsRun(books, ops[..k], outs) && |books| == k + 1 && |outs| == k
      invariant books[0] == old(channel.View()) && books[k] == channel.View()
      invariant channel.platform.log == old(channel.platform.log) + CallsOf(outs)
      invariant |oks| == k && forall i :: 0 <= i < k ==> oks[i] == outs[i].ok
    {
      ghost var o;
      var ok;
      ok, o := channel.Perform(ops[k]);
      RunSnoc(books, ops[..k], outs, ops[k], o, channel.View());
      assert ops[..k+1] == ops[..k] + [ops[k]];
      CallsOfSnoc(outs, o);
      books, outs, oks := books + [channel.View()], outs + [o], oks + [ok];
    }
    assert ops[..|ops|] == ops;
    AllAccounted(books, ops, outs);
    TrackedBounded(books, ops, outs, |ops|);
  }

  // The answer of operation k, from its final to the end of the run.
  ghost predicate Accounted(books: seq<Book>, ops: seq<Op>, outs: seq<Outcome>, k: nat)
    requires |books| == |ops| + 1 == |outs| + 1 && IsFinal(ops, k)
  {
    var msg, parts, ids, n := ops[k].msg, PartsAt(books, ops, k), outs[k].ids, |ops|;
    && Concat(parts) == msg.text && |ids| == |parts|
    && (Shows(books[k+1].screen.shown, msg.chat, ids, parts) <==> !MisledAt(books, ops, k))
    && forall i :: 0 <= i < |ids| ==>
                     var s := Slot(msg.chat, ids[i]);
                     if DeletedIn(ops, k + 1, n, s) then s !in books[n].screen.shown
                     else Unchanged(books[k+1].screen, books[n].screen, s)
  }

  lemma AllAccounted(books: seq<Book>, ops: seq<Op>, outs: seq<Outcome>)
    requires IsRun(books, ops, outs)
    ensures forall k :: IsFinal(ops, k) && outs[k].ok ==> Accounted(books, ops, outs, k)
  {
    forall k | IsFinal(ops, k) && outs[k].ok ensures Accounted(books, ops, outs, k) {
      OneAccounted(books, ops, outs, k);
    }
  }

  lemma OneAccounted(books: seq<Book>, ops: seq<Op>, outs: seq<Outcome>, k: nat)
    requires IsRun(books, ops, outs) && IsFinal(ops, k) && outs[k].ok
    ensures Accounted(books, ops, outs, k)
  {
    FinalsDelivered(books, ops, outs, k);
    assert FinalStep(books[k], KeyOf(ops[k].msg), ops[k].msg.text, outs[k].tries, outs[k].ok, outs[k].ids, books[k+1]);
    forall i | 0 <= i < |outs[k].ids|
      ensures var s := Slot(ops[k].msg.chat, outs[k].ids[i]);
              if DeletedIn(ops, k + 1, |ops|, s) then s !in books[|ops|].screen.shown
              else Unchanged(books[k+1].screen, books[|ops|].screen, s)
    {
      AnswersStay(books, ops, outs, k, |ops|, i);
    }
    hide Disturbed, MisledAt, Shows, DeletedIn, Unchanged;
  }

  lemma RunSnoc(books: seq<Book>, ops: seq<Op>, outs: seq<Outcome>, op: Op, o: Outcome, b: Book)
    requires IsRun(books, ops, outs) && Step(books[|ops|], op, o, b)
    ensures IsRun(books + [b], ops + [op], outs + [o])
  {
    hide Step;
    var bs, os, us := books + [b], ops + [op], outs + [o];
    forall k | 0 <= k < |os| ensures Step(bs[k], os[k], us[k], bs[k+1]) {
      if k < |ops| {
        assert Step(books[k], ops[k], outs[k], books[k+1]);
      }
    }
  }

  // --- runs in which a final text is not delivered ---

  ghost function Update(key: Key, text: string, now: real): Op {
    Publish(Outbound(key.chat, key.thread, text, false), now, now)
  }

  ghost function Final(key: Key, text: string): Op {
    Publish(Outbound(key.chat, key.thread, text, true), 0.0, 0.0)
  }

  predicate OneMessage(text: string) {
    0 < |text| <= MAX_MESSAGE_LENGTH
  }

  lemma OneMessageParts(text: string)
    requires OneMessage(text)
    ensures Display(text) == text && SplitMessage(text) == [text]
  {
    assert ChunkCount(|text|) == 1 && ChunkEnd(|text|, 0) == |text|;
    assert text[0..|text|] == text;
  }

  // The channel after its first update of a conversation.
  ghost function Streaming(key: Key, id: int, text: string, shown: map<Slot, string>): Book {
    Book(Screen(shown, {Slot(key.chat, id)}), map[key := StreamState(id, 0.0, text)], [key])
  }

  lemma FirstUpdate(key: Key, id: int, text: string)
    requires OneMessage(text)
    ensures var slot, o := Slot(key.chat, id), Outcome(true, [], [[Sending(key.chat, text, Some(id), true)]]);
            Step(Book(Screen(map[], {}), map[], []), Update(key, text, 0.0), o, Streaming(key, id, text, map[slot := text]))
  {
    OneMessageParts(text);
    var a, c := Book(Screen(map[], {}), map[], []), Sending(key.chat, text, Some(id), true);
    OneCall(a.screen, c);
    var b := Streaming(key, id, text, map[Slot(key.chat, id) := text]);
    assert After(a.screen, c) == b.screen;
    assert Without([], key) == [] && Newest([]) == [] && [] + [key] == [key];
    assert Among(map[], []) == map[];
  }

  // An edit that takes effect but raises, and a resend that raises.
  lemma LostUpdate(key: Key, id: int, first: string, second: string)
    requires OneMessage(first) && OneMessage(second) && first != second
    ensures var slot := Slot(key.chat, id);
            var calls := [Editing(key.chat, second, id, true, EditFailed), Sending(key.chat, second, None, false)];
            Step(Streaming(key, id, first, map[slot := first]), Update(key, second, 3.0), Outcome(true, [], [calls]),
                 Streaming(key, id, first, map[slot := second]))
            && LostEdit(calls)
  {
    OneMessageParts(second);
    var slot, a := Slot(key.chat, id), Streaming(key, id, first, map[Slot(key.chat, id) := first]);
    var c, d := Editing(key.chat, second, id, true, EditFailed), Sending(key.chat, second, None, false);
    OneCall(a.screen, c);
    CallsSnoc(a.screen, [c], d);
    assert [c] + [d] == [c, d];
    assert After(After(a.screen, c), d).shown == map[slot := second];
    assert a.streams[key := a.streams[key]] == a.streams;
  }

  // A final text that equals the record is taken to be shown.
  lemma FinalAsRecorded(key: Key, id: int, text: string, shown: map<Slot, string>)
    requires OneMessage(text)
    ensures Step(Streaming(key, id, text, shown), Final(key, text), Outcome(true, [id], [[]]),
                 Book(Screen(shown, {Slot(key.chat, id)}), map[], []))
  {
    OneMessageParts(text);
    var a := Streaming(key, id, text, shown);
    assert Flatten([[]]) == [] by {
      OneTryFlat([]);
    }
    assert a.streams - {key} == map[] && Without([key], key) == [];
    assert FirstTry([], key.chat, a.streams[key], text, Some(id));
  }

  lemma ThreeSteps(books: seq<Book>, ops: seq<Op>, outs: seq<Outcome>)
    requires |books| == 4 && |ops| == |outs| == 3 && Start(books[0])
    requires Step(books[0], ops[0], outs[0], books[1]) && Step(books[1], ops[1], outs[1], books[2])
    requires Step(books[2], ops[2], outs[2], books[3])
    ensures IsRun(books, ops, outs)
  {
    hide Step;
  }

  // First message, an edit to another text that is lost, and the first text again as
  // the final one: it returns normally, and the message goes on showing the other.
  lemma LostEditMisleads(key: Key, id: int, first: string, second: string)
    returns (books: seq<Book>, ops: seq<Op>, outs: seq<Outcome>)
    requires OneMessage(first) && OneMessage(second) && first != second
    ensures IsRun(books, ops, outs) && ops == [Update(key, first, 0.0), Update(key, second, 3.0), Final(key, first)]
    ensures outs[2].ok && MisledAt(books, ops, 2)
    ensures books[3].screen.shown == map[Slot(key.chat, id) := second]
    ensures !Shows(books[3].screen.shown, key.chat, outs[2].ids, [first])
  {
    var slot := Slot(key.chat, id);
    FirstUpdate(key, id, first);
    LostUpdate(key, id, first, second);
    FinalAsRecorded(key, id, first, map[slot := second]);
    OneMessageParts(first);
    ops := [Update(key, first, 0.0), Update(key, second, 3.0), Final(key, first)];
    outs := [Outcome(true, [], [[Sending(key.chat, first, Some(id), true)]]),
             Outcome(true, [], [[Editing(key.chat, second, id, true, EditFailed), Sending(key.chat, second, None, false)]]),
             Outcome(true, [id], [[]])];
    books := [Book(Screen(map[], {}), map[], []), Streaming(key, id, first, map[slot := first]),
              Streaming(key, id, first, map[slot := second]), Book(Screen(map[slot := second], {slot}), map[], [])];
    hide Step, SplitMessage;
    ThreeSteps(books, ops, outs);
    hide IsRun;
  }

  // First message, somebody deletes it, and the same text as the final one: it
  // returns normally, and nothing is shown.
  lemma DeletionMisleads(key: Key, id: int, text: string) returns (books: seq<Book>, ops: seq<Op>, outs: seq<Outcome>)
    requires OneMessage(text)
    ensures IsRun(books, ops, outs)
    ensures ops == [Update(key, text, 0.0), Deleted({Slot(key.chat, id)}), Final(key, text)]
    ensures outs[2].ok && MisledAt(books, ops, 2)
    ensures books[3].screen.shown == map[]
    ensures !Shows(books[3].screen.shown, key.chat, outs[2].ids, [text])
  {
    var slot := Slot(key.chat, id);
    FirstUpdate(key, id, text);
    FinalAsRecorded(key, id, text, map[]);
    OneMessageParts(text);
    ops := [Update(key, text, 0.0), Deleted({slot}), Final(key, text)];
    outs := [Outcome(true, [], [[Sending(key.chat, text, Some(id), true)]]), Outcome(true, [], []),
             Outcome(true, [id], [[]])];
    books := [Book(Screen(map[], {}), map[], []), Streaming(key, id, text, map[slot := text]),
              Streaming(key, id, text, map[]), Book(Screen(map[], {slot}), map[], [])];
    assert map[slot := text] - {slot} == map[];
    assert Step(books[1], ops[1], outs[1], books[2]);
    hide Step, SplitMessage;
    ThreeSteps(books, ops, outs);
    hide IsRun;
  }
}
