// Streamed replies on Telegram: one bot message per conversation is edited in
// place while the answer grows, and finished by the final text.
module TelegramStream {
  import opened Wrappers
  import opened Sequences

  const MAX_MESSAGE_LENGTH := 4096
  const MAX_TRACKED := 256
  const MAX_RETRIES := 3
  const MIN_INTERVAL := 1.0
  const GROUP_MIN_INTERVAL := 3.0
  const RUNNING_REPLY := "Working on it..."

  // A message on the platform; ids are per chat.
  datatype Slot = Slot(chat: int, id: int)

  // The stream key: a chat and the message in it that is being answered.
  datatype Key = Key(chat: int, thread: string)

  datatype StreamState = StreamState(messageId: int, lastEditAt: real, lastText: string)

  datatype Outbound = Outbound(chat: int, thread: string, text: string, isFinal: bool)

  // --- splitting ---

  function ChunkCount(n: nat): nat {
    if n == 0 then 1 else (n + MAX_MESSAGE_LENGTH - 1) / MAX_MESSAGE_LENGTH
  }

  function ChunkEnd(n: nat, i: nat): nat {
    if (i + 1) * MAX_MESSAGE_LENGTH < n then (i + 1) * MAX_MESSAGE_LENGTH else n
  }

  function SplitMessage(text: string): (chunks: seq<string>)
    ensures |chunks| >= 1 && forall i :: 0 <= i < |chunks| ==> |chunks[i]| <= MAX_MESSAGE_LENGTH
  {
    seq(ChunkCount(|text|), i requires 0 <= i < ChunkCount(|text|) =>
      text[i * MAX_MESSAGE_LENGTH .. ChunkEnd(|text|, i)])
  }

  // The chunks are the text, cut at multiples of the maximal length.
  lemma {:induction false} SplitJoins(text: string, k: nat)
    requires k <= ChunkCount(|text|)
    ensures Concat(SplitMessage(text)[..k]) == text[..if k == 0 then 0 else ChunkEnd(|text|, k - 1)]
    decreases k
  {
    if k > 0 {
      var chunks := SplitMessage(text);
      SplitJoins(text, k - 1);
      assert chunks[..k][..k-1] == chunks[..k-1] && chunks[..k][k-1] == chunks[k-1];
    }
  }

  lemma SplitIsExact(text: string)
    ensures Concat(SplitMessage(text)) == text
    ensures forall i :: 0 <= i < |SplitMessage(text)| - 1 ==> |SplitMessage(text)[i]| == MAX_MESSAGE_LENGTH
    ensures text != "" ==> forall i :: 0 <= i < |SplitMessage(text)| ==> SplitMessage(text)[i] != ""
  {
    var n := ChunkCount(|text|);
    SplitJoins(text, n);
    assert SplitMessage(text)[..n] == SplitMessage(text);
    assert text[..|text|] == text;
  }

  function Display(text: string): (d: string)
    ensures |d| <= MAX_MESSAGE_LENGTH
  {
    if |text| > MAX_MESSAGE_LENGTH then text[..MAX_MESSAGE_LENGTH - 1] + "\U{2026}" else text
  }

  // d is what is shown of a partial text: all of it, or as much as fits in front of an
  // ellipsis.
  ghost predicate IsShownAs(text: string, d: string) {
    if |text| <= 4096 then d == text
    else |d| == 4096 && d[..4095] <= text && d[4095] == '\U{2026}'
  }

  lemma DisplayExactly(text: string, d: string)
    ensures IsShownAs(text, d) <==> d == Display(text)
  {
    if |text| > 4096 && |d| == 4096 {
      assert d == d[..4095] + [d[4095]];
      assert Display(text)[..4095] == text[..4095] && Display(text)[4095] == '\U{2026}';
      if IsShownAs(text, d) {
        assert d[..4095] == text[..4095];
      }
    }
  }

  // --- the platform ---

  // What each message currently shows; used are the messages there ever were, for a
  // message can be deleted by the people in the chat.
  datatype Screen = Screen(shown: map<Slot, string>, used: set<Slot>)

  datatype EditReply = Edited | NotModified | RetryAfter | EditFailed

  // A call, what it did and what it answered. A call that raises may still have
  // taken effect: its answer can be lost on the way back.
  datatype Call =
    | Sending(chat: int, text: string, made: Option<int>, answered: bool)
    | Editing(chat: int, text: string, id: int, applied: bool, reply: EditReply)

  // The id a sending call answers; None is an exception.
  function Sent(c: Call): Option<int>
    requires c.Sending?
  {
    if c.answered then c.made else None
  }

  // What the platform may do: new messages are new, only what is shown can be
  // edited, and not modified is answered only when the message shows that text.
  ghost predicate Possible(s: Screen, c: Call) {
    if c.Sending? then c.made.Some? ==> Slot(c.chat, c.made.value) !in s.used
    else
      var slot := Slot(c.chat, c.id);
      && (c.applied ==> slot in s.shown && (c.reply.Edited? || c.reply.EditFailed?))
      && (c.reply.Edited? ==> c.applied)
      && (c.reply.NotModified? ==> slot in s.shown && s.shown[slot] == c.text)
  }

  ghost function After(s: Screen, c: Call): Screen {
    if c.Sending? then
      if c.made.None? then s
      else Screen(s.shown[Slot(c.chat, c.made.value) := c.text], s.used + {Slot(c.chat, c.made.value)})
    else if c.applied then s.(shown := s.shown[Slot(c.chat, c.id) := c.text])
    else s
  }

  ghost function AfterAll(s: Screen, calls: seq<Call>): Screen {
    if calls == [] then s else After(AfterAll(s, calls[..|calls|-1]), calls[|calls|-1])
  }

  ghost predicate AllPossible(s: Screen, calls: seq<Call>) {
    calls == []
    || (AllPossible(s, calls[..|calls|-1]) && Possible(AfterAll(s, calls[..|calls|-1]), calls[|calls|-1]))
  }

  lemma CallsSnoc(s: Screen, calls: seq<Call>, c: Call)
    ensures AfterAll(s, calls + [c]) == After(AfterAll(s, calls), c)
    ensures AllPossible(s, calls + [c]) <==> AllPossible(s, calls) && Possible(AfterAll(s, calls), c)
  {
    assert (calls + [c])[..|calls|] == calls;
  }

  lemma OneCall(s: Screen, c: Call)
    ensures AfterAll(s, [c]) == After(s, c) && (AllPossible(s, [c]) <==> Possible(s, c))
  {
    CallsSnoc(s, [], c);
    assert [] + [c] == [c];
  }

  lemma {:induction false} CallsConcat(s: Screen, a: seq<Call>, b: seq<Call>)
    ensures AfterAll(s, a + b) == AfterAll(AfterAll(s, a), b)
    ensures AllPossible(s, a + b) <==> AllPossible(s, a) && AllPossible(AfterAll(s, a), b)
    decreases |b|
  {
    if b == [] {
      assert a + b == a;
    } else {
      var init, last := b[..|b|-1], b[|b|-1];
      CallsConcat(s, a, init);
      assert a + b == (a + init) + [last] && b == init + [last];
      CallsSnoc(s, a + init, last);
      CallsSnoc(AfterAll(s, a), init, last);
    }
  }

  class Platform {
    var shown: map<Slot, string>
    var nextId: int
    ghost var used: set<Slot>
    ghost var log: seq<Call>

    ghost function View(): Screen
      reads this
    {
      Screen(shown, used)
    }

    ghost predicate Valid()
      reads this
    {
      shown.Keys <= used && nextId > 0 && forall s :: s in used ==> s.id < nextId
    }

    // These calls have been made since the screen and the log were as given.
    ghost predicate Went(screen: Screen, earlier: seq<Call>, calls: seq<Call>)
      reads this
    {
      log == earlier + calls && AllPossible(screen, calls) && View() == AfterAll(screen, calls)
    }

    constructor ()
      ensures Valid() && View() == Screen(map[], {}) && log == []
    {
      shown, used := map[], {};
      nextId := 1;
      log := [];
    }

    // A new message, or an exception.
    method SendMessage(chat: int, text: string) returns (id: Option<int>, ghost call: Call)
      requires Valid()
      modifies this
      ensures Valid() && Went(old(View()), old(log), [call])
      ensures call.Sending? && call.chat == chat && call.text == text && id == Sent(call)
    {
      var sent: bool, answered: bool := *, *;
      id := None;
      call := Sending(chat, text, None, false);
      if sent {
        call := Sending(chat, text, Some(nextId), answered);
        shown := shown[Slot(chat, nextId) := text];
        used := used + {Slot(chat, nextId)};
        if answered {
          id := Some(nextId);
        }
        nextId := nextId + 1;
      }
      log := log + [call];
      OneCall(old(View()), call);
      hide AfterAll, AllPossible;
    }

    method EditMessage(chat: int, id: int, text: string) returns (reply: EditReply, ghost call: Call)
      requires Valid()
      modifies this
      ensures Valid() && Went(old(View()), old(log), [call])
      ensures call.Editing? && call == Editing(chat, text, id, call.applied, reply)
    {
      var applied: bool, answered: bool, limited: bool := *, *, *;
      var slot := Slot(chat, id);
      reply := EditFailed;
      call := Editing(chat, text, id, false, EditFailed);
      if limited {
        reply := RetryAfter;
        call := Editing(chat, text, id, false, RetryAfter);
      } else if slot in shown {
        if shown[slot] == text && answered {
          reply := NotModified;
          call := Editing(chat, text, id, false, NotModified);
        } else if applied {
          shown := shown[slot := text];
          reply := if answered then Edited else EditFailed;
          call := Editing(chat, text, id, true, reply);
        }
      }
      log := log + [call];
      OneCall(old(View()), call);
      hide AfterAll, AllPossible;
    }

    // Somebody deletes messages.
    method Delete(slots: set<Slot>)
      requires Valid()
      modifies this`shown
      ensures Valid() && View() == old(View()).(shown := old(shown) - slots)
    {
      shown := shown - slots;
    }
  }

  // --- what the channel records ---

  // The screen, the tracked streams, and their keys in order of registration.
  datatype Book = Book(screen: Screen, streams: map<Key, StreamState>, order: seq<Key>)

  // Groups (negative chat ids) are paced more slowly.
  function Interval(chat: int): real {
    if chat < 0 then GROUP_MIN_INTERVAL else MIN_INTERVAL
  }

  ghost function SlotOf(key: Key, state: StreamState): Slot {
    Slot(key.chat, state.messageId)
  }

  // The order lists the tracked keys once each, and there is a bound on them.
  ghost predicate Registered(streams: map<Key, StreamState>, order: seq<Key>) {
    Distinct(order) && |order| <= MAX_TRACKED && streams.Keys == set k | k in order
  }

  // No two keys share a message.
  ghost predicate Apart(streams: map<Key, StreamState>) {
    forall k, l :: k in streams && l in streams && k != l ==> SlotOf(k, streams[k]) != SlotOf(l, streams[l])
  }

  ghost predicate Known(streams: map<Key, StreamState>, used: set<Slot>) {
    forall k :: k in streams ==> SlotOf(k, streams[k]) in used && |streams[k].lastText| <= MAX_MESSAGE_LENGTH
  }

  ghost predicate Sound(b: Book) {
    && b.screen.shown.Keys <= b.screen.used
    && Registered(b.streams, b.order) && Apart(b.streams) && Known(b.streams, b.screen.used)
  }

  // The registration order without one key, and what stays of a full table.
  ghost function Without(order: seq<Key>, key: Key): seq<Key> {
    if order == [] then []
    else if order[0] == key then order[1..]
    else [order[0]] + Without(order[1..], key)
  }

  ghost function Newest(order: seq<Key>): seq<Key> {
    if |order| >= MAX_TRACKED then order[|order| - MAX_TRACKED + 1..] else order
  }

  ghost function Among(streams: map<Key, StreamState>, order: seq<Key>): map<Key, StreamState> {
    map k | k in streams && k in order :: streams[k]
  }

  // The book with a key tracked last; the oldest ones make room.
  ghost function Tracking(b: Book, key: Key, state: StreamState): Book {
    var kept := Newest(Without(b.order, key));
    b.(streams := Among(b.streams, kept)[key := state], order := kept + [key])
  }

  lemma {:induction false} WithoutAt(order: seq<Key>, i: nat)
    requires Distinct(order) && i < |order|
    ensures Without(order, order[i]) == order[..i] + order[i+1..]
    decreases |order|
  {
    if i > 0 {
      assert Distinct(order[1..]);
      WithoutAt(order[1..], i - 1);
    }
  }

  lemma {:induction false} WithoutNone(order: seq<Key>, key: Key)
    requires key !in order
    ensures Without(order, key) == order
    decreases |order|
  {
    if order != [] {
      WithoutNone(order[1..], key);
    }
  }

  lemma CutMembers(order: seq<Key>, i: nat)
    requires Distinct(order) && i < |order|
    ensures var rest := order[..i] + order[i+1..];
            Distinct(rest) && forall k :: k in rest <==> k in order && k != order[i]
  {
    var rest := order[..i] + order[i+1..];
    assert forall j :: 0 <= j < |rest| ==> rest[j] == order[if j < i then j else j + 1];
    forall k | k in order && k != order[i] ensures k in rest {
      var j :| 0 <= j < |order| && order[j] == k;
      assert rest[if j < i then j else j - 1] == k;
    }
  }

  lemma WithoutMembers(order: seq<Key>, key: Key)
    requires Distinct(order)
    ensures Distinct(Without(order, key)) && forall k :: k in Without(order, key) <==> k in order && k != key
    ensures |Without(order, key)| == if key in order then |order| - 1 else |order|
  {
    if i :| 0 <= i < |order| && order[i] == key {
      WithoutAt(order, i);
      CutMembers(order, i);
    } else {
      WithoutNone(order, key);
    }
    hide Without;
  }

  lemma DropRegistered(streams: map<Key, StreamState>, order: seq<Key>, key: Key)
    requires Registered(streams, order)
    ensures Registered(streams - {key}, Without(order, key))
    ensures |Without(order, key)| == if key in streams then |order| - 1 else |order|
  {
    WithoutMembers(order, key);
    assert key in streams <==> key in streams.Keys;
  }

  lemma DropSound(b: Book, key: Key)
    requires Sound(b)
    ensures Sound(b.(streams := b.streams - {key}, order := Without(b.order, key)))
    ensures |Without(b.order, key)| == if key in b.streams then |b.order| - 1 else |b.order|
  {
    hide Without;
    DropRegistered(b.streams, b.order, key);
    hide Registered;
  }

  lemma AppendSound(b: Book, key: Key, state: StreamState)
    requires Sound(b) && key !in b.streams && |b.order| < MAX_TRACKED
    requires SlotOf(key, state) in b.screen.used && |state.lastText| <= MAX_MESSAGE_LENGTH
    requires forall k :: k in b.streams ==> SlotOf(k, b.streams[k]) != SlotOf(key, state)
    ensures Sound(b.(streams := b.streams[key := state], order := b.order + [key]))
  {}

  // --- the calls of one outbound message ---

  ghost predicate SendsText(c: Call, chat: int, text: string) {
    c.Sending? && c.chat == chat && c.text == text
  }

  // At most n attempts at sending a text, each but a successful last one refused.
  ghost predicate Attempts(calls: seq<Call>, chat: int, text: string, n: nat, id: Option<int>) {
    && |calls| <= n && (if id.None? then |calls| == n else calls != [])
    && (forall i :: 0 <= i < |calls| ==> SendsText(calls[i], chat, text))
    && (forall i :: 0 <= i < |calls| - 1 ==> Sent(calls[i]) == None)
    && (calls != [] ==> Sent(calls[|calls|-1]) == id)
  }

  lemma AttemptsSnoc(calls: seq<Call>, c: Call, chat: int, text: string, n: nat)
    requires Attempts(calls, chat, text, n, None) && SendsText(c, chat, text)
    ensures Attempts(calls + [c], chat, text, n + 1, Sent(c))
  {
    var all := calls + [c];
    assert forall i :: 0 <= i < n ==> all[i] == calls[i] && Sent(calls[i]) == None;
  }

  lemma AttemptsMore(calls: seq<Call>, chat: int, text: string, n: nat, m: nat, id: Option<int>)
    requires Attempts(calls, chat, text, n, id) && id.Some? && n <= m
    ensures Attempts(calls, chat, text, m, id)
  {}

  ghost predicate Edits(c: Call, chat: int, id: int, text: string) {
    c.Editing? && c.chat == chat && c.id == id && c.text == text
  }

  ghost predicate TookEffect(reply: EditReply) {
    reply.Edited? || reply.NotModified?
  }

  // One edit, and another one exactly after a rate limit.
  ghost predicate FinalEdit(calls: seq<Call>, chat: int, id: int, text: string, edited: bool) {
    && 1 <= |calls| <= 2
    && (forall i :: 0 <= i < |calls| ==> Edits(calls[i], chat, id, text))
    && (|calls| == 2 <==> calls[0].reply.RetryAfter?)
    && (edited <==> TookEffect(calls[|calls|-1].reply))
  }

  // Enough time has passed, and there is something new to show.
  ghost predicate Due(state: StreamState, chat: int, display: string, now: real) {
    now - state.lastEditAt >= Interval(chat) && display != state.lastText
  }

  // The calls of a further update, and what is recorded after them.
  ghost predicate EditCalls(calls: seq<Call>, chat: int, state: StreamState, display: string) {
    && calls != [] && Edits(calls[0], chat, state.messageId, display)
    && (calls[0].reply.EditFailed? ==> |calls| == 2 && SendsText(calls[1], chat, display))
    && (!calls[0].reply.EditFailed? ==> |calls| == 1)
  }

  ghost function AfterEdit(state: StreamState, chat: int, display: string, calls: seq<Call>, later: real): StreamState
    requires EditCalls(calls, chat, state, display)
  {
    if calls[0].reply.NotModified? then state.(lastText := display)
    else if calls[0].reply.RetryAfter? then state
    else if calls[0].reply.Edited? then state.(lastEditAt := later, lastText := display)
    else if Sent(calls[1]).None? then state
    else StreamState(Sent(calls[1]).value, later, display)
  }

  // What a partial answer does: nothing when there is nothing new to show or it is
  // too early; else an edit, a resend if that fails, or a first message.
  ghost predicate UpdateStep(a: Book, key: Key, text: string, now: real, later: real, calls: seq<Call>, b: Book) {
    var display, next := Display(text), a.(screen := AfterAll(a.screen, calls));
    && AllPossible(a.screen, calls)
    && if text == "" || (key in a.streams && !Due(a.streams[key], key.chat, display, now)) then calls == [] && b == a
       else if key in a.streams then
         && EditCalls(calls, key.chat, a.streams[key], display)
         && b == next.(streams := a.streams[key := AfterEdit(a.streams[key], key.chat, display, calls, later)])
       else
         && |calls| == 1 && SendsText(calls[0], key.chat, display)
         && b == if Sent(calls[0]).None? then next
                 else Tracking(next, key, StreamState(Sent(calls[0]).value, later, display))
  }

  // A reply that announces the answer, and is tracked as the message to stream into.
  ghost predicate RunningStep(a: Book, key: Key, calls: seq<Call>, ok: bool, b: Book) {
    && AllPossible(a.screen, calls) && |calls| == 1 && SendsText(calls[0], key.chat, RUNNING_REPLY)
    && ok == Sent(calls[0]).Some?
    && var next := a.(screen := AfterAll(a.screen, calls));
       b == if ok then Tracking(next, key, StreamState(Sent(calls[0]).value, 0.0, RUNNING_REPLY)) else next
  }

  // The parts a final text is delivered in.
  function Parts(tracked: bool, text: string): (parts: seq<string>)
    ensures parts != []
  {
    if tracked then SplitMessage(text) else [text]
  }

  // How the first chunk of a tracked stream is delivered: without any call when it
  // is recorded to be shown; otherwise it is edited in, or sent afresh when that
  // took no effect.
  ghost predicate FirstTry(calls: seq<Call>, chat: int, state: StreamState, chunk: string, id: Option<int>) {
    if chunk == state.lastText then calls == [] && id == Some(state.messageId)
    else if id == Some(state.messageId) && FinalEdit(calls, chat, state.messageId, chunk, true) then true
    else exists n :: 0 <= n <= |calls| && ResentAfter(calls, n, chat, state, chunk, id)
  }

  ghost predicate ResentAfter(calls: seq<Call>, n: nat, chat: int, state: StreamState, chunk: string, id: Option<int>)
    requires n <= |calls|
  {
    && FinalEdit(calls[..n], chat, state.messageId, chunk, false)
    && Attempts(calls[n..], chat, chunk, MAX_RETRIES, id)
  }

  // The calls for part i of a final text.
  ghost predicate Try(calls: seq<Call>, i: nat, chat: int, state: Option<StreamState>, part: string, id: Option<int>) {
    if state.Some? && i == 0 then FirstTry(calls, chat, state.value, part, id)
    else Attempts(calls, chat, part, MAX_RETRIES, id)
  }

  // Part after part is delivered, up to the first that is refused for good. ids are
  // the messages the answer now consists of.
  ghost predicate Tries(tries: seq<seq<Call>>, chat: int, state: Option<StreamState>, parts: seq<string>,
                        ok: bool, ids: seq<int>)
  {
    && |ids| <= |parts| && (ok <==> |ids| == |parts|) && |tries| == (if ok then |ids| else |ids| + 1)
    && forall i :: 0 <= i < |tries| ==>
                     Try(tries[i], i, chat, state, parts[i], if i < |ids| then Some(ids[i]) else None)
  }

  ghost function Flatten(tries: seq<seq<Call>>): seq<Call> {
    if tries == [] then [] else Flatten(tries[..|tries|-1]) + tries[|tries|-1]
  }

  ghost function Record(b: Book, key: Key): Option<StreamState> {
    if key in b.streams then Some(b.streams[key]) else None
  }

  // A final text: its key is forgotten, and its parts are tried in turn.
  ghost predicate FinalStep(a: Book, key: Key, text: string, tries: seq<seq<Call>>, ok: bool, ids: seq<int>, b: Book) {
    && AllPossible(a.screen, Flatten(tries))
    && Tries(tries, key.chat, Record(a, key), Parts(key in a.streams, text), ok, ids)
    && b == Book(AfterAll(a.screen, Flatten(tries)), a.streams - {key}, Without(a.order, key))
  }

  // --- one operation ---

  datatype Op =
    | Publish(msg: Outbound, now: real, later: real)
    | Running(chat: int, replyTo: string)
    | Deleted(slots: set<Slot>)

  // Whether the operation returned normally, the messages of a final answer, and the
  // calls made, part by part.
  datatype Outcome = Outcome(ok: bool, ids: seq<int>, tries: seq<seq<Call>>)

  ghost function KeyOf(msg: Outbound): Key {
    Key(msg.chat, msg.thread)
  }

  ghost predicate Step(a: Book, op: Op, o: Outcome, b: Book) {
    if op.Deleted? then
      b == a.(screen := a.screen.(shown := a.screen.shown - op.slots)) && o == Outcome(true, [], [])
    else if op.Running? then
      o.ids == [] && |o.tries| == 1 && RunningStep(a, Key(op.chat, op.replyTo), o.tries[0], o.ok, b)
    else if op.msg.isFinal then
      FinalStep(a, KeyOf(op.msg), op.msg.text, o.tries, o.ok, o.ids, b)
    else
      && o.ok && o.ids == [] && |o.tries| == 1
      && UpdateStep(a, KeyOf(op.msg), op.msg.text, op.now, op.later, o.tries[0], b)
  }

  // --- what calls leave alone ---

  // b shows what a shows, except for some messages and for new ones; what a no
  // longer shows stays away.
  ghost predicate KeepsBut(a: Screen, b: Screen, except: set<Slot>) {
    && a.used <= b.used
    && forall s :: s in a.used ==>
                     && (s in b.shown <==> s in a.shown)
                     && (s in a.shown && s !in except ==> b.shown[s] == a.shown[s])
  }

  ghost predicate Proper(s: Screen) {
    s.shown.Keys <= s.used
  }

  ghost function EditedSlots(calls: seq<Call>): set<Slot> {
    set c | c in calls && c.Editing? :: Slot(c.chat, c.id)
  }

  lemma CallKeeps(s: Screen, c: Call)
    requires Proper(s) && Possible(s, c)
    ensures Proper(After(s, c)) && KeepsBut(s, After(s, c), EditedSlots([c]))
  {
    assert c.Editing? ==> c in [c];
  }

  lemma KeepsTrans(a: Screen, b: Screen, c: Screen, except: set<Slot>, more: set<Slot>)
    requires KeepsBut(a, b, except) && KeepsBut(b, c, more) && more <= except
    ensures KeepsBut(a, c, except)
  {}

  lemma {:induction false} CallsKeep(s: Screen, calls: seq<Call>, except: set<Slot>)
    requires Proper(s) && AllPossible(s, calls) && EditedSlots(calls) <= except
    ensures Proper(AfterAll(s, calls)) && KeepsBut(s, AfterAll(s, calls), except)
    decreases |calls|
  {
    if calls != [] {
      var init, last := calls[..|calls|-1], calls[|calls|-1];
      assert EditedSlots(init) <= EditedSlots(calls) && EditedSlots([last]) <= EditedSlots(calls);
      CallsKeep(s, init, except);
      CallKeeps(AfterAll(s, init), last);
      hide Possible, After, KeepsBut;
      KeepsTrans(s, AfterAll(s, init), AfterAll(s, calls), except, EditedSlots([last]));
    }
  }

  lemma ScreenSound(b: Book, calls: seq<Call>)
    requires Sound(b) && AllPossible(b.screen, calls)
    ensures Sound(b.(screen := AfterAll(b.screen, calls)))
    ensures b.screen.used <= AfterAll(b.screen, calls).used
  {
    hide Registered, Apart, AfterAll, AllPossible;
    CallsKeep(b.screen, calls, EditedSlots(calls));
  }

  lemma NewestMembers(order: seq<Key>)
    requires Distinct(order)
    ensures Distinct(Newest(order)) && |Newest(order)| < MAX_TRACKED && forall k :: k in Newest(order) ==> k in order
  {}

  lemma AmongOthers(streams: map<Key, StreamState>, order: seq<Key>, key: Key)
    requires Distinct(order)
    ensures Among(streams - {key}, Newest(Without(order, key))) == Among(streams, Newest(Without(order, key)))
  {
    WithoutMembers(order, key);
    NewestMembers(Without(order, key));
    hide Without, Newest;
  }

  lemma TrackingSound(b: Book, key: Key, state: StreamState)
    requires Sound(b) && SlotOf(key, state) in b.screen.used && |state.lastText| <= MAX_MESSAGE_LENGTH
    requires forall k :: k in b.streams && k != key ==> SlotOf(k, b.streams[k]) != SlotOf(key, state)
    ensures Sound(Tracking(b, key, state))
  {
    var rest := Without(b.order, key);
    WithoutMembers(b.order, key);
    NewestMembers(rest);
    var kept := Newest(rest);
    hide Without, Newest;
    var streams := Among(b.streams, kept);
    assert streams.Keys == set k | k in kept;
    AppendSound(Book(b.screen, streams, kept), key, state);
  }

  // Only the messages of its own key are ever edited, and new messages are nobody's.
  lemma NewIsNobodys(b: Book, slot: Slot)
    requires Sound(b) && slot !in b.screen.used
    ensures forall k :: k in b.streams ==> SlotOf(k, b.streams[k]) != slot
  {}

  // A message that has just been sent can be tracked.
  lemma SentIsNew(b: Book, calls: seq<Call>, key: Key, state: StreamState)
    requires Sound(b) && calls != [] && AllPossible(b.screen, calls) && calls[|calls|-1].Sending?
    requires Sent(calls[|calls|-1]) == Some(state.messageId) && calls[|calls|-1].chat == key.chat
    requires |state.lastText| <= MAX_MESSAGE_LENGTH
    ensures SlotOf(key, state) !in b.screen.used && SlotOf(key, state) in AfterAll(b.screen, calls).used
    ensures SlotOf(key, state) in AfterAll(b.screen, calls).shown
    ensures AfterAll(b.screen, calls).shown[SlotOf(key, state)] == calls[|calls|-1].text
  {
    var init := calls[..|calls|-1];
    ScreenSound(b, init);
    hide Sound;
  }

  lemma {:induction false} OneTryFlat(calls: seq<Call>)
    ensures Flatten([calls]) == calls
  {
    assert [calls][..0] == [];
    assert [] + calls == calls;
  }

  lemma FlattenSnoc(tries: seq<seq<Call>>, calls: seq<Call>)
    ensures Flatten(tries + [calls]) == Flatten(tries) + calls
  {
    assert (tries + [calls])[..|tries|] == tries;
  }

  // --- soundness along the way ---

  lemma SameRecordSound(b: Book, calls: seq<Call>)
    requires Sound(b) && AllPossible(b.screen, calls)
    ensures Sound(b.(screen := AfterAll(b.screen, calls)))
  {
    ScreenSound(b, calls);
  }

  // A key's new record is about the message it had, or about the one just sent.
  lemma RecordSound(b: Book, key: Key, state: StreamState, calls: seq<Call>)
    requires Sound(b) && AllPossible(b.screen, calls) && key in b.streams && |state.lastText| <= MAX_MESSAGE_LENGTH
    requires || state.messageId == b.streams[key].messageId
             || (&& calls != [] && calls[|calls|-1].Sending? && calls[|calls|-1].chat == key.chat
                 && Sent(calls[|calls|-1]) == Some(state.messageId))
    ensures Sound(Book(AfterAll(b.screen, calls), b.streams[key := state], b.order))
  {
    ScreenSound(b, calls);
    if state.messageId != b.streams[key].messageId {
      SentIsNew(b, calls, key, state);
      NewIsNobodys(b, SlotOf(key, state));
    }
    hide AfterAll, AllPossible;
    assert b.streams[key := state].Keys == b.streams.Keys;
  }

  lemma Resent(calls: seq<Call>, more: seq<Call>, chat: int, state: StreamState, chunk: string, id: Option<int>)
    requires chunk != state.lastText && FinalEdit(calls, chat, state.messageId, chunk, false)
    requires Attempts(more, chat, chunk, MAX_RETRIES, id)
    ensures FirstTry(calls + more, chat, state, chunk, id)
  {
    var all := calls + more;
    assert all[..|calls|] == calls && all[|calls|..] == more;
    assert ResentAfter(all, |calls|, chat, state, chunk, id);
  }

  lemma SoundOrder(b: Book)
    requires Sound(b)
    ensures |b.order| <= MAX_TRACKED && Distinct(b.order) && forall k :: k in b.order <==> k in b.streams
  {
    assert forall k :: k in b.streams.Keys <==> k in b.streams;
  }

  lemma NewestTail(order: seq<Key>)
    requires |order| <= MAX_TRACKED
    ensures if |order| < MAX_TRACKED then Newest(order) == order else Newest(order[1..]) == Newest(order)
  {}

  // --- the channel ---

  class TelegramChannel {
    const platform: Platform
    var lastBotMessage: map<int, int>
    // the tracked streams, and their keys in order of registration
    var streams: map<Key, StreamState>
    var order: seq<Key>

    ghost function View(): Book
      reads this, platform
    {
      Book(platform.View(), streams, order)
    }

    ghost predicate Valid()
      reads this, platform
    {
      platform.Valid() && Sound(View())
    }

    constructor ()
      ensures Valid() && fresh(platform) && platform.log == []
      ensures View() == Book(Screen(map[], {}), map[], [])
    {
      platform := new Platform();
      lastBotMessage := map[];
      streams := map[];
      order := [];
    }

    // Forgets one key.
    method Drop(key: Key)
      requires Valid()
      modifies this`streams, this`order
      ensures Valid() && streams == old(streams) - {key} && order == Without(old(order), key)
      ensures |order| == if key in old(streams) then |old(order)| - 1 else |old(order)|
    {
      DropSound(View(), key);
      SoundOrder(View());
      hide Sound, Without;
      if i :| 0 <= i < |order| && order[i] == key {
        WithoutAt(order, i);
        order := order[..i] + order[i+1..];
      } else {
        WithoutNone(order, key);
      }
      streams := streams - {key};
    }

    method DropOldest()
      requires Valid() && order != []
      modifies this`streams, this`order
      ensures Valid() && order == old(order)[1..] && streams == old(streams) - {old(order)[0]}
    {
      SoundOrder(View());
      hide Sound;
      WithoutAt(order, 0);
      assert order[..0] + order[1..] == order[1..];
      Drop(order[0]);
    }

    // Evicts the oldest streams when the table is full.
    method MakeRoom()
      requires Valid()
      modifies this`streams, this`order
      ensures Valid() && order == Newest(old(order)) && streams == Among(old(streams), order)
    {
      hide Sound, Newest;
      SoundOrder(View());
      while |order| >= MAX_TRACKED
        invariant Valid() && |order| <= MAX_TRACKED && Newest(order) == Newest(old(order))
        invariant forall k :: k in streams ==> k in old(streams) && streams[k] == old(streams[k])
        decreases |order|
      {
        NewestTail(order);
        DropOldest();
        SoundOrder(View());
      }
      SoundOrder(View());
      NewestTail(order);
    }

    // Starts tracking a message.
    method Register(key: Key, state: StreamState)
      requires Valid() && SlotOf(key, state) in platform.used && |state.lastText| <= MAX_MESSAGE_LENGTH
      requires forall k :: k in streams && k != key ==> SlotOf(k, streams[k]) != SlotOf(key, state)
      modifies this`streams, this`order
      ensures Valid() && View() == Tracking(old(View()), key, state)
    {
      TrackingSound(View(), key, state);
      SoundOrder(View());
      AmongOthers(streams, order, key);
      hide Sound, Newest, Without, Among;
      Drop(key);
      MakeRoom();
      streams := streams[key := state];
      order := order + [key];
    }

    // A fresh message with a bounded number of attempts. None stands for the
    // exception raised after the last one.
    method SendNewMessage(chat: int, text: string, maxRetries: nat) returns (id: Option<int>, ghost calls: seq<Call>)
      requires platform.Valid()
      modifies platform, this`lastBotMessage
      ensures platform.Valid() && platform.Went(old(platform.View()), old(platform.log), calls)
      ensures Attempts(calls, chat, text, maxRetries, id)
      ensures lastBotMessage == if id.Some? then old(lastBotMessage)[chat := id.value] else old(lastBotMessage)
    {
      calls := [];
      for attempt := 0 to maxRetries
        invariant platform.Valid() && platform.Went(old(platform.View()), old(platform.log), calls)
        invariant Attempts(calls, chat, text, attempt, None) && lastBotMessage == old(lastBotMessage)
      {
        hide AfterAll, AllPossible, Attempts;
        ghost var call;
        id, call := platform.SendMessage(chat, text);
        AttemptsSnoc(calls, call, chat, text, attempt);
        CallsConcat(old(platform.View()), calls, [call]);
        calls := calls + [call];
        if id.Some? {
          lastBotMessage := lastBotMessage[chat := id.value];
          AttemptsMore(calls, chat, text, attempt + 1, maxRetries, id);
          return;
        }
      }
      id := None;
    }

    // The final edit, with one more try after a rate limit.
    method EditFinalChunk(chat: int, id: int, text: string) returns (edited: bool, ghost calls: seq<Call>)
      requires platform.Valid()
      modifies platform
      ensures platform.Valid() && platform.Went(old(platform.View()), old(platform.log), calls)
      ensures FinalEdit(calls, chat, id, text, edited)
    {
      calls := [];
      for attempt := 0 to 2
        invariant platform.Valid() && platform.Went(old(platform.View()), old(platform.log), calls)
        invariant |calls| == attempt <= 1
        invariant attempt == 1 ==> Edits(calls[0], chat, id, text) && calls[0].reply.RetryAfter?
      {
        var reply;
        ghost var call;
        reply, call := platform.EditMessage(chat, id, text);
        CallsConcat(old(platform.View()), calls, [call]);
        calls := calls + [call];
        hide AfterAll, AllPossible;
        if reply.Edited? {
          return true, calls;
        }
        if reply.NotModified? {
          return true, calls;
        }
        if reply.RetryAfter? && attempt == 0 {
          continue;
        }
        return false, calls;
      }
      return false, calls;
    }

    // A partial answer: throttled, best effort, and never longer than a message.
    method SendStreamUpdate(key: Key, text: string, now: real, later: real) returns (ghost calls: seq<Call>)
      requires Valid()
      modifies platform, this`streams, this`order
      ensures Valid() && platform.Went(old(platform.View()), old(platform.log), calls)
      ensures UpdateStep(old(View()), key, text, now, later, calls, View())
      ensures forall i :: 0 <= i < |calls| ==> calls[i].chat == key.chat && IsShownAs(text, calls[i].text)
    {
      DisplayExactly(text, Display(text));
      hide IsShownAs, Display;
      if text == "" {
        return [];
      }
      var display := Display(text);
      if key !in streams {
        calls := StartStream(key, display, later);
      } else {
        calls := EditStream(key, display, now, later);
      }
    }

    // The first update of a stream.
    method StartStream(key: Key, display: string, later: real) returns (ghost calls: seq<Call>)
      requires Valid() && key !in streams && |display| <= MAX_MESSAGE_LENGTH
      modifies platform, this`streams, this`order
      ensures Valid() && platform.Went(old(platform.View()), old(platform.log), calls)
      ensures |calls| == 1 && SendsText(calls[0], key.chat, display)
      ensures var next := old(View()).(screen := platform.View());
              View() == if Sent(calls[0]).None? then next
                        else Tracking(next, key, StreamState(Sent(calls[0]).value, later, display))
    {
      var sent;
      ghost var call;
      sent, call := platform.SendMessage(key.chat, display);
      calls := [call];
      ScreenSound(old(View()), calls);
      if sent.None? {
        return;
      }
      var state := StreamState(sent.value, later, display);
      SentIsNew(old(View()), calls, key, state);
      NewIsNobodys(old(View()), SlotOf(key, state));
      hide Sound, AfterAll, AllPossible, Tracking;
      Register(key, state);
    }

    // A further update.
    method EditStream(key: Key, display: string, now: real, later: real) returns (ghost calls: seq<Call>)
      requires Valid() && key in streams && |display| <= MAX_MESSAGE_LENGTH
      modifies platform, this`streams
      ensures Valid() && platform.Went(old(platform.View()), old(platform.log), calls)
      ensures if !Due(old(streams[key]), key.chat, display, now) then calls == [] && View() == old(View())
              else && EditCalls(calls, key.chat, old(streams[key]), display)
                   && streams == old(streams)[key := AfterEdit(old(streams[key]), key.chat, display, calls, later)]
    {
      var state := streams[key];
      calls := [];
      if now - state.lastEditAt < Interval(key.chat) {
        return;
      }
      if display == state.lastText {
        return;
      }
      hide Sound;
      ghost var call;
      var reply;
      reply, call := platform.EditMessage(key.chat, state.messageId, display);
      calls := [call];
      if reply.NotModified? {
        state := state.(lastText := display);
      } else if reply.RetryAfter? {
        SameRecordSound(old(View()), calls);
        return;
      } else {
        if reply.EditFailed? {
          var sent;
          sent, call := platform.SendMessage(key.chat, display);
          CallsConcat(old(platform.View()), calls, [call]);
          calls := calls + [call];
          if sent.None? {
            SameRecordSound(old(View()), calls);
            return;
          }
          state := state.(messageId := sent.value);
        }
        state := state.(lastEditAt := later, lastText := display);
      }
      RecordSound(old(View()), key, state, calls);
      streams := streams[key := state];
    }

    // The final text of a tracked stream, whose key has been popped: the chunks
    // go into the streamed message and into fresh ones. ids are the messages the
    // answer now consists of; ok is false when an exception cut delivery short.
    method Finalize(key: Key, state: StreamState, text: string)
      returns (ok: bool, ghost ids: seq<int>, ghost tries: seq<seq<Call>>)
      requires platform.Valid()
      modifies platform, this`lastBotMessage
      ensures platform.Valid() && platform.Went(old(platform.View()), old(platform.log), Flatten(tries))
      ensures Tries(tries, key.chat, Some(state), SplitMessage(text), ok, ids)
      ensures ok ==> lastBotMessage == old(lastBotMessage)[key.chat := ids[|ids|-1]]
    {
      hide FirstTry, Attempts, AfterAll, AllPossible, Flatten;
      var chunks := SplitMessage(text);
      var id, first := DeliverFirst(key, state, chunks[0]);
      tries := [first];
      OneTryFlat(first);
      if id.None? {
        return false, [], tries;
      }
      ids := [id.value];
      for k := 1 to |chunks|
        invariant platform.Valid() && platform.Went(old(platform.View()), old(platform.log), Flatten(tries))
        invariant |ids| == |tries| == k
        invariant forall i :: 0 <= i < k ==> Try(tries[i], i, key.chat, Some(state), chunks[i], Some(ids[i]))
        invariant lastBotMessage == old(lastBotMessage)[key.chat := ids[k-1]]
      {
        var sent;
        ghost var more;
        sent, more := SendNewMessage(key.chat, chunks[k], MAX_RETRIES);
        CallsConcat(old(platform.View()), Flatten(tries), more);
        FlattenSnoc(tries, more);
        tries := tries + [more];
        if sent.None? {
          return false, ids, tries;
        }
        ids := ids + [sent.value];
      }
      ok := true;
    }

    // The first chunk: edited into the streamed message unless that is what it is
    // recorded to show, or sent afresh when the edit cannot be applied.
    method DeliverFirst(key: Key, state: StreamState, chunk: string) returns (id: Option<int>, ghost calls: seq<Call>)
      requires platform.Valid()
      modifies platform, this`lastBotMessage
      ensures platform.Valid() && platform.Went(old(platform.View()), old(platform.log), calls)
      ensures FirstTry(calls, key.chat, state, chunk, id)
      ensures id.Some? ==> lastBotMessage == old(lastBotMessage)[key.chat := id.value]
    {
      var edited := true;
      calls := [];
      if chunk != state.lastText {
        edited, calls := EditFinalChunk(key.chat, state.messageId, chunk);
      }
      if edited {
        lastBotMessage := lastBotMessage[key.chat := state.messageId];
        return Some(state.messageId), calls;
      }
      hide AfterAll, AllPossible, Attempts, FinalEdit;
      var sent;
      ghost var more;
      sent, more := SendNewMessage(key.chat, chunk, MAX_RETRIES);
      CallsConcat(old(platform.View()), calls, more);
      Resent(calls, more, key.chat, state, chunk, sent);
      return sent, calls + more;
    }

    // An outbound message: a partial update, or the final text of an answer.
    method Send(msg: Outbound, now: real, later: real)
      returns (ok: bool, ghost ids: seq<int>, ghost tries: seq<seq<Call>>)
      requires Valid()
      modifies platform, this
      ensures Valid() && platform.Went(old(platform.View()), old(platform.log), Flatten(tries))
      ensures Step(old(View()), Publish(msg, now, later), Outcome(ok, ids, tries), View())
    {
      var key := Key(msg.chat, msg.thread);
      if !msg.isFinal {
        ghost var calls := SendStreamUpdate(key, msg.text, now, later);
        OneTryFlat(calls);
        return true, [], [calls];
      }
      if key in streams {
        ok, ids, tries := SendFinal(key, msg.text);
      } else {
        ok, ids, tries := SendWhole(key, msg.text);
      }
    }

    // The final text of a tracked stream.
    method SendFinal(key: Key, text: string) returns (ok: bool, ghost ids: seq<int>, ghost tries: seq<seq<Call>>)
      requires Valid() && key in streams
      modifies platform, this
      ensures Valid() && platform.Went(old(platform.View()), old(platform.log), Flatten(tries))
      ensures FinalStep(old(View()), key, text, tries, ok, ids, View())
    {
      hide Sound, AfterAll, AllPossible, Flatten, Tries;
      var state := streams[key];
      Drop(key);
      ghost var book := View();
      ok, ids, tries := Finalize(key, state, text);
      SameRecordSound(book, Flatten(tries));
    }

    // The final text of an answer that was never streamed: one unsplit message.
    method SendWhole(key: Key, text: string) returns (ok: bool, ghost ids: seq<int>, ghost tries: seq<seq<Call>>)
      requires Valid() && key !in streams
      modifies platform, this
      ensures Valid() && platform.Went(old(platform.View()), old(platform.log), Flatten(tries))
      ensures FinalStep(old(View()), key, text, tries, ok, ids, View())
    {
      var sent;
      ghost var calls;
      sent, calls := SendNewMessage(key.chat, text, MAX_RETRIES);
      ok := sent.Some?;
      ids := if ok then [sent.value] else [];
      tries := [calls];
      OneTryFlat(calls);
      hide AfterAll, AllPossible, Flatten, Attempts;
      SameRecordSound(old(View()), calls);
      SoundOrder(old(View()));
      hide Sound;
      WithoutNone(order, key);
      assert streams - {key} == streams;
    }

    // "Working on it...", which becomes the message the answer is streamed into.
    method SendRunningReply(chat: int, replyTo: string) returns (ok: bool, ghost calls: seq<Call>)
      requires Valid()
      modifies platform, this`streams, this`order
      ensures Valid() && platform.Went(old(platform.View()), old(platform.log), calls)
      ensures RunningStep(old(View()), Key(chat, replyTo), calls, ok, View())
    {
      var key := Key(chat, replyTo);
      var sent;
      ghost var call;
      sent, call := platform.SendMessage(chat, RUNNING_REPLY);
      calls := [call];
      ScreenSound(old(View()), calls);
      if sent.None? {
        return false, calls;
      }
      var state := StreamState(sent.value, 0.0, RUNNING_REPLY);
      SentIsNew(old(View()), calls, key, state);
      NewIsNobodys(old(View()), SlotOf(key, state));
      hide Sound, AfterAll, AllPossible, Tracking;
      Register(key, state);
      return true, calls;
    }

    // Whatever happens next in the chats.
    method Perform(op: Op) returns (ok: bool, ghost o: Outcome)
      requires Valid()
      modifies platform, this
      ensures Valid() && Step(old(View()), op, o, View())
      ensures ok == o.ok && platform.log == old(platform.log) + Flatten(o.tries)
    {
      match op
      case Publish(msg, now, later) =>
        ghost var ids;
        ghost var tries;
        ok, ids, tries := Send(msg, now, later);
        o := Outcome(ok, ids, tries);
      case Running(chat, replyTo) =>
        ghost var calls;
        ok, calls := SendRunningReply(chat, replyTo);
        OneTryFlat(calls);
        o := Outcome(ok, [], [calls]);
      case Deleted(slots) =>
        platform.Delete(slots);
        ok, o := true, Outcome(true, [], []);
    }
  }
}
