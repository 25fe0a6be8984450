// What the updates of a run show and when: the texts they carry, the pace at which
// they are sent, and which stream makes room for a new one.
module TelegramPacing {
  import opened Wrappers
  import opened Sequences
  import opened TelegramStream
  import opened TelegramRuns

  // Every call of an update carries the text, or as much of it as fits; and so does the
  // record, if it is written.
  lemma UpdateShows(a: Book, key: Key, text: string, now: real, later: real, calls: seq<Call>, b: Book)
    requires UpdateStep(a, key, text, now, later, calls, b)
    ensures forall i :: 0 <= i < |calls| ==> calls[i].chat == key.chat && IsShownAs(text, calls[i].text)
    ensures key in b.streams && !(key in a.streams && b.streams[key] == a.streams[key]) ==>
              IsShownAs(text, b.streams[key].lastText) || (key in a.streams && b.streams[key].lastText == a.streams[key].lastText)
  {
    DisplayExactly(text, Display(text));
    hide IsShownAs, AllPossible, AfterAll, Display;
  }

  // A running reply says so.
  lemma RunningReplySays(a: Book, key: Key, calls: seq<Call>, ok: bool, b: Book)
    requires RunningStep(a, key, calls, ok, b)
    ensures |calls| == 1 && SendsText(calls[0], key.chat, "Working on it...")
    ensures ok ==> key in b.streams && b.streams[key].lastText == "Working on it..."
  {
    hide AllPossible, AfterAll;
  }

  // --- when an update is sent ---

  // The last call of an update put its text on the screen, as far as the channel knows.
  ghost predicate Wrote(calls: seq<Call>) {
    && calls != []
    && var last := calls[|calls|-1];
       if last.Sending? then Sent(last).Some? else last.reply.Edited?
  }

  // Operation op, with outcome o, sets the time from which updates of key are paced.
  ghost predicate Writes(op: Op, o: Outcome, key: Key) {
    || (op.Running? && Key(op.chat, op.replyTo) == key && o.ok)
    || (op.Publish? && !op.msg.isFinal && KeyOf(op.msg) == key && o.tries != [] && Wrote(o.tries[0]))
  }

  // A running reply sets it to zero: what follows it is not held back.
  ghost function TimeOf(op: Op): real
    requires !op.Deleted?
  {
    if op.Running? then 0.0 else op.later
  }

  // The time set by the last of the first k operations that set it.
  ghost function WrittenAt(ops: seq<Op>, outs: seq<Outcome>, key: Key, k: nat): real
    requires k <= |ops| == |outs|
  {
    if k == 0 then 0.0
    else if Writes(ops[k-1], outs[k-1], key) then TimeOf(ops[k-1])
    else WrittenAt(ops, outs, key, k - 1)
  }

  lemma TrackedTime(b: Book, key: Key, state: StreamState)
    ensures key in Tracking(b, key, state).streams && Tracking(b, key, state).streams[key] == state
  {}

  lemma RunningTime(a: Book, op: Op, o: Outcome, b: Book, key: Key)
    requires Step(a, op, o, b) && op.Running? && Key(op.chat, op.replyTo) == key && key in b.streams
    ensures if o.ok then b.streams[key].lastEditAt == 0.0 else key in a.streams && b.streams[key] == a.streams[key]
  {
    hide Tracking, AllPossible, AfterAll;
    if o.ok {
      var next := a.(screen := AfterAll(a.screen, o.tries[0]));
      TrackedTime(next, key, StreamState(Sent(o.tries[0][0]).value, 0.0, RUNNING_REPLY));
    }
  }

  lemma UpdateTime(a: Book, op: Op, o: Outcome, b: Book, key: Key)
    requires Step(a, op, o, b) && op.Publish? && !op.msg.isFinal && KeyOf(op.msg) == key && key in b.streams
    ensures if Wrote(o.tries[0]) then b.streams[key].lastEditAt == op.later
            else key in a.streams && b.streams[key].lastEditAt == a.streams[key].lastEditAt
  {
    hide Tracking, AllPossible, AfterAll, Display;
    var calls := o.tries[0];
    if calls != [] && key !in a.streams && Sent(calls[0]).Some? {
      var next := a.(screen := AfterAll(a.screen, calls));
      TrackedTime(next, key, StreamState(Sent(calls[0]).value, op.later, Display(op.msg.text)));
    }
  }

  lemma TimeStep(a: Book, op: Op, o: Outcome, b: Book, key: Key)
    requires Sound(a) && Step(a, op, o, b) && key in b.streams
    ensures if Writes(op, o, key) then !op.Deleted? && b.streams[key].lastEditAt == TimeOf(op)
            else key in a.streams && b.streams[key].lastEditAt == a.streams[key].lastEditAt
  {
    if op.Deleted? {
    } else if Subject(op) != Some(key) {
      StepFrame(a, op, o, b);
      hide Step, Sound, KeepsBut;
    } else if op.Running? {
      RunningTime(a, op, o, b, key);
      hide Step, Sound;
    } else if op.msg.isFinal {
      hide Sound, AllPossible, AfterAll, Tries, Flatten;
    } else {
      UpdateTime(a, op, o, b, key);
      hide UpdateStep, Sound, Wrote;
    }
  }

  lemma {:induction false} TimeIsWritten(books: seq<Book>, ops: seq<Op>, outs: seq<Outcome>, key: Key, k: nat)
    requires IsRun(books, ops, outs) && k <= |ops| && key in books[k].streams
    ensures books[k].streams[key].lastEditAt == WrittenAt(ops, outs, key, k)
    decreases k
  {
    hide Step, Sound, Writes;
    if k > 0 {
      RunSound(books, ops, outs, k - 1);
      TimeStep(books[k-1], ops[k-1], outs[k-1], books[k], key);
      if !Writes(ops[k-1], outs[k-1], key) {
        TimeIsWritten(books, ops, outs, key, k - 1);
      }
    }
  }

  ghost predicate IsUpdate(ops: seq<Op>, k: int) {
    0 <= k < |ops| && ops[k].Publish? && !ops[k].msg.isFinal
  }

  // Over any run, an update of a tracked stream is sent - as an edit of its message - if
  // and only if there is a text, it shows something else than is recorded, and a second
  // has passed since the last one that was, in groups three.
  lemma UpdatesArePaced(books: seq<Book>, ops: seq<Op>, outs: seq<Outcome>, k: nat)
    requires IsRun(books, ops, outs) && IsUpdate(ops, k) && KeyOf(ops[k].msg) in books[k].streams
    ensures |outs[k].tries| == 1
    ensures var msg, calls, state := ops[k].msg, outs[k].tries[0], books[k].streams[KeyOf(ops[k].msg)];
            && (calls != [] <==>
                  && msg.text != "" && !IsShownAs(msg.text, state.lastText)
                  && ops[k].now - WrittenAt(ops, outs, KeyOf(msg), k) >= if msg.chat < 0 then 3.0 else 1.0)
            && (calls != [] ==> calls[0].Editing? && calls[0].id == state.messageId)
  {
    var key := KeyOf(ops[k].msg);
    TimeIsWritten(books, ops, outs, key, k);
    assert Step(books[k], ops[k], outs[k], books[k+1]);
    DisplayExactly(ops[k].msg.text, books[k].streams[key].lastText);
    hide IsRun, AllPossible, AfterAll, WrittenAt, IsShownAs, Display;
  }

  // --- which stream makes room ---

  lemma KeptOrder(order: seq<Key>, key: Key)
    requires Distinct(order) && |order| <= MAX_TRACKED
    ensures var kept := Newest(Without(order, key));
            && (forall k :: k in kept ==> k in order && k != key)
            && (forall i, j :: 0 <= i < j < |order| && order[i] in kept && order[j] != key ==> order[j] in kept)
            && ((exists k :: k in order && k != key && k !in kept) ==> |kept| == MAX_TRACKED - 1)
  {
    var rest := Without(order, key);
    WithoutMembers(order, key);
    var kept := Newest(rest);
    var cut := |rest| - |kept|;
    assert kept == rest[cut..];
    if i :| 0 <= i < |order| && order[i] == key {
      WithoutAt(order, i);
      RestOrder(order, i, cut);
    } else {
      WithoutNone(order, key);
      WholeOrder(order, cut);
    }
    hide Without;
    assert forall k :: k in kept ==> k in rest;
    if cut == 0 {
      assert kept == rest;
    }
  }

  // Tracking one more stream drops nothing while there is room; a full table keeps as
  // many of the others as it can, and never a stream rather than a later one.
  lemma OldestMakeRoom(b: Book, key: Key, state: StreamState)
    requires Sound(b)
    ensures var t := Tracking(b, key, state);
            && (forall k :: k in t.streams && k != key ==> k in b.streams && t.streams[k] == b.streams[k])
            && (forall i, j :: 0 <= i < j < |b.order| && b.order[i] in t.streams && b.order[i] != key
                               ==> b.order[j] in t.streams)
            && ((exists k :: k in b.streams && k !in t.streams) ==> |t.order| == 256)
  {
    SoundOrder(b);
    hide Sound, Without, Newest, Distinct;
    KeptOrder(b.order, key);
  }

  lemma WholeOrder(order: seq<Key>, cut: nat)
    requires Distinct(order) && cut <= |order|
    ensures forall i, j :: 0 <= i < j < |order| && order[i] in order[cut..] ==> order[j] in order[cut..]
  {
    forall i, j | 0 <= i < j < |order| && order[i] in order[cut..] ensures order[j] in order[cut..] {
      var p :| 0 <= p < |order| - cut && order[cut..][p] == order[i];
      assert order[cut + p] == order[i];
      assert cut + p == i;
      assert order[cut..][j - cut] == order[j];
    }
  }

  lemma RestOrder(order: seq<Key>, at: nat, cut: nat)
    requires Distinct(order) && at < |order| && cut <= |order| - 1
    ensures var rest := order[..at] + order[at+1..];
            forall i, j :: 0 <= i < j < |order| && i != at && j != at && order[i] in rest[cut..] ==> order[j] in rest[cut..]
  {
    var rest := order[..at] + order[at+1..];
    CutMembers(order, at);
    WholeOrder(rest, cut);
    forall i, j | 0 <= i < j < |order| && i != at && j != at && order[i] in rest[cut..] ensures order[j] in rest[cut..] {
      var i', j' := if i < at then i else i - 1, if j < at then j else j - 1;
      assert rest[i'] == order[i] && rest[j'] == order[j];
    }
  }

  // --- the first chunk of a final text ---

  // Its calls: an edit; a second one exactly after a rate limit; and attempts at sending
  // the chunk afresh only when the last edit had no effect.
  lemma FirstChunkCalls(calls: seq<Call>, chat: int, state: StreamState, chunk: string, id: Option<int>)
    requires FirstTry(calls, chat, state, chunk, id) && chunk != state.lastText
    ensures calls != [] && Edits(calls[0], chat, state.messageId, chunk)
    ensures var n := if calls[0].reply.RetryAfter? then 2 else 1;
            && n <= |calls| && (n == 2 ==> Edits(calls[1], chat, state.messageId, chunk))
            && (forall i :: n <= i < |calls| ==> SendsText(calls[i], chat, chunk))
            && (calls[n-1].reply.Edited? || calls[n-1].reply.NotModified? <==> |calls| == n)
  {
    if !(id == Some(state.messageId) && FinalEdit(calls, chat, state.messageId, chunk, true)) {
      var n :| 0 <= n <= |calls| && ResentAfter(calls, n, chat, state, chunk, id);
      var edits, sends := calls[..n], calls[n..];
      assert edits[0] == calls[0] && (n == 2 ==> edits[1] == calls[1]);
      assert forall i :: n <= i < |calls| ==> calls[i] == sends[i - n];
    }
  }

  // A part that is given up has had its edits, if it was the first of a tracked stream,
  // and then exactly three attempts at being sent, all refused.
  lemma GivenUpAfterThree(calls: seq<Call>, i: nat, chat: int, state: Option<StreamState>, part: string)
    requires Try(calls, i, chat, state, part, None)
    ensures exists n :: RefusedThrice(calls, n, chat, part) && (n == 0 <==> !(state.Some? && i == 0))
  {
    if state.Some? && i == 0 {
      var n :| 0 <= n <= |calls| && ResentAfter(calls, n, chat, state.value, part, None);
      var edits, sends := calls[..n], calls[n..];
      assert forall j :: 0 <= j < n ==> calls[j] == edits[j];
      assert forall j :: n <= j < |calls| ==> calls[j] == sends[j - n];
      assert RefusedThrice(calls, n, chat, part);
    } else {
      assert RefusedThrice(calls, 0, chat, part);
    }
  }

  ghost predicate RefusedThrice(calls: seq<Call>, n: int, chat: int, part: string) {
    && 0 <= n <= 2 && |calls| == n + 3 && (forall j :: 0 <= j < n ==> calls[j].Editing?)
    && forall j :: n <= j < |calls| ==> SendsText(calls[j], chat, part) && Sent(calls[j]) == None
  }

  // A part that is delivered by sending it took the first attempt that was answered, the
  // third at the latest.
  lemma SentByThird(calls: seq<Call>, chat: int, part: string, id: int)
    requires Attempts(calls, chat, part, MAX_RETRIES, Some(id))
    ensures 1 <= |calls| <= 3 && Sent(calls[|calls|-1]) == Some(id)
    ensures forall j :: 0 <= j < |calls| - 1 ==> Sent(calls[j]) == None
  {}
}
