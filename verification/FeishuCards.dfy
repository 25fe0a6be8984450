// The running card of a Feishu message: created once by a background task, patched
// by updates, and forgotten by the final answer.
module FeishuCards {
  import opened Wrappers

  type Source = string
  type Card = string

  // --- the two tables ---

  // Tasks are numbered in the order they are created; jobs is the next number.
  datatype Tables = Tables(cards: map<Source, Card>, tasks: map<Source, nat>, jobs: nat)

  // Whether ensuring a card for a message creates a task.
  predicate Creates(t: Tables, source: Source) {
    source !in t.cards && source !in t.tasks
  }

  function Ensured(t: Tables, source: Source): Tables {
    if Creates(t, source) then t.(tasks := t.tasks[source := t.jobs], jobs := t.jobs + 1) else t
  }

  function Recorded(t: Tables, source: Source, card: Option<Card>): Tables {
    if card.Some? then t.(cards := t.cards[source := card.value]) else t
  }

  function Finalized(t: Tables, source: Source, task: nat): Tables {
    if source in t.tasks && t.tasks[source] == task then t.(tasks := t.tasks - {source}) else t
  }

  function Forgotten(t: Tables, source: Source): Tables {
    t.(cards := t.cards - {source})
  }

  class RunningCards {
    var cards: map<Source, Card>
    var tasks: map<Source, nat>
    var jobs: nat

    ghost function View(): Tables
      reads this
    {
      Tables(cards, tasks, jobs)
    }

    constructor ()
      ensures View() == Tables(map[], map[], 0)
    {
      cards, tasks, jobs := map[], map[], 0;
    }

    // The creation to wait for, unless the card is there already.
    method EnsureStarted(source: Source) returns (task: Option<nat>)
      modifies this
      ensures View() == Ensured(old(View()), source)
      ensures task == if source in cards then None else Some(tasks[source])
    {
      if source in cards {
        return None;
      }
      if source in tasks {
        return Some(tasks[source]);
      }
      tasks := tasks[source := jobs];
      jobs := jobs + 1;
      return Some(jobs - 1);
    }

    // The end of a task, once the platform has answered.
    method Record(source: Source, card: Option<Card>)
      modifies this`cards
      ensures View() == Recorded(old(View()), source, card)
    {
      if card.Some? {
        cards := cards[source := card.value];
      }
    }

    // The callback of a task that is done.
    method Finalize(source: Source, task: nat)
      modifies this`tasks
      ensures View() == Finalized(old(View()), source, task)
    {
      if source in tasks && tasks[source] == task {
        tasks := tasks - {source};
      }
    }

    method Forget(source: Source)
      modifies this`cards
      ensures View() == Forgotten(old(View()), source)
    {
      cards := cards - {source};
    }
  }

  // --- all interleavings on the event loop ---

  // A creation task, and the card it recorded.
  datatype Job = Job(source: Source, done: bool, failed: bool, card: Option<Card>)

  datatype Phase =
    | AwaitingCard(task: nat)      // found a task running
    | AwaitingOwn(task: nat)       // ensured a card with its own text
    | Patching(card: Card)
    | Replying
    | Completed(shownOn: Option<Card>)
    | Failed

  datatype Sender = Sender(source: Source, isFinal: bool, phase: Phase)

  datatype State = State(tables: Tables, jobs: seq<Job>, senders: seq<Sender>)

  datatype Action =
    | Ensure(source: Source)
    | Reply(job: nat, card: Option<Card>)
    | Break(job: nat)
    | Callback(job: nat)
    | Begin(source: Source, isFinal: bool)
    | Resume(sender: nat)
    | Patch(sender: nat, ok: bool)
    | Answer(sender: nat, card: Option<Card>, ok: bool)

  ghost predicate Init(s: State) {
    s == State(Tables(map[], map[], 0), [], [])
  }

  ghost function EnsureCard(s: State, source: Source): State {
    s.(tables := Ensured(s.tables, source),
       jobs := if Creates(s.tables, source) then s.jobs + [Job(source, false, false, None)] else s.jobs)
  }

  // The first stretch of a send, up to its first wait.
  ghost function Begun(s: State, source: Source, isFinal: bool): State {
    var t := s.tables;
    if source in t.cards then s.(senders := s.senders + [Sender(source, isFinal, Patching(t.cards[source]))])
    else if source in t.tasks then s.(senders := s.senders + [Sender(source, isFinal, AwaitingCard(t.tasks[source]))])
    else if isFinal then s.(senders := s.senders + [Sender(source, isFinal, Replying)])
    else EnsureCard(s, source).(senders := s.senders + [Sender(source, isFinal, AwaitingOwn(t.jobs))])
  }

  // What a sender does with the outcome of the creation it waited for.
  ghost function AfterTask(sender: Sender, job: Job): Phase {
    if job.failed then Failed
    else if sender.phase.AwaitingOwn? then Completed(job.card)
    else if job.card.Some? then Patching(job.card.value)
    else if sender.isFinal then Replying
    else Completed(None)
  }

  ghost function Moved(s: State, i: nat, phase: Phase): State
    requires i < |s.senders|
  {
    s.(senders := s.senders[i := s.senders[i].(phase := phase)])
  }

  // A final that completes forgets the card of its message.
  ghost function Complete(s: State, i: nat, card: Option<Card>): State
    requires i < |s.senders|
  {
    var t := Moved(s, i, Completed(card));
    if s.senders[i].isFinal then t.(tables := Forgotten(s.tables, s.senders[i].source)) else t
  }

  ghost predicate Waits(p: Phase) {
    p.AwaitingCard? || p.AwaitingOwn?
  }

  ghost predicate Enabled(s: State, a: Action) {
    match a
    case Ensure(source) => true
    case Reply(j, card) => j < |s.jobs| && !s.jobs[j].done
    case Break(j) => j < |s.jobs| && !s.jobs[j].done
    case Callback(j) => j < |s.jobs| && s.jobs[j].done
    case Begin(source, isFinal) => true
    case Resume(i) =>
      && i < |s.senders| && Waits(s.senders[i].phase)
      && s.senders[i].phase.task < |s.jobs| && s.jobs[s.senders[i].phase.task].done
    case Patch(i, ok) => i < |s.senders| && s.senders[i].phase.Patching?
    case Answer(i, card, ok) => i < |s.senders| && s.senders[i].phase.Replying?
  }

  ghost function Step(s: State, a: Action): State
    requires Enabled(s, a)
  {
    match a
    case Ensure(source) => EnsureCard(s, source)
    case Reply(j, card) =>
      s.(tables := Recorded(s.tables, s.jobs[j].source, card), jobs := s.jobs[j := s.jobs[j].(done := true, card := card)])
    case Break(j) => s.(jobs := s.jobs[j := s.jobs[j].(done := true, failed := true)])
    case Callback(j) => s.(tables := Finalized(s.tables, s.jobs[j].source, j))
    case Begin(source, isFinal) => Begun(s, source, isFinal)
    case Resume(i) => Moved(s, i, AfterTask(s.senders[i], s.jobs[s.senders[i].phase.task]))
    case Patch(i, ok) =>
      if ok then Complete(s, i, Some(s.senders[i].phase.card))
      else Moved(s, i, if s.senders[i].isFinal then Replying else Failed)
    case Answer(i, card, ok) => if ok then Complete(s, i, card) else Moved(s, i, Failed)
  }

  // --- what every interleaving keeps ---

  ghost predicate Registered(t: Tables, jobs: seq<Job>) {
    && t.jobs == |jobs|
    && forall source :: source in t.tasks ==> t.tasks[source] < |jobs| && jobs[t.tasks[source]].source == source
  }

  // An unfinished task is registered, and its message has no card yet.
  ghost predicate UnfinishedIsAlone(t: Tables, jobs: seq<Job>) {
    forall j :: 0 <= j < |jobs| && !jobs[j].done ==>
                  && jobs[j].source in t.tasks && t.tasks[jobs[j].source] == j
                  && jobs[j].source !in t.cards && jobs[j].card.None?
  }

  // The card was made for this message by one of its tasks.
  ghost predicate MadeFor(jobs: seq<Job>, source: Source, card: Card) {
    exists j :: 0 <= j < |jobs| && jobs[j].source == source && jobs[j].done && jobs[j].card == Some(card)
  }

  ghost predicate CardsMade(t: Tables, jobs: seq<Job>) {
    forall source :: source in t.cards ==> MadeFor(jobs, source, t.cards[source])
  }

  ghost predicate SenderSound(jobs: seq<Job>, sender: Sender) {
    && (Waits(sender.phase) ==> sender.phase.task < |jobs| && jobs[sender.phase.task].source == sender.source)
    && (sender.phase.Patching? ==> MadeFor(jobs, sender.source, sender.phase.card))
    && (sender.phase.AwaitingOwn? ==> !sender.isFinal)
  }

  ghost predicate SendersSound(s: State) {
    forall i :: 0 <= i < |s.senders| ==> SenderSound(s.jobs, s.senders[i])
  }

  ghost predicate Inv(s: State) {
    && Registered(s.tables, s.jobs) && UnfinishedIsAlone(s.tables, s.jobs)
    && CardsMade(s.tables, s.jobs) && SendersSound(s)
  }

  // Jobs are only added or finished.
  ghost predicate Later(jobs: seq<Job>, more: seq<Job>) {
    && |jobs| <= |more|
    && forall j :: 0 <= j < |jobs| ==> more[j].source == jobs[j].source && (jobs[j].done ==> more[j] == jobs[j])
  }

  lemma MadeLater(jobs: seq<Job>, more: seq<Job>, source: Source, card: Card)
    requires Later(jobs, more) && MadeFor(jobs, source, card)
    ensures MadeFor(more, source, card)
  {
    var j :| 0 <= j < |jobs| && jobs[j].source == source && jobs[j].done && jobs[j].card == Some(card);
    assert more[j] == jobs[j];
  }

  lemma SenderLater(jobs: seq<Job>, more: seq<Job>, sender: Sender)
    requires Later(jobs, more) && SenderSound(jobs, sender)
    ensures SenderSound(more, sender)
  {
    if sender.phase.Patching? {
      MadeLater(jobs, more, sender.source, sender.phase.card);
    }
  }

  lemma SendersLater(s: State, t: State)
    requires SendersSound(s) && Later(s.jobs, t.jobs) && t.senders == s.senders
    ensures SendersSound(t)
  {
    forall i | 0 <= i < |t.senders| ensures SenderSound(t.jobs, t.senders[i]) {
      SenderLater(s.jobs, t.jobs, s.senders[i]);
    }
  }

  lemma CardsLater(tables: Tables, jobs: seq<Job>, more: seq<Job>)
    requires CardsMade(tables, jobs) && Later(jobs, more)
    ensures CardsMade(tables, more)
  {
    forall source | source in tables.cards ensures MadeFor(more, source, tables.cards[source]) {
      MadeLater(jobs, more, source, tables.cards[source]);
    }
  }

  lemma EnsureKeeps(s: State, source: Source)
    requires Inv(s)
    ensures Inv(EnsureCard(s, source)) && Later(s.jobs, EnsureCard(s, source).jobs)
  {
    var t := EnsureCard(s, source);
    CardsLater(s.tables, s.jobs, t.jobs);
    SendersLater(s, t);
  }

  lemma ReplyKeeps(s: State, j: nat, card: Option<Card>)
    requires Inv(s) && Enabled(s, Reply(j, card))
    ensures Inv(Step(s, Reply(j, card)))
  {
    var t := Step(s, Reply(j, card));
    var source := s.jobs[j].source;
    forall other | other in t.tables.cards ensures MadeFor(t.jobs, other, t.tables.cards[other]) {
      if card.Some? && other == source {
        assert t.jobs[j].card == card && t.jobs[j].done;
      } else {
        MadeLater(s.jobs, t.jobs, other, s.tables.cards[other]);
      }
    }
    SendersLater(s, t);
  }

  lemma BreakKeeps(s: State, j: nat)
    requires Inv(s) && Enabled(s, Break(j))
    ensures Inv(Step(s, Break(j)))
  {
    var t := Step(s, Break(j));
    CardsLater(s.tables, s.jobs, t.jobs);
    SendersLater(s, t);
  }

  lemma SenderStep(s: State, t: State, i: nat)
    requires SendersSound(s) && t.jobs == s.jobs && i < |s.senders| == |t.senders|
    requires t.senders == s.senders[i := t.senders[i]] && SenderSound(t.jobs, t.senders[i])
    ensures SendersSound(t)
  {
    hide SenderSound;
    forall k | 0 <= k < |t.senders| ensures SenderSound(t.jobs, t.senders[k]) {
      if k != i {
        assert t.senders[k] == s.senders[k];
      }
    }
  }

  lemma CompleteKeeps(s: State, i: nat, card: Option<Card>)
    requires Inv(s) && i < |s.senders|
    ensures Inv(Complete(s, i, card))
  {
    SenderStep(s, Complete(s, i, card), i);
  }

  lemma MovedKeeps(s: State, i: nat, phase: Phase)
    requires Inv(s) && i < |s.senders| && SenderSound(s.jobs, s.senders[i].(phase := phase))
    ensures Inv(Moved(s, i, phase))
  {
    SenderStep(s, Moved(s, i, phase), i);
  }

  lemma ResumeKeeps(s: State, i: nat)
    requires Inv(s) && Enabled(s, Resume(i))
    ensures Inv(Step(s, Resume(i)))
  {
    var sender := s.senders[i];
    assert SenderSound(s.jobs, sender);
    var job := s.jobs[sender.phase.task];
    assert job.card.Some? ==> MadeFor(s.jobs, sender.source, job.card.value);
    MovedKeeps(s, i, AfterTask(sender, job));
  }

  lemma BeginKeeps(s: State, source: Source, isFinal: bool)
    requires Inv(s)
    ensures Inv(Begun(s, source, isFinal))
  {
    var t := Begun(s, source, isFinal);
    var n := |s.senders|;
    EnsureKeeps(s, source);
    assert SenderSound(t.jobs, t.senders[n]);
    forall k | 0 <= k < |t.senders| ensures SenderSound(t.jobs, t.senders[k]) {
      if k < n {
        assert t.senders[k] == s.senders[k];
        SenderLater(s.jobs, t.jobs, s.senders[k]);
      }
    }
  }

  lemma StepKeeps(s: State, a: Action)
    requires Inv(s) && Enabled(s, a)
    ensures Inv(Step(s, a))
  {
    match a
    case Ensure(source) => EnsureKeeps(s, source);
    case Reply(j, card) => ReplyKeeps(s, j, card);
    case Break(j) => BreakKeeps(s, j);
    case Callback(j) =>
    case Begin(source, isFinal) => BeginKeeps(s, source, isFinal);
    case Resume(i) => ResumeKeeps(s, i);
    case Patch(i, ok) =>
      if ok {
        CompleteKeeps(s, i, Some(s.senders[i].phase.card));
      } else {
        MovedKeeps(s, i, if s.senders[i].isFinal then Replying else Failed);
      }
    case Answer(i, card, ok) =>
      if ok {
        CompleteKeeps(s, i, card);
      } else {
        MovedKeeps(s, i, Failed);
      }
  }

  // --- whole runs ---

  ghost predicate Run(states: seq<State>, actions: seq<Action>) {
    && |states| == |actions| + 1 && Init(states[0])
    && forall k :: 0 <= k < |actions| ==> Enabled(states[k], actions[k]) && states[k+1] == Step(states[k], actions[k])
  }

  lemma {:induction false} RunKeeps(states: seq<State>, actions: seq<Action>, k: nat)
    requires Run(states, actions) && k < |states|
    ensures Inv(states[k])
    decreases k
  {
    if k > 0 {
      hide Inv, Step;
      RunKeeps(states, actions, k - 1);
      StepKeeps(states[k-1], actions[k-1]);
    }
  }

  // Step k creates a task for the message, numbered like the jobs before it.
  ghost predicate StartsTask(s: State, a: Action, source: Source) {
    Creates(s.tables, source) && (a == Ensure(source) || (a.Begin? && a.source == source && !a.isFinal))
  }

  ghost predicate RecordsCard(s: State, a: Action, source: Source) {
    a.Reply? && a.card.Some? && a.job < |s.jobs| && s.jobs[a.job].source == source
  }

  // A final for the message completes.
  ghost predicate FinalCompletes(s: State, a: Action, source: Source) {
    && (a.Patch? || a.Answer?) && a.ok && a.sender < |s.senders|
    && s.senders[a.sender].isFinal && s.senders[a.sender].source == source
  }

  // A message never has two unfinished tasks, nor a recorded card and an
  // unfinished task.
  lemma OneTask(states: seq<State>, actions: seq<Action>, k: nat, i: nat, j: nat)
    requires Run(states, actions) && k < |states| && i < |states[k].jobs| && j < |states[k].jobs|
    requires !states[k].jobs[i].done && states[k].jobs[i].source == states[k].jobs[j].source
    ensures !states[k].jobs[j].done ==> i == j
    ensures states[k].jobs[i].source !in states[k].tables.cards
  {
    RunKeeps(states, actions, k);
  }

  // A sender only ever patches a card that was made for its own message.
  lemma OwnCard(states: seq<State>, actions: seq<Action>, k: nat, i: nat)
    requires Run(states, actions) && k < |states| && i < |states[k].senders| && states[k].senders[i].phase.Patching?
    ensures MadeFor(states[k].jobs, states[k].senders[i].source, states[k].senders[i].phase.card)
  {
    RunKeeps(states, actions, k);
    assert SenderSound(states[k].jobs, states[k].senders[i]);
  }

  lemma CardStays(s: State, a: Action, source: Source)
    requires Inv(s) && Enabled(s, a) && source in s.tables.cards && !FinalCompletes(s, a, source)
    ensures source in Step(s, a).tables.cards
  {}

  lemma {:induction false} CardKept(states: seq<State>, actions: seq<Action>, source: Source, i: nat, j: nat)
    requires Run(states, actions) && i <= j < |states| && source in states[i].tables.cards
    requires forall m :: i <= m < j ==> !FinalCompletes(states[m], actions[m], source)
    ensures source in states[j].tables.cards
    decreases j
  {
    hide FinalCompletes, Step, Inv;
    if i < j {
      CardKept(states, actions, source, i, j - 1);
      RunKeeps(states, actions, j - 1);
      CardStays(states[j-1], actions[j-1], source);
    }
  }

  // Between two cards recorded for one message, a final for it completes.
  lemma RecordedTwice(states: seq<State>, actions: seq<Action>, source: Source, i: nat, j: nat)
    requires Run(states, actions) && i < j < |actions|
    requires RecordsCard(states[i], actions[i], source) && RecordsCard(states[j], actions[j], source)
    ensures exists m :: i < m < j && FinalCompletes(states[m], actions[m], source)
  {
    assert source in states[i+1].tables.cards;
    if forall m :: i + 1 <= m < j ==> !FinalCompletes(states[m], actions[m], source) {
      CardKept(states, actions, source, i + 1, j);
      RunKeeps(states, actions, j);
      assert false;
    }
  }

  // The first task of the message is still running, or its card is recorded.
  ghost predicate Busy(s: State, source: Source, job: nat) {
    && job < |s.jobs| && s.jobs[job].source == source
    && (s.jobs[job].done && s.jobs[job].card.Some? ==> source in s.tables.cards)
  }

  lemma BusyStep(s: State, a: Action, source: Source, job: nat)
    requires Inv(s) && Enabled(s, a) && Busy(s, source, job) && !FinalCompletes(s, a, source)
    ensures Busy(Step(s, a), source, job)
  {
    if source in s.tables.cards {
      CardStays(s, a, source);
    }
  }

  lemma {:induction false} StaysBusy(states: seq<State>, actions: seq<Action>, source: Source, job: nat, i: nat, j: nat)
    requires Run(states, actions) && i <= j < |states| && Busy(states[i], source, job)
    requires forall m :: i <= m < j ==> !FinalCompletes(states[m], actions[m], source)
    ensures Busy(states[j], source, job)
    decreases j
  {
    hide FinalCompletes, Step, Inv, Busy;
    if i < j {
      StaysBusy(states, actions, source, job, i, j - 1);
      RunKeeps(states, actions, j - 1);
      BusyStep(states[j-1], actions[j-1], source, job);
    }
  }

  // A second task is created for a message only after the first one ended without a
  // card, or after a final for the message completed.
  lemma CreatedTwice(states: seq<State>, actions: seq<Action>, source: Source, i: nat, j: nat)
    requires Run(states, actions) && i < j < |actions|
    requires StartsTask(states[i], actions[i], source) && StartsTask(states[j], actions[j], source)
    ensures
      var job := states[i].tables.jobs;
      || (exists m :: i < m < j && FinalCompletes(states[m], actions[m], source))
      || (job < |states[j].jobs| && states[j].jobs[job].done && states[j].jobs[job].card.None?)
  {
    var job := states[i].tables.jobs;
    RunKeeps(states, actions, i);
    assert Busy(states[i+1], source, job);
    if forall m :: i + 1 <= m < j ==> !FinalCompletes(states[m], actions[m], source) {
      StaysBusy(states, actions, source, job, i + 1, j);
      RunKeeps(states, actions, j);
    }
  }

  // --- what a final leaves behind ---

  ghost predicate Unfinished(s: State, source: Source) {
    exists j :: 0 <= j < |s.jobs| && s.jobs[j].source == source && !s.jobs[j].done
  }

  // Task j may record a card for the message as the next step.
  ghost predicate CanRecord(s: State, source: Source, j: nat) {
    forall card :: Enabled(s, Reply(j, Some(card)))
                   && Step(s, Reply(j, Some(card))).tables.cards == s.tables.cards[source := card]
  }

  ghost predicate CardCanCome(s: State, source: Source) {
    exists j :: CanRecord(s, source, j)
  }

  // Neither a card nor a task that could still record one.
  ghost predicate Quiet(s: State, source: Source) {
    source !in s.tables.cards && !Unfinished(s, source)
  }

  lemma QuietStep(s: State, a: Action, source: Source)
    requires Inv(s) && Enabled(s, a) && Quiet(s, source) && !StartsTask(s, a, source)
    ensures Quiet(Step(s, a), source)
  {
    var t := Step(s, a);
    forall j | 0 <= j < |t.jobs| && t.jobs[j].source == source ensures t.jobs[j].done {
      if j < |s.jobs| {
        assert s.jobs[j].done;
      }
    }
  }

  lemma {:induction false} StaysQuiet(states: seq<State>, actions: seq<Action>, source: Source, i: nat, j: nat)
    requires Run(states, actions) && i <= j < |states| && Quiet(states[i], source)
    requires forall m :: i <= m < j ==> !StartsTask(states[m], actions[m], source)
    ensures Quiet(states[j], source)
    decreases j
  {
    hide StartsTask, Step, Inv, Quiet;
    if i < j {
      StaysQuiet(states, actions, source, i, j - 1);
      RunKeeps(states, actions, j - 1);
      QuietStep(states[j-1], actions[j-1], source);
    }
  }

  // After a final no running card turns up again unless a new task is started,
  // exactly when no task of the message was unfinished as the final completed.
  lemma QuietAfterFinalExactly(states: seq<State>, actions: seq<Action>, source: Source, i: nat)
    requires Run(states, actions) && i < |actions| && FinalCompletes(states[i], actions[i], source)
    ensures source !in states[i+1].tables.cards
    ensures !Unfinished(states[i], source) ==>
              forall j :: i < j < |states| && (forall m :: i < m < j ==> !StartsTask(states[m], actions[m], source)) ==>
                            Quiet(states[j], source)
    ensures Unfinished(states[i], source) ==>
              CardCanCome(states[i+1], source)
  {
    var s, t := states[i], states[i+1];
    assert t.jobs == s.jobs && source !in t.tables.cards;
    if Unfinished(s, source) {
      var j :| 0 <= j < |s.jobs| && s.jobs[j].source == source && !s.jobs[j].done;
      assert CanRecord(t, source, j);
    } else {
      assert Quiet(t, source);
      forall j | i < j < |states| && (forall m :: i < m < j ==> !StartsTask(states[m], actions[m], source))
        ensures Quiet(states[j], source)
      {
        StaysQuiet(states, actions, source, i + 1, j);
      }
    }
  }

  ghost predicate Follows(states: seq<State>, actions: seq<Action>) {
    && |states| == |actions| + 1
    && forall k :: 0 <= k < |actions| ==> Enabled(states[k], actions[k]) && states[k+1] == Step(states[k], actions[k])
  }

  lemma RunOn(a: seq<State>, xs: seq<Action>, b: seq<State>, ys: seq<Action>)
    requires Run(a, xs) && Follows(b, ys) && a[|xs|] == b[0]
    ensures Run(a + b[1..], xs + ys)
    ensures forall i :: 0 <= i < |b| ==> (a + b[1..])[|xs| + i] == b[i]
  {
    hide Enabled, Step;
    var states, actions := a + b[1..], xs + ys;
    forall k | 0 <= k < |actions|
      ensures Enabled(states[k], actions[k]) && states[k+1] == Step(states[k], actions[k])
    {
      if k >= |xs| {
        assert actions[k] == ys[k - |xs|] && states[k] == b[k - |xs|] && states[k+1] == b[k - |xs| + 1];
      } else {
        assert actions[k] == xs[k] && states[k] == a[k] && states[k+1] == a[k+1];
      }
    }
  }

  // The first task of a message ended without a card.
  ghost function Cardless(source: Source): State {
    State(Tables(map[], map[], 1), [Job(source, true, false, None)], [])
  }

  lemma EndsCardless(source: Source) returns (states: seq<State>)
    ensures Run(states, [Ensure(source), Reply(0, None), Callback(0)]) && states[3] == Cardless(source)
  {
    states := [State(Tables(map[], map[], 0), [], []),
               State(Tables(map[], map[source := 0], 1), [Job(source, false, false, None)], []),
               State(Tables(map[], map[source := 0], 1), [Job(source, true, false, None)], []), Cardless(source)];
    assert map[source := 0] - {source} == map[];
  }

  lemma FinalThenCard(source: Source, card: Card) returns (states: seq<State>)
    ensures Follows(states, [Begin(source, true), Ensure(source), Answer(0, Some(card), true), Reply(1, Some(card))])
    ensures states[0] == Cardless(source) && FinalCompletes(states[2], Answer(0, Some(card), true), source)
    ensures |states[4].senders| == 1 && states[4].senders[0].phase.Completed? && source in states[4].tables.cards
  {
    var first, next := Job(source, true, false, None), Job(source, false, false, None);
    var s1 := State(Tables(map[], map[], 1), [first], [Sender(source, true, Replying)]);
    var s2 := State(Tables(map[], map[source := 1], 2), [first, next], [Sender(source, true, Replying)]);
    var s3 := s2.(senders := [Sender(source, true, Completed(Some(card)))]);
    var s4 := s3.(tables := Tables(map[source := card], map[source := 1], 2), jobs := [first, next.(done := true, card := Some(card))]);
    states := [Cardless(source), s1, s2, s3, s4];
  }

  // It can happen: the first task ends without a card, so the final finds neither card
  // nor task; the message arrives once more while the answer is under way, and the card
  // is recorded when nobody will finish it.
  lemma FinalCanLeaveCard(source: Source, card: Card) returns (states: seq<State>, actions: seq<Action>)
    ensures Run(states, actions)
    ensures actions == [Ensure(source), Reply(0, None), Callback(0), Begin(source, true), Ensure(source),
                        Answer(0, Some(card), true), Reply(1, Some(card))]
    ensures exists i :: 0 <= i < |actions| && FinalCompletes(states[i], actions[i], source)
    ensures |states[|actions|].senders| == 1 && states[|actions|].senders[0].phase.Completed?
    ensures source in states[|actions|].tables.cards
  {
    hide Enabled, Step, Run, Follows, FinalCompletes, Cardless;
    var a := EndsCardless(source);
    var b := FinalThenCard(source, card);
    var xs := [Ensure(source), Reply(0, None), Callback(0)];
    var ys := [Begin(source, true), Ensure(source), Answer(0, Some(card), true), Reply(1, Some(card))];
    RunOn(a, xs, b, ys);
    actions, states := xs + ys, a + b[1..];
    assert actions[5] == ys[2] && states[5] == b[2] && states[7] == b[4];
  }

  // --- every final is answered ---

  // An earlier action by which sender i got its answer through, and one that ended it.
  ghost predicate Answers(a: Action, i: nat) {
    a == Patch(i, true) || (a.Answer? && a.sender == i && a.ok)
  }

  ghost predicate Fails(s: State, a: Action, i: nat)
    requires i < |s.senders|
  {
    || (a.Answer? && a.sender == i && !a.ok)
    || (a == Patch(i, false) && !s.senders[i].isFinal)
    || (a == Resume(i) && Waits(s.senders[i].phase) && s.senders[i].phase.task < |s.jobs| && s.jobs[s.senders[i].phase.task].failed)
  }

  ghost predicate AnsweredAt(states: seq<State>, actions: seq<Action>, i: nat, m: int) {
    0 <= m < |actions| < |states| && i < |states[m].senders| && Answers(actions[m], i)
  }

  ghost predicate FailedAt(states: seq<State>, actions: seq<Action>, i: nat, m: int) {
    0 <= m < |actions| < |states| && i < |states[m].senders| && Fails(states[m], actions[m], i)
  }

  // What one action does to a sender that was there before.
  lemma SenderMoves(s: State, a: Action, i: nat)
    requires Enabled(s, a) && i < |s.senders| && (s.senders[i].isFinal ==> !s.senders[i].phase.AwaitingOwn?)
    ensures var t := Step(s, a);
            && i < |t.senders| && (t.senders[i].isFinal ==> !t.senders[i].phase.AwaitingOwn?)
            && t.senders[i].source == s.senders[i].source && t.senders[i].isFinal == s.senders[i].isFinal
            && (t.senders[i].phase.Completed? && s.senders[i].isFinal ==> s.senders[i].phase.Completed? || Answers(a, i))
            && (t.senders[i].phase.Failed? ==> s.senders[i].phase.Failed? || Fails(s, a, i))
  {}

  // A new sender has neither finished nor failed, and a final creates no card.
  lemma NewSender(s: State, a: Action, i: nat)
    requires Enabled(s, a) && |s.senders| <= i < |Step(s, a).senders|
    ensures !Step(s, a).senders[i].phase.Completed? && !Step(s, a).senders[i].phase.Failed?
    ensures Step(s, a).senders[i].isFinal ==> !Step(s, a).senders[i].phase.AwaitingOwn?
  {}

  // Over any run a final is completed only by a card patched or a reply sent with its
  // answer; and it fails only with the reply, or with the creation it waited for: when
  // its patch fails, it goes on to reply.
  lemma {:induction false} FinalsAreAnswered(states: seq<State>, actions: seq<Action>, k: nat, i: nat)
    requires Run(states, actions) && k < |states| && i < |states[k].senders|
    ensures states[k].senders[i].isFinal && states[k].senders[i].phase.Completed? ==>
              exists m :: m < k && AnsweredAt(states, actions, i, m)
    ensures states[k].senders[i].phase.Failed? ==> exists m :: m < k && FailedAt(states, actions, i, m)
    ensures states[k].senders[i].isFinal ==> !states[k].senders[i].phase.AwaitingOwn?
    decreases k
  {
    if k > 0 {
      assert Enabled(states[k-1], actions[k-1]) && states[k] == Step(states[k-1], actions[k-1]);
      if i < |states[k-1].senders| {
        FinalsAreAnswered(states, actions, k - 1, i);
        SenderMoves(states[k-1], actions[k-1], i);
        hide Step, Enabled, Answers, Fails, Run;
        assert Answers(actions[k-1], i) ==> AnsweredAt(states, actions, i, k - 1);
        assert Fails(states[k-1], actions[k-1], i) ==> FailedAt(states, actions, i, k - 1);
      } else {
        NewSender(states[k-1], actions[k-1], i);
        hide Step, Enabled;
      }
    }
  }

  // A final whose patch fails can still reply, and then has nothing else left to do.
  lemma FailedPatchIsReplied(s: State, i: nat, card: Option<Card>)
    requires Enabled(s, Patch(i, false)) && s.senders[i].isFinal
    ensures var t := Step(s, Patch(i, false));
            && t.tables == s.tables && t.jobs == s.jobs && Enabled(t, Answer(i, card, true))
            && Step(t, Answer(i, card, true)).senders[i].phase.Completed?
            && s.senders[i].source !in Step(t, Answer(i, card, true)).tables.cards
  {}

  // --- which way an answer goes ---

  // A send uses the card there is, or else waits for the one being made; only without
  // either does a final reply, and an update have a card made, with its own text.
  lemma SendUsesCard(s: State, source: Source, isFinal: bool)
    ensures var i := |s.senders|;
            var t := Step(s, Begin(source, isFinal));
            && |t.senders| == i + 1 && t.senders[i].source == source && t.senders[i].isFinal == isFinal
            && (source in s.tables.cards ==> t == s.(senders := t.senders) && t.senders[i].phase == Patching(s.tables.cards[source]))
            && (source !in s.tables.cards && source in s.tables.tasks ==>
                  t == s.(senders := t.senders) && t.senders[i].phase == AwaitingCard(s.tables.tasks[source]))
            && (source !in s.tables.cards && source !in s.tables.tasks && isFinal ==>
                  t == s.(senders := t.senders) && t.senders[i].phase == Replying)
            && (source !in s.tables.cards && source !in s.tables.tasks && !isFinal ==>
                  t.jobs == s.jobs + [Job(source, false, false, None)] && t.senders[i].phase == AwaitingOwn(s.tables.jobs))
  {}

  ghost predicate TurnsToReply(s: State, a: Action, i: nat) {
    || (a.Begin? && a.isFinal && i == |s.senders| && a.source !in s.tables.cards && a.source !in s.tables.tasks)
    || (i < |s.senders| && s.senders[i].isFinal
        && (a == Patch(i, false)
            || (a == Resume(i) && s.senders[i].phase.AwaitingCard? && s.senders[i].phase.task < |s.jobs|
                && s.jobs[s.senders[i].phase.task].card == None)))
  }

  ghost predicate TurnsAt(states: seq<State>, actions: seq<Action>, i: nat, m: int) {
    0 <= m < |actions| < |states| && TurnsToReply(states[m], actions[m], i)
  }

  lemma ReplyStep(s: State, a: Action, i: nat)
    requires Enabled(s, a) && i < |Step(s, a).senders| && Step(s, a).senders[i].phase.Replying?
    requires i < |s.senders| && s.senders[i].isFinal ==> !s.senders[i].phase.AwaitingOwn?
    ensures (i < |s.senders| && s.senders[i].phase.Replying?) || TurnsToReply(s, a, i)
  {}

  // Over any run a separate reply is sent only by a final that found neither card nor
  // creation, whose creation ended without a card, or whose patch failed.
  lemma {:induction false} RepliesOnlyWithoutCard(states: seq<State>, actions: seq<Action>, k: nat, i: nat)
    requires Run(states, actions) && k < |states| && i < |states[k].senders| && states[k].senders[i].phase.Replying?
    ensures exists m :: m < k && TurnsAt(states, actions, i, m)
    decreases k
  {
    if k > 0 {
      assert Enabled(states[k-1], actions[k-1]) && states[k] == Step(states[k-1], actions[k-1]);
      if i < |states[k-1].senders| {
        FinalsAreAnswered(states, actions, k - 1, i);
      }
      ReplyStep(states[k-1], actions[k-1], i);
      hide Step, Enabled, TurnsToReply;
      if i < |states[k-1].senders| && states[k-1].senders[i].phase.Replying? {
        RepliesOnlyWithoutCard(states, actions, k - 1, i);
      } else {
        assert TurnsAt(states, actions, i, k - 1);
      }
    }
  }
}
