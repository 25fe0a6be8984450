// How far the cache of the setup-status endpoint can outgrow its limit: runs in
// which many addresses wait at once.
module SetupLimit {
  import opened Wrappers
  import opened SetupStatus

  // Address i; the length tells them apart.
  function Address(i: nat): (ip: Ip)
    ensures |ip| == i
  {
    seq(i, _ => 'x')
  }

  ghost function Addresses(from: nat, until: nat): set<Ip> {
    set i: nat | from <= i < until :: Address(i)
  }

  lemma {:induction false} AddressCount(from: nat, until: nat)
    requires from <= until
    ensures |Addresses(from, until)| == until - from
    decreases until
  {
    if from == until {
      assert Addresses(from, until) == {};
    } else {
      AddressCount(from, until - 1);
      assert Addresses(from, until) == Addresses(from, until - 1) + {Address(until - 1)};
      assert Address(until - 1) !in Addresses(from, until - 1);
    }
  }

  // Request and job i are those of address i. The first n addresses have their
  // answers, the next p are waiting, and at most w ever waited at once.
  ghost function Crowd(n: nat, p: nat, w: nat): State {
    State(0.0, 1, 1, Answers(n), Waiting(n, p), seq(n + p, i requires 0 <= i => JobOf(i, n)),
          seq(n + p, i requires 0 <= i => RequestOf(i, n)), w)
  }

  ghost function Answers(n: nat): map<Ip, Entry> {
    map ip | ip in Addresses(0, n) :: Entry(0.0, false)
  }

  ghost function Waiting(n: nat, p: nat): map<Ip, nat> {
    map ip | ip in Addresses(n, n + p) :: |ip|
  }

  ghost function JobOf(i: nat, n: nat): Job {
    if i < n then Job(Address(i), Some(1), true, Some(false)) else Job(Address(i), None, false, None)
  }

  ghost function RequestOf(i: nat, n: nat): Request {
    Request(Address(i), if i < n then Answered(false, false) else Awaiting(i))
  }

  lemma CrowdSizes(n: nat, p: nat, w: nat)
    ensures |Crowd(n, p, w).cache| == n && |Pending(Crowd(n, p, w).requests)| == p
  {
    AddressCount(0, n);
    AddressCount(n, n + p);
    assert Answers(n).Keys == Addresses(0, n);
    assert |Answers(n).Keys| == |Answers(n)|;
    var requests := Crowd(n, p, w).requests;
    forall ip ensures ip in Pending(requests) <==> ip in Addresses(n, n + p) {
      if ip in Addresses(n, n + p) {
        var i: nat :| n <= i < n + p && ip == Address(i);
        assert requests[i] == RequestOf(i, n) && requests[i] in requests;
      }
    }
    assert Pending(requests) == Addresses(n, n + p);
  }

  // --- one more address ---

  // Some steps lead from s to t.
  ghost predicate Leads(s: State, actions: seq<Action>, t: State)
    decreases |actions|
  {
    if actions == [] then t == s
    else exists mid :: LeadsVia(s, actions, mid, t)
  }

  ghost predicate LeadsVia(s: State, actions: seq<Action>, mid: State, t: State)
    requires actions != []
    decreases |actions|, 0
  {
    Leads(s, actions[..|actions|-1], mid) && Next(mid, actions[|actions|-1], t)
  }

  lemma NoStep(s: State)
    ensures Leads(s, [], s)
  {}

  lemma OneStep(s: State, actions: seq<Action>, mid: State, a: Action, t: State)
    requires Leads(s, actions, mid) && Next(mid, a, t)
    ensures Leads(s, actions + [a], t)
  {
    assert (actions + [a])[..|actions|] == actions;
    assert LeadsVia(s, actions + [a], mid, t);
  }

  lemma {:induction false} LeadsOn(s: State, xs: seq<Action>, mid: State, ys: seq<Action>, t: State)
    requires Leads(s, xs, mid) && Leads(mid, ys, t)
    ensures Leads(s, xs + ys, t)
    decreases |ys|
  {
    hide Next;
    if ys == [] {
      assert xs + ys == xs;
    } else {
      var init, last := ys[..|ys|-1], ys[|ys|-1];
      var m :| LeadsVia(mid, ys, m, t);
      LeadsOn(s, xs, mid, init, m);
      OneStep(s, xs + init, m, last, t);
      assert (xs + init) + [last] == xs + ys;
    }
  }

  lemma GrownTables(n: nat, p: nat)
    ensures var ip := Address(n + p);
            ip !in Answers(n) && ip !in Waiting(n, p) && Waiting(n, p + 1) == Waiting(n, p)[ip := n + p]
  {
    assert Addresses(n, n + p + 1) == Addresses(n, n + p) + {Address(n + p)};
    assert Address(n + p) !in Addresses(0, n);
  }

  lemma GrownLists(n: nat, p: nat, w: nat)
    ensures Crowd(n, p + 1, w).jobs == Crowd(n, p, w).jobs + [Job(Address(n + p), None, false, None)]
    ensures Crowd(n, p + 1, w).requests == Crowd(n, p, w).requests + [Request(Address(n + p), Awaiting(n + p))]
  {
    hide Answers, Waiting;
  }

  lemma GrownState(n: nat, p: nat, w: nat)
    ensures var s, t, ip, r := Crowd(n, p, w), Crowd(n, p + 1, Max(w, p + 1)), Address(n + p), n + p;
            && |s.jobs| == |s.requests| == r && |s.cache| == n && s.width == w && ip !in s.cache && ip !in s.inflight
            && |Pending(t.requests)| == p + 1
            && t == s.(inflight := s.inflight[ip := r], jobs := s.jobs + [Job(ip, None, false, None)],
                       requests := s.requests + [Request(ip, Awaiting(r))], width := Max(w, p + 1))
  {
    CrowdSizes(n, p, w);
    CrowdSizes(n, p + 1, Max(w, p + 1));
    GrownTables(n, p);
    GrownLists(n, p, w);
    GrownLists(n, p, Max(w, p + 1));
    hide Answers, Waiting, Address, JobOf, RequestOf, Pending;
  }

  ghost function Arrived(n: nat, p: nat, w: nat): State {
    Crowd(n, p, w).(requests := Crowd(n, p, w).requests + [Request(Address(n + p), Phase.Waiting)])
  }

  lemma CrowdArrives(n: nat, p: nat, w: nat)
    ensures Next(Crowd(n, p, w), Arrive(Address(n + p)), Arrived(n, p, w))
  {
    GrownTables(n, p);
    hide Answers, Waiting, Address, JobOf, RequestOf;
  }

  lemma CrowdEnters(n: nat, p: nat, w: nat)
    requires n < MAX_TRACKED_IPS
    ensures Next(Arrived(n, p, w), Enter(n + p), Crowd(n, p + 1, Max(w, p + 1)))
  {
    var mid, t, r := Arrived(n, p, w), Crowd(n, p + 1, Max(w, p + 1)), n + p;
    GrownState(n, p, w);
    hide Crowd, Address, Pending;
    assert mid.requests[r := Request(Address(r), Awaiting(r))] == t.requests;
    assert Starts(mid, r, t);
  }

  // Another address arrives and starts to wait; the cache is below its limit, so
  // nothing is pruned.
  lemma CrowdGrows(n: nat, p: nat, w: nat) returns (actions: seq<Action>)
    requires n < MAX_TRACKED_IPS
    ensures Leads(Crowd(n, p, w), actions, Crowd(n, p + 1, Max(w, p + 1)))
  {
    hide Next, Leads, Crowd, Arrived, Address;
    var s, mid, t, ip, r := Crowd(n, p, w), Arrived(n, p, w), Crowd(n, p + 1, Max(w, p + 1)), Address(n + p), n + p;
    CrowdArrives(n, p, w);
    CrowdEnters(n, p, w);
    NoStep(s);
    OneStep(s, [], s, Arrive(ip), mid);
    OneStep(s, [] + [Arrive(ip)], mid, Enter(r), t);
    actions := [] + [Arrive(ip)] + [Enter(r)];
  }

  // The first of those waiting gets its answer, and it is stored.
  lemma CrowdShrinks(n: nat, p: nat, w: nat) returns (actions: seq<Action>)
    requires p > 0
    ensures Leads(Crowd(n, p, w), actions, Crowd(n + 1, p - 1, w))
  {
    var s, t, ip := Crowd(n, p, w), Crowd(n + 1, p - 1, w), Address(n);
    var s1 := s.(jobs := s.jobs[n := Job(ip, Some(1), false, None)]);
    var s2 := s.(jobs := s.jobs[n := Job(ip, Some(1), true, Some(false))]);
    var s3 := s2.(requests := s.requests[n := Request(ip, Settling(n, Some(false)))]);
    assert s.requests[n] == RequestOf(n, n) && s.jobs[n] == JobOf(n, n);
    assert Next(s, Count(n), s1);
    assert s2.jobs == s1.jobs[n := Job(ip, Some(1), true, Some(false))];
    assert Next(s1, Finish(n, true), s2);
    assert Next(s2, Wake(n, true), s3);
    ShrunkState(n, p, w, s3);
    hide Next, Crowd;
    NoStep(s);
    OneStep(s, [], s, Count(n), s1);
    OneStep(s, [] + [Count(n)], s1, Finish(n, true), s2);
    OneStep(s, [] + [Count(n)] + [Finish(n, true)], s2, Wake(n, true), s3);
    OneStep(s, [] + [Count(n)] + [Finish(n, true)] + [Wake(n, true)], s3, Settle(n), t);
    actions := [] + [Count(n)] + [Finish(n, true)] + [Wake(n, true)] + [Settle(n)];
  }

  lemma ShrunkTables(n: nat, p: nat)
    requires p > 0
    ensures var ip := Address(n);
            && Answers(n + 1) == Answers(n)[ip := Entry(0.0, false)]
            && ip in Waiting(n, p) && Waiting(n, p)[ip] == n && Waiting(n + 1, p - 1) == Waiting(n, p) - {ip}
  {
    assert Addresses(0, n + 1) == Addresses(0, n) + {Address(n)};
    assert Addresses(n, n + p) == Addresses(n + 1, n + p) + {Address(n)};
    assert Address(n) !in Addresses(n + 1, n + p);
  }

  lemma ShrunkState(n: nat, p: nat, w: nat, s: State)
    requires p > 0
    requires var c := Crowd(n, p, w);
             s == c.(jobs := c.jobs[n := Job(Address(n), Some(1), true, Some(false))],
                     requests := c.requests[n := Request(Address(n), Settling(n, Some(false)))])
    ensures Next(s, Settle(n), Crowd(n + 1, p - 1, w))
  {
    var t, ip := Crowd(n + 1, p - 1, w), Address(n);
    ShrunkTables(n, p);
    hide Answers, Waiting, Address;
    assert t.requests == Move(s.requests, n, Answered(false, false));
    assert t.jobs == s.jobs;
    hide JobOf, RequestOf;
  }

  // --- whole runs ---

  lemma {:induction false} FillOneByOne(n: nat) returns (actions: seq<Action>)
    requires 0 < n < MAX_TRACKED_IPS
    ensures Leads(Crowd(0, 0, 0), actions, Crowd(n, 0, 1))
    decreases n
  {
    hide Leads, Crowd;
    var before := if n == 1 then Crowd(0, 0, 0) else Crowd(n - 1, 0, 1);
    if n == 1 {
      actions := [];
      NoStep(before);
    } else {
      actions := FillOneByOne(n - 1);
    }
    var grow := CrowdGrows(n - 1, 0, if n == 1 then 0 else 1);
    var shrink := CrowdShrinks(n - 1, 1, 1);
    LeadsOn(Crowd(0, 0, 0), actions, before, grow, Crowd(n - 1, 1, 1));
    LeadsOn(Crowd(0, 0, 0), actions + grow, Crowd(n - 1, 1, 1), shrink, Crowd(n, 0, 1));
    actions := actions + grow + shrink;
  }

  lemma {:induction false} AllWait(n: nat, w: nat) returns (actions: seq<Action>)
    requires n < MAX_TRACKED_IPS && w > 0
    ensures Leads(Crowd(n, 0, 1), actions, Crowd(n, w, w))
    decreases w
  {
    hide Leads, Crowd;
    if w == 1 {
      actions := CrowdGrows(n, 0, 1);
    } else {
      var first := AllWait(n, w - 1);
      var grow := CrowdGrows(n, w - 1, w - 1);
      LeadsOn(Crowd(n, 0, 1), first, Crowd(n, w - 1, w - 1), grow, Crowd(n, w, w));
      actions := first + grow;
    }
  }

  lemma {:induction false} AllSettle(n: nat, p: nat, w: nat) returns (actions: seq<Action>)
    ensures Leads(Crowd(n, p, w), actions, Crowd(n + p, 0, w))
    decreases p
  {
    hide Leads, Crowd;
    if p == 0 {
      actions := [];
      NoStep(Crowd(n, p, w));
    } else {
      var first := CrowdShrinks(n, p, w);
      var rest := AllSettle(n + 1, p - 1, w);
      LeadsOn(Crowd(n, p, w), first, Crowd(n + 1, p - 1, w), rest, Crowd(n + p, 0, w));
      actions := first + rest;
    }
  }

  // A path of steps is a run.
  lemma {:induction false} LeadsIsRun(s: State, actions: seq<Action>, t: State) returns (states: seq<State>)
    requires Init(s) && Leads(s, actions, t)
    ensures Run(states, actions) && states[|actions|] == t
    decreases |actions|
  {
    hide Next, Init;
    if actions == [] {
      states := [s];
    } else {
      var n := |actions| - 1;
      var mid :| LeadsVia(s, actions, mid, t);
      var before := LeadsIsRun(s, actions[..n], mid);
      states := before + [t];
      forall i | 0 <= i < |actions| ensures Next(states[i], actions[i], states[i+1]) {
        if i < n {
          assert Next(before[i], actions[..n][i], before[i+1]);
        }
      }
    }
  }

  // Whatever the number w of addresses that wait at once, there is a run with no more
  // of them that ends with 9999 + w answers in the cache.
  lemma CacheGrowsTo(w: nat) returns (states: seq<State>, actions: seq<Action>)
    requires w > 0
    ensures Run(states, actions) && states[|actions|].width == w
    ensures |states[|actions|].cache| == 9999 + w
  {
    var n := MAX_TRACKED_IPS - 1;
    var fill := FillOneByOne(n);
    var wait := AllWait(n, w);
    var settle := AllSettle(n, w, w);
    assert Init(Crowd(0, 0, 0)) by {
      assert Addresses(0, 0) == {};
    }
    CrowdSizes(n + w, 0, w);
    assert Crowd(n + w, 0, w).width == w;
    hide Leads, Crowd, Run, Init;
    LeadsOn(Crowd(0, 0, 0), fill, Crowd(n, 0, 1), wait, Crowd(n, w, w));
    LeadsOn(Crowd(0, 0, 0), fill + wait, Crowd(n, w, w), settle, Crowd(n + w, 0, w));
    actions := fill + wait + settle;
    states := LeadsIsRun(Crowd(0, 0, 0), actions, Crowd(n + w, 0, w));
    RunLength(states, actions);
  }

  lemma RunLength(states: seq<State>, actions: seq<Action>)
    requires Run(states, actions)
    ensures |states| == |actions| + 1
  {}

  // In all runs in which at most w addresses ever wait at once the cache stays within
  // its limit.
  ghost predicate LimitHolds(w: nat) {
    forall states: seq<State>, actions: seq<Action>, k: nat ::
      Run(states, actions) && k < |states| && states[k].width <= w ==> |states[k].cache| <= 10000
  }

  // The limit is kept if and only if addresses wait one at a time.
  lemma LimitExactly(w: nat)
    ensures LimitHolds(w) <==> w <= 1
  {
    if w <= 1 {
      forall states: seq<State>, actions: seq<Action>, k: nat | Run(states, actions) && k < |states| && states[k].width <= w
        ensures |states[k].cache| <= MAX_TRACKED_IPS
      {
        hide Run;
        CacheSize(states, actions, k);
      }
    } else {
      var states, actions := CacheGrowsTo(2);
      hide Run;
      RunLength(states, actions);
    }
  }
}
