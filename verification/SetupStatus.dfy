// The setup-status endpoint: cached answers, and one computation per address at a
// time, shared by the requests that arrive while it runs.
module SetupStatus {
  import opened Wrappers
  import opened Sequences
  import opened Eviction

  const TTL := 60.0
  const MAX_TRACKED_IPS := 10000

  type Ip = string

  datatype Entry = Entry(at: real, needsSetup: bool)

  // --- the two tables ---

  function Cached(cache: map<Ip, Entry>, ip: Ip, now: real): Option<bool> {
    if ip in cache && now - cache[ip].at < TTL then Some(cache[ip].needsSetup) else None
  }

  ghost function Times(cache: map<Ip, Entry>): map<Ip, real> {
    map ip | ip in cache :: cache[ip].at
  }

  ghost function Unexpired(cache: map<Ip, Entry>, now: real): map<Ip, Entry> {
    map ip | ip in cache && cache[ip].at >= now - TTL :: cache[ip]
  }

  // Room is made in a full cache: expired answers go first, then, if that is not
  // enough, the older half.
  ghost predicate Pruned(before: map<Ip, Entry>, after: map<Ip, Entry>, now: real) {
    if |before| < MAX_TRACKED_IPS then after == before
    else
      var kept := Unexpired(before, now);
      if |kept| < MAX_TRACKED_IPS then after == kept
      else after == kept - (kept.Keys - after.Keys) && DropsOlderHalf(Times(kept), Times(after))
  }

  ghost function Cleared(inflight: map<Ip, nat>, ip: Ip, job: nat): map<Ip, nat> {
    if ip in inflight && inflight[ip] == job then inflight - {ip} else inflight
  }

  // A failed computation leaves the cache alone, and only "set up" is kept.
  ghost function Stored(cache: map<Ip, Entry>, ip: Ip, outcome: Option<bool>, now: real): map<Ip, Entry> {
    if outcome.None? then cache
    else if outcome.value then cache - {ip}
    else cache[ip := Entry(now, false)]
  }

  // What entering the guarded section does: a cached answer is given, the current
  // job is joined, or a new one is started after pruning.
  ghost predicate Entered(cache: map<Ip, Entry>, inflight: map<Ip, nat>, jobs: nat, ip: Ip, now: real,
                          cache': map<Ip, Entry>, inflight': map<Ip, nat>, jobs': nat,
                          answer: Option<bool>, job: nat)
  {
    && answer == Cached(cache, ip, now)
    && (answer.None? ==> job == if ip in inflight then inflight[ip] else jobs)
    && if answer.Some? || ip in inflight then cache' == cache && inflight' == inflight && jobs' == jobs
       else Pruned(cache, cache', now) && inflight' == inflight[ip := job] && jobs' == jobs + 1
  }

  lemma WithoutDropped(kept: map<Ip, Entry>, dropped: set<Ip>)
    requires dropped <= kept.Keys
    ensures Times(kept - dropped) == Times(kept) - dropped
    ensures kept.Keys - (kept - dropped).Keys == dropped
  {}

  class SetupTables {
    var cache: map<Ip, Entry>
    var inflight: map<Ip, nat>
    var jobs: nat

    constructor ()
      ensures cache == map[] && inflight == map[] && jobs == 0
    {
      cache, inflight, jobs := map[], map[], 0;
    }

    method Prune(now: real)
      modifies this`cache
      ensures Pruned(old(cache), cache, now)
    {
      if |cache| >= MAX_TRACKED_IPS {
        cache := map ip | ip in cache && cache[ip].at >= now - TTL :: cache[ip];
        assert cache == Unexpired(old(cache), now);
        if |cache| >= MAX_TRACKED_IPS {
          hide DropsOlderHalf, Unexpired;
          ghost var kept := cache;
          var times := map ip | ip in cache :: cache[ip].at;
          var dropped := OlderHalf(times);
          cache := cache - dropped;
          WithoutDropped(kept, dropped);
        }
      }
    }

    // Under the guard: a cached answer, or the job to wait for.
    method Enter(ip: Ip, now: real) returns (answer: Option<bool>, job: nat)
      modifies this
      ensures Entered(old(cache), old(inflight), old(jobs), ip, now, cache, inflight, jobs, answer, job)
    {
      answer, job := Cached(cache, ip, now), 0;
      if answer.None? {
        if ip in inflight {
          job := inflight[ip];
        } else {
          Prune(now);
          job := jobs;
          jobs := jobs + 1;
          inflight := inflight[ip := job];
        }
      }
    }

    // After the wait: forget the job if it is still the current one, and store.
    method Settle(ip: Ip, job: nat, outcome: Option<bool>, now: real)
      modifies this`cache, this`inflight
      ensures inflight == Cleared(old(inflight), ip, job) && cache == Stored(old(cache), ip, outcome, now)
    {
      if ip in inflight && inflight[ip] == job {
        inflight := inflight - {ip};
      }
      if outcome.Some? {
        if !outcome.value {
          cache := cache[ip := Entry(now, false)];
        } else {
          cache := cache - {ip};
        }
      }
    }
  }

  // --- all interleavings ---

  // One computation: when it counted the administrators, and what it returned, if
  // it did not fail.
  datatype Job = Job(ip: Ip, counted: Option<nat>, done: bool, result: Option<bool>)

  datatype Phase =
    | Waiting
    | Awaiting(job: nat)
    | Settling(job: nat, outcome: Option<bool>)
    | Answered(needsSetup: bool, cached: bool)
    | Failed

  datatype Request = Request(ip: Ip, phase: Phase)

  // peak is the largest number of administrators so far, and width the largest
  // number of addresses that had requests waiting for a job at once.
  datatype State = State(clock: real, admins: nat, peak: nat, cache: map<Ip, Entry>, inflight: map<Ip, nat>,
                         jobs: seq<Job>, requests: seq<Request>, width: nat)

  datatype Action =
    | Tick(now: real)
    | SetAdmins(n: nat)
    | Arrive(ip: Ip)
    | Enter(request: nat)
    | Count(job: nat)
    | Finish(job: nat, ok: bool)
    | Wake(request: nat, ok: bool)
    | Settle(request: nat)

  ghost predicate Init(s: State) {
    s.cache == map[] && s.inflight == map[] && s.jobs == [] && s.requests == [] && s.peak == s.admins && s.width == 0
  }

  ghost predicate OnJob(p: Phase) {
    p.Awaiting? || p.Settling?
  }

  // The addresses that have a request waiting for a job.
  ghost function Pending(requests: seq<Request>): set<Ip> {
    set r | r in requests && OnJob(r.phase) :: r.ip
  }

  ghost function Move(requests: seq<Request>, r: nat, phase: Phase): seq<Request>
    requires r < |requests|
  {
    requests[r := requests[r].(phase := phase)]
  }

  function Max(a: nat, b: nat): nat {
    if a < b then b else a
  }

  ghost predicate Arrives(s: State, ip: Ip, t: State) {
    var answer := Cached(s.cache, ip, s.clock);
    t == s.(requests := s.requests + [Request(ip, if answer.Some? then Answered(answer.value, true) else Waiting)])
  }

  ghost predicate Enters(s: State, r: nat, t: State) {
    && r < |s.requests| && s.requests[r].phase == Waiting
    && var ip := s.requests[r].ip;
       var answer := Cached(s.cache, ip, s.clock);
       if answer.Some? then t == s.(requests := Move(s.requests, r, Answered(answer.value, true)))
       else if ip in s.inflight then t == s.(requests := Move(s.requests, r, Awaiting(s.inflight[ip])))
       else Starts(s, r, t)
  }

  ghost predicate Starts(s: State, r: nat, t: State)
    requires r < |s.requests|
  {
    var ip, requests := s.requests[r].ip, Move(s.requests, r, Awaiting(|s.jobs|));
    && Pruned(s.cache, t.cache, s.clock)
    && t == s.(cache := t.cache, inflight := s.inflight[ip := |s.jobs|],
               jobs := s.jobs + [Job(ip, None, false, None)], requests := requests,
               width := Max(s.width, |Pending(requests)|))
  }

  // The step is the guarded section of the endpoint, followed by what its request
  // does next.
  lemma EntersIsEntered(s: State, r: nat, t: State)
    requires Enters(s, r, t)
    ensures r < |s.requests| == |t.requests| && (t.requests[r].phase.Answered? || t.requests[r].phase.Awaiting?)
    ensures
      var phase := t.requests[r].phase;
      Entered(s.cache, s.inflight, |s.jobs|, s.requests[r].ip, s.clock, t.cache, t.inflight, |t.jobs|,
              if phase.Answered? then Some(phase.needsSetup) else None, if phase.Awaiting? then phase.job else 0)
  {
    hide Pruned, Pending;
  }

  ghost predicate Counts(s: State, j: nat, t: State) {
    && j < |s.jobs| && !s.jobs[j].done && s.jobs[j].counted.None?
    && t == s.(jobs := s.jobs[j := s.jobs[j].(counted := Some(s.admins))])
  }

  ghost predicate Finishes(s: State, j: nat, ok: bool, t: State) {
    && j < |s.jobs| && !s.jobs[j].done && (ok ==> s.jobs[j].counted.Some?)
    && t == s.(jobs := s.jobs[j := s.jobs[j].(done := true, result := if ok then Some(s.jobs[j].counted.value == 0) else None)])
  }

  // A request goes on only when its job is done; it may be cancelled by then.
  ghost predicate Wakes(s: State, r: nat, ok: bool, t: State) {
    && r < |s.requests| && s.requests[r].phase.Awaiting? && s.requests[r].phase.job < |s.jobs|
    && var j := s.requests[r].phase.job;
       && s.jobs[j].done
       && t == s.(requests := Move(s.requests, r, Settling(j, if ok then s.jobs[j].result else None)))
  }

  ghost predicate Settles(s: State, r: nat, t: State) {
    && r < |s.requests| && s.requests[r].phase.Settling?
    && var ip, job, outcome := s.requests[r].ip, s.requests[r].phase.job, s.requests[r].phase.outcome;
       t == s.(inflight := Cleared(s.inflight, ip, job), cache := Stored(s.cache, ip, outcome, s.clock),
               requests := Move(s.requests, r, if outcome.Some? then Answered(outcome.value, false) else Failed))
  }

  ghost predicate Next(s: State, a: Action, t: State) {
    match a
    case Tick(now) => now >= s.clock && t == s.(clock := now)
    case SetAdmins(n) => t == s.(admins := n, peak := Max(s.peak, n))
    case Arrive(ip) => Arrives(s, ip, t)
    case Enter(r) => Enters(s, r, t)
    case Count(j) => Counts(s, j, t)
    case Finish(j, ok) => Finishes(s, j, ok, t)
    case Wake(r, ok) => Wakes(s, r, ok, t)
    case Settle(r) => Settles(s, r, t)
  }

  // --- what every interleaving keeps ---

  // An unfinished job is the current one of its address.
  ghost predicate UnfinishedIsCurrent(s: State) {
    forall j :: 0 <= j < |s.jobs| && !s.jobs[j].done ==> s.jobs[j].ip in s.inflight && s.inflight[s.jobs[j].ip] == j
  }

  // A current job is one of its address that some request is waiting for.
  ghost predicate CurrentIsAwaited(s: State) {
    forall ip :: ip in s.inflight ==>
                   s.inflight[ip] < |s.jobs| && s.jobs[s.inflight[ip]].ip == ip && Awaited(s.requests, ip, s.inflight[ip])
  }

  ghost predicate Awaited(requests: seq<Request>, ip: Ip, job: nat) {
    exists r :: 0 <= r < |requests| && On(requests[r], ip, job)
  }

  ghost predicate On(r: Request, ip: Ip, job: nat) {
    r.ip == ip && OnJob(r.phase) && r.phase.job == job
  }

  // What a job reports is what it counted.
  ghost predicate ReportsCount(s: State, j: Job) {
    && (j.counted.Some? ==> j.counted.value <= s.peak)
    && (j.result.Some? ==> j.done && j.counted.Some? && j.result.value == (j.counted.value == 0))
  }

  ghost predicate RequestSound(s: State, r: Request) {
    && (r.phase.Awaiting? ==> r.phase.job < |s.jobs| && s.jobs[r.phase.job].ip == r.ip)
    && (r.phase.Settling? ==> r.phase.job < |s.jobs| && s.jobs[r.phase.job].ip == r.ip && s.jobs[r.phase.job].done)
    && (r.phase.Settling? && r.phase.outcome.Some? ==> r.phase.outcome == s.jobs[r.phase.job].result)
    && (r.phase.Answered? ==> (r.phase.cached ==> !r.phase.needsSetup) && (!r.phase.needsSetup ==> s.peak > 0))
  }

  ghost predicate CacheSound(s: State) {
    forall ip :: ip in s.cache ==> !s.cache[ip].needsSetup && s.cache[ip].at <= s.clock && s.peak > 0
  }

  // Nothing is checked when an answer is stored, so the cache can outgrow its limit
  // by as many answers as were being computed; halving takes only so much off.
  function Bound(width: nat): nat {
    Max(MAX_TRACKED_IPS - 1 + width, 2 * width + 1)
  }

  ghost predicate CacheBounded(s: State) {
    |s.cache.Keys + Pending(s.requests)| <= Bound(s.width)
  }

  ghost predicate JobsSound(s: State) {
    forall j :: 0 <= j < |s.jobs| ==> ReportsCount(s, s.jobs[j])
  }

  ghost predicate RequestsSound(s: State) {
    forall r :: 0 <= r < |s.requests| ==> RequestSound(s, s.requests[r])
  }

  ghost predicate Inv(s: State) {
    && s.admins <= s.peak && UnfinishedIsCurrent(s) && CurrentIsAwaited(s)
    && JobsSound(s) && RequestsSound(s)
    && CacheSound(s) && CacheBounded(s)
  }

  // Jobs only ever progress.
  ghost predicate Later(s: State, t: State) {
    && |s.jobs| <= |t.jobs| && s.peak <= t.peak
    && forall j :: 0 <= j < |s.jobs| ==> t.jobs[j].ip == s.jobs[j].ip && (s.jobs[j].done ==> t.jobs[j] == s.jobs[j])
  }

  lemma SoundLater(s: State, t: State, r: Request)
    requires RequestSound(s, r) && Later(s, t)
    ensures RequestSound(t, r)
  {}

  // One request moves on.
  lemma MoveSound(s: State, t: State, r: nat, phase: Phase)
    requires RequestsSound(s) && Later(s, t) && r < |s.requests| && t.requests == Move(s.requests, r, phase)
    requires RequestSound(t, t.requests[r])
    ensures RequestsSound(t)
  {
    hide RequestSound, Later;
    forall q | 0 <= q < |t.requests| ensures RequestSound(t, t.requests[q]) {
      if q != r {
        SoundLater(s, t, s.requests[q]);
      }
    }
  }

  lemma PendingMove(requests: seq<Request>, r: nat, phase: Phase)
    requires r < |requests|
    ensures Pending(Move(requests, r, phase)) <= Pending(requests) + if OnJob(phase) then {requests[r].ip} else {}
    ensures OnJob(requests[r].phase) ==> requests[r].ip in Pending(requests)
  {
    var moved := Move(requests, r, phase);
    forall ip | ip in Pending(moved) ensures ip in Pending(requests) + if OnJob(phase) then {requests[r].ip} else {} {
      var q :| 0 <= q < |moved| && OnJob(moved[q].phase) && moved[q].ip == ip;
      if q != r {
        assert requests[q] in requests;
      }
    }
  }

  lemma AwaitedIsPending(requests: seq<Request>, ip: Ip, job: nat)
    requires Awaited(requests, ip, job)
    ensures ip in Pending(requests)
  {
    var r :| 0 <= r < |requests| && On(requests[r], ip, job);
    assert requests[r] in requests;
  }

  lemma BoundKept(s: State, t: State)
    requires CacheBounded(s) && t.width >= s.width
    requires t.cache.Keys + Pending(t.requests) <= s.cache.Keys + Pending(s.requests)
    ensures CacheBounded(t)
  {
    SubsetCount(t.cache.Keys + Pending(t.requests), s.cache.Keys + Pending(s.requests));
  }

  lemma PrunedSize(before: map<Ip, Entry>, after: map<Ip, Entry>, now: real)
    requires Pruned(before, after, now)
    ensures after.Keys <= before.Keys && forall ip :: ip in after ==> after[ip] == before[ip]
    ensures |after| < 10000 || 2 * |after| <= |before| + 1
  {
    if |before| >= MAX_TRACKED_IPS {
      var kept := Unexpired(before, now);
      assert kept.Keys <= before.Keys;
      SubsetCount(kept.Keys, before.Keys);
      assert |kept| == |kept.Keys| && |before| == |before.Keys|;
      if |kept| >= MAX_TRACKED_IPS {
        assert Times(kept).Keys == kept.Keys && Times(after).Keys == after.Keys;
        assert |Times(kept).Keys| == |kept| && |Times(after).Keys| == |after|;
      }
    }
  }

  lemma AwaitedSnoc(requests: seq<Request>, more: Request, ip: Ip, job: nat)
    requires Awaited(requests, ip, job)
    ensures Awaited(requests + [more], ip, job)
  {
    var r :| 0 <= r < |requests| && On(requests[r], ip, job);
    assert (requests + [more])[r] == requests[r];
  }

  lemma AwaitedMove(requests: seq<Request>, r: nat, phase: Phase, ip: Ip, job: nat)
    requires r < |requests| && Awaited(requests, ip, job)
    requires On(requests[r], ip, job) ==> On(requests[r].(phase := phase), ip, job)
    ensures Awaited(Move(requests, r, phase), ip, job)
  {
    var q :| 0 <= q < |requests| && On(requests[q], ip, job);
    assert On(Move(requests, r, phase)[q], ip, job);
  }

  lemma NowAwaited(requests: seq<Request>, r: nat, phase: Phase)
    requires r < |requests| && OnJob(phase)
    ensures Awaited(Move(requests, r, phase), requests[r].ip, phase.job)
  {
    assert On(Move(requests, r, phase)[r], requests[r].ip, phase.job);
  }

  lemma PendingSnoc(requests: seq<Request>, more: Request)
    requires !OnJob(more.phase)
    ensures Pending(requests + [more]) == Pending(requests)
  {}

  lemma SameJobs(s: State, t: State)
    requires UnfinishedIsCurrent(s) && JobsSound(s)
    requires t.jobs == s.jobs && t.inflight == s.inflight && t.peak == s.peak
    ensures UnfinishedIsCurrent(t) && JobsSound(t)
  {}

  lemma SameCache(s: State, t: State)
    requires CacheSound(s) && t.cache == s.cache && t.clock >= s.clock && t.peak >= s.peak
    ensures CacheSound(t)
  {}

  lemma SnocAwaited(s: State, more: Request, t: State)
    requires CurrentIsAwaited(s) && t == s.(requests := s.requests + [more])
    ensures CurrentIsAwaited(t)
  {
    hide Awaited;
    forall i | i in t.inflight ensures Awaited(t.requests, i, t.inflight[i]) {
      AwaitedSnoc(s.requests, more, i, t.inflight[i]);
    }
  }

  lemma SnocSound(s: State, more: Request, t: State)
    requires RequestsSound(s) && t == s.(requests := s.requests + [more]) && RequestSound(t, more)
    ensures RequestsSound(t)
  {
    hide RequestSound;
    forall q | 0 <= q < |t.requests| ensures RequestSound(t, t.requests[q]) {
      if q < |s.requests| {
        SoundLater(s, t, s.requests[q]);
      }
    }
  }

  lemma ArriveKeeps(s: State, ip: Ip, t: State)
    requires Inv(s) && Arrives(s, ip, t)
    ensures Inv(t)
  {
    var answer := Cached(s.cache, ip, s.clock);
    var more := Request(ip, if answer.Some? then Answered(answer.value, true) else Waiting);
    assert RequestSound(t, more);
    hide CurrentIsAwaited, RequestsSound, UnfinishedIsCurrent, JobsSound, RequestSound, Cached;
    SnocAwaited(s, more, t);
    SnocSound(s, more, t);
    SameJobs(s, t);
    SameCache(s, t);
    PendingSnoc(s.requests, more);
  }

  lemma MoveAwaited(s: State, t: State, r: nat, phase: Phase)
    requires CurrentIsAwaited(s) && r < |s.requests| && t == s.(requests := Move(s.requests, r, phase))
    requires OnJob(s.requests[r].phase) ==> OnJob(phase) && phase.job == s.requests[r].phase.job
    ensures CurrentIsAwaited(t)
  {
    hide Awaited;
    forall i | i in t.inflight ensures Awaited(t.requests, i, t.inflight[i]) {
      AwaitedMove(s.requests, r, phase, i, t.inflight[i]);
    }
  }

  // A request moves on, and keeps waiting for the job it was waiting for, if any.
  lemma MoveKeeps(s: State, t: State, r: nat, phase: Phase)
    requires Inv(s) && r < |s.requests| && t == s.(requests := Move(s.requests, r, phase))
    requires OnJob(s.requests[r].phase) ==> OnJob(phase) && phase.job == s.requests[r].phase.job
    requires OnJob(phase) ==> s.requests[r].ip in Pending(s.requests)
    requires RequestSound(t, t.requests[r])
    ensures Inv(t)
  {
    hide CurrentIsAwaited, RequestsSound, UnfinishedIsCurrent, JobsSound, CacheSound, CacheBounded, RequestSound;
    hide Pending;
    MoveAwaited(s, t, r, phase);
    MoveSound(s, t, r, phase);
    SameJobs(s, t);
    SameCache(s, t);
    PendingMove(s.requests, r, phase);
    BoundKept(s, t);
  }

  lemma WakeKeeps(s: State, r: nat, ok: bool, t: State)
    requires Inv(s) && Wakes(s, r, ok, t)
    ensures Inv(t)
  {
    assert RequestSound(s, s.requests[r]);
    var phase := t.requests[r].phase;
    PendingMove(s.requests, r, phase);
    MoveKeeps(s, t, r, phase);
  }

  lemma EnterKeeps(s: State, r: nat, t: State)
    requires Inv(s) && Enters(s, r, t)
    ensures Inv(t)
  {
    var ip := s.requests[r].ip;
    if Cached(s.cache, ip, s.clock).None? && ip !in s.inflight {
      StartKeeps(s, r, t);
    } else {
      var phase := t.requests[r].phase;
      if OnJob(phase) {
        AwaitedIsPending(s.requests, ip, s.inflight[ip]);
      }
      MoveKeeps(s, t, r, phase);
    }
  }

  lemma StartBounded(s: State, r: nat, t: State)
    requires CacheBounded(s) && r < |s.requests| && Starts(s, r, t)
    ensures CacheBounded(t)
  {
    PrunedSize(s.cache, t.cache, s.clock);
    var all := s.cache.Keys + Pending(s.requests);
    SubsetCount(s.cache.Keys, all);
    var more := Pending(t.requests);
    assert |t.cache.Keys + more| == |t.cache.Keys| + |more| - |t.cache.Keys * more|;
    assert |t.cache.Keys| == |t.cache| && |s.cache.Keys| == |s.cache|;
  }

  lemma StartAwaited(s: State, r: nat, t: State)
    requires CurrentIsAwaited(s) && r < |s.requests| && s.requests[r].phase == Waiting && Starts(s, r, t)
    ensures CurrentIsAwaited(t)
  {
    hide Awaited, Pruned;
    var ip, n := s.requests[r].ip, |s.jobs|;
    forall i | i in t.inflight ensures Awaited(t.requests, i, t.inflight[i]) {
      if i == ip {
        NowAwaited(s.requests, r, Awaiting(n));
      } else {
        AwaitedMove(s.requests, r, Awaiting(n), i, t.inflight[i]);
      }
    }
  }

  lemma StartSound(s: State, r: nat, t: State)
    requires Inv(s) && r < |s.requests| && Starts(s, r, t)
    ensures RequestsSound(t)
  {
    hide CurrentIsAwaited, UnfinishedIsCurrent, JobsSound, CacheSound, CacheBounded, Pruned;
    MoveSound(s, t, r, Awaiting(|s.jobs|));
  }

  lemma StartJobs(s: State, r: nat, t: State)
    requires UnfinishedIsCurrent(s) && JobsSound(s) && r < |s.requests| && Starts(s, r, t)
    requires s.requests[r].ip !in s.inflight
    ensures UnfinishedIsCurrent(t) && JobsSound(t)
  {
    hide Pruned, Pending;
    forall j | 0 <= j < |s.jobs| ensures ReportsCount(t, t.jobs[j]) {
      assert ReportsCount(s, s.jobs[j]);
    }
  }

  lemma StartCache(s: State, r: nat, t: State)
    requires CacheSound(s) && r < |s.requests| && Starts(s, r, t)
    ensures CacheSound(t)
  {
    hide Pending;
    PrunedSize(s.cache, t.cache, s.clock);
  }

  lemma StartKeeps(s: State, r: nat, t: State)
    requires Inv(s) && r < |s.requests| && s.requests[r].phase == Waiting
    requires s.requests[r].ip !in s.inflight && Starts(s, r, t)
    ensures Inv(t)
  {
    StartSound(s, r, t);
    StartJobs(s, r, t);
    StartCache(s, r, t);
    StartAwaited(s, r, t);
    StartBounded(s, r, t);
    hide Pruned, CurrentIsAwaited, CacheBounded, CacheSound, UnfinishedIsCurrent, JobsSound, RequestsSound;
  }

  // A job counts or finishes.
  lemma JobStepKeeps(s: State, j: nat, job: Job, t: State)
    requires Inv(s) && j < |s.jobs| && !s.jobs[j].done
    requires job.ip == s.jobs[j].ip && ReportsCount(s, job)
    requires t == s.(jobs := s.jobs[j := job])
    ensures Inv(t)
  {
    assert RequestsSound(t) by {
      forall q | 0 <= q < |t.requests| ensures RequestSound(t, t.requests[q]) {
        SoundLater(s, t, s.requests[q]);
      }
    }
  }

  lemma SettleAwaited(s: State, r: nat, t: State)
    requires CurrentIsAwaited(s) && Settles(s, r, t)
    ensures CurrentIsAwaited(t)
  {
    hide Awaited;
    forall i | i in t.inflight ensures Awaited(t.requests, i, t.inflight[i]) {
      AwaitedMove(s.requests, r, t.requests[r].phase, i, t.inflight[i]);
    }
  }

  lemma SettleBounded(s: State, r: nat, t: State)
    requires CacheBounded(s) && Settles(s, r, t)
    ensures CacheBounded(t)
  {
    PendingMove(s.requests, r, t.requests[r].phase);
    hide Pending;
    BoundKept(s, t);
  }

  // What a settling request knows about its job.
  lemma SettlingSound(s: State, r: nat)
    requires Inv(s) && r < |s.requests| && s.requests[r].phase.Settling?
    ensures var job, outcome := s.requests[r].phase.job, s.requests[r].phase.outcome;
            job < |s.jobs| && s.jobs[job].done && (outcome == Some(false) ==> s.peak > 0)
  {
    assert RequestSound(s, s.requests[r]);
    assert ReportsCount(s, s.jobs[s.requests[r].phase.job]);
  }

  // Settling, table by table.
  lemma SettlesParts(s: State, r: nat, t: State)
    requires Settles(s, r, t)
    ensures r < |s.requests| == |t.requests| && s.requests[r].phase.Settling?
    ensures var ip, job, outcome := s.requests[r].ip, s.requests[r].phase.job, s.requests[r].phase.outcome;
            && t.jobs == s.jobs && t.peak == s.peak && t.clock == s.clock
            && t.inflight == Cleared(s.inflight, ip, job) && t.cache == Stored(s.cache, ip, outcome, s.clock)
            && t.requests[r].phase == if outcome.Some? then Answered(outcome.value, false) else Failed
  {
    hide Cleared, Stored;
  }

  lemma StoredSound(s: State, ip: Ip, outcome: Option<bool>, t: State)
    requires CacheSound(s) && t.cache == Stored(s.cache, ip, outcome, s.clock) && t.clock == s.clock && t.peak == s.peak
    requires outcome == Some(false) ==> s.peak > 0
    ensures CacheSound(t)
  {}

  lemma ClearedCurrent(s: State, ip: Ip, job: nat, t: State)
    requires UnfinishedIsCurrent(s) && job < |s.jobs| && s.jobs[job].done
    requires t.jobs == s.jobs && t.inflight == Cleared(s.inflight, ip, job)
    ensures UnfinishedIsCurrent(t)
  {}

  lemma SameReports(s: State, t: State)
    requires JobsSound(s) && t.jobs == s.jobs && t.peak == s.peak
    ensures JobsSound(t)
  {}

  lemma SettleTables(s: State, r: nat, t: State)
    requires Inv(s) && Settles(s, r, t)
    ensures CacheSound(t) && UnfinishedIsCurrent(t) && JobsSound(t) && RequestSound(t, t.requests[r])
  {
    hide Settles, Stored, Cleared, CacheSound, UnfinishedIsCurrent, JobsSound, CurrentIsAwaited, RequestsSound, CacheBounded;
    SettlesParts(s, r, t);
    SettlingSound(s, r);
    StoredSound(s, s.requests[r].ip, s.requests[r].phase.outcome, t);
    ClearedCurrent(s, s.requests[r].ip, s.requests[r].phase.job, t);
    SameReports(s, t);
  }

  lemma SettleKeeps(s: State, r: nat, t: State)
    requires Inv(s) && Settles(s, r, t)
    ensures Inv(t)
  {
    SettleAwaited(s, r, t);
    SettleBounded(s, r, t);
    SettleTables(s, r, t);
    hide CurrentIsAwaited, CacheBounded, CacheSound, UnfinishedIsCurrent, JobsSound, RequestsSound, RequestSound;
    MoveSound(s, t, r, t.requests[r].phase);
  }

  lemma ClockKeeps(s: State, t: State)
    requires Inv(s) && t.clock >= s.clock && t.peak >= s.peak && t.admins <= t.peak
    requires t == s.(clock := t.clock, peak := t.peak, admins := t.admins)
    ensures Inv(t)
  {
    assert RequestsSound(t) by {
      forall q | 0 <= q < |t.requests| ensures RequestSound(t, t.requests[q]) {
        SoundLater(s, t, s.requests[q]);
      }
    }
  }

  lemma CountKeeps(s: State, j: nat, t: State)
    requires Inv(s) && Counts(s, j, t)
    ensures Inv(t)
  {
    assert ReportsCount(s, s.jobs[j]);
    JobStepKeeps(s, j, t.jobs[j], t);
  }

  lemma FinishKeeps(s: State, j: nat, ok: bool, t: State)
    requires Inv(s) && Finishes(s, j, ok, t)
    ensures Inv(t)
  {
    assert ReportsCount(s, s.jobs[j]);
    JobStepKeeps(s, j, t.jobs[j], t);
  }

  lemma NextKeeps(s: State, a: Action, t: State)
    requires Inv(s) && Next(s, a, t)
    ensures Inv(t)
  {
    match a
    case Tick(now) => ClockKeeps(s, t);
    case SetAdmins(n) => ClockKeeps(s, t);
    case Arrive(ip) => ArriveKeeps(s, ip, t);
    case Enter(r) => EnterKeeps(s, r, t);
    case Count(j) => CountKeeps(s, j, t);
    case Finish(j, ok) => FinishKeeps(s, j, ok, t);
    case Wake(r, ok) => WakeKeeps(s, r, ok, t);
    case Settle(r) => SettleKeeps(s, r, t);
  }

  // --- whole runs ---

  ghost predicate Run(states: seq<State>, actions: seq<Action>) {
    && |states| == |actions| + 1 && Init(states[0])
    && forall i :: 0 <= i < |actions| ==> Next(states[i], actions[i], states[i+1])
  }

  lemma {:induction false} RunKeeps(states: seq<State>, actions: seq<Action>, k: nat)
    requires Run(states, actions) && k < |states|
    ensures Inv(states[k])
    decreases k
  {
    hide Inv, Next;
    if k == 0 {
      InitHolds(states[0]);
    } else {
      RunKeeps(states, actions, k - 1);
      NextKeeps(states[k-1], actions[k-1], states[k]);
    }
  }

  lemma InitHolds(s: State)
    requires Init(s)
    ensures Inv(s)
  {
    assert Pending(s.requests) == {};
    assert |s.cache.Keys| == |s.cache|;
  }

  // An address never has two unfinished computations.
  lemma SingleFlight(states: seq<State>, actions: seq<Action>, k: nat, i: nat, j: nat)
    requires Run(states, actions) && k < |states| && i < |states[k].jobs| && j < |states[k].jobs|
    requires !states[k].jobs[i].done && !states[k].jobs[j].done && states[k].jobs[i].ip == states[k].jobs[j].ip
    ensures i == j
  {
    RunKeeps(states, actions, k);
  }

  ghost predicate NeverRemoved(actions: seq<Action>, states: seq<State>)
    requires |states| == |actions| + 1
  {
    forall i :: 0 <= i < |actions| ==> states[i].admins <= states[i+1].admins
  }

  lemma {:induction false} AdminsPeak(states: seq<State>, actions: seq<Action>, k: nat)
    requires Run(states, actions) && NeverRemoved(actions, states) && k < |states|
    ensures states[k].admins == states[k].peak
    decreases k
  {
    if k > 0 {
      AdminsPeak(states, actions, k - 1);
      assert states[k-1].admins <= states[k].admins;
      assert Next(states[k-1], actions[k-1], states[k]);
    }
  }

  // While administrators are only added, every "already set up" answer is true when
  // it is given, cached or not, and the cache gives no other answer.
  lemma SetUpIsTrue(states: seq<State>, actions: seq<Action>, k: nat, r: nat)
    requires Run(states, actions) && NeverRemoved(actions, states)
    requires k < |states| && r < |states[k].requests| && states[k].requests[r].phase.Answered?
    ensures !states[k].requests[r].phase.needsSetup ==> states[k].admins > 0
    ensures states[k].requests[r].phase.cached ==> !states[k].requests[r].phase.needsSetup
  {
    RunKeeps(states, actions, k);
    AdminsPeak(states, actions, k);
    assert RequestSound(states[k], states[k].requests[r]);
  }

  // The cache holds at most this many answers.
  lemma CacheSize(states: seq<State>, actions: seq<Action>, k: nat)
    requires Run(states, actions) && k < |states|
    ensures |states[k].cache| <= Bound(states[k].width)
    ensures forall ip :: ip in states[k].cache ==> !states[k].cache[ip].needsSetup
  {
    RunKeeps(states, actions, k);
    var s := states[k];
    SubsetCount(s.cache.Keys, s.cache.Keys + Pending(s.requests));
    assert |s.cache| == |s.cache.Keys|;
  }
}
