// What the answers of the setup-status endpoint rest on: a count of administrators, or a
// cached answer that is less than a minute old.
module SetupAnswers {
  import opened Wrappers
  import opened Sequences
  import opened Eviction
  import opened SetupStatus

  // --- cached answers ---

  // A cached answer is given exactly while it is less than 60 s old.
  lemma CachedExactly(cache: map<Ip, Entry>, ip: Ip, now: real, v: bool)
    ensures Cached(cache, ip, now) == Some(v) <==> ip in cache && now - cache[ip].at < 60.0 && v == cache[ip].needsSetup
  {}

  // The addresses whose answers are at most 60 s old.
  ghost function Recent(cache: map<Ip, Entry>, now: real): set<Ip> {
    set ip | ip in cache && cache[ip].at >= now - 60.0
  }

  // When room is made: nothing is dropped below 10000 answers; then what is not recent,
  // and no more if that makes room; else half of what is recent, none rather than an
  // older one.
  lemma PrunedExactly(before: map<Ip, Entry>, after: map<Ip, Entry>, now: real)
    requires Pruned(before, after, now)
    ensures forall ip :: ip in after ==> ip in before && after[ip] == before[ip]
    ensures |before| < 10000 ==> after == before
    ensures |before| >= 10000 && |Recent(before, now)| < 10000 ==> after.Keys == Recent(before, now)
    ensures |before| >= 10000 && |Recent(before, now)| >= 10000 ==>
              && after.Keys <= Recent(before, now) && |Recent(before, now)| - |after| == |Recent(before, now)| / 2
              && forall d, k :: d in Recent(before, now) && d !in after && k in after ==> before[d].at <= before[k].at
  {
    PrunedSize(before, after, now);
    if |before| >= MAX_TRACKED_IPS {
      var kept := Unexpired(before, now);
      assert kept.Keys == Recent(before, now) && |kept| == |kept.Keys|;
      assert forall ip :: ip in kept ==> kept[ip] == before[ip];
      hide DropsOlderHalf, Unexpired;
      if |kept| >= MAX_TRACKED_IPS {
        HalfStays(kept, after);
      }
    }
  }

  lemma HalfStays(kept: map<Ip, Entry>, after: map<Ip, Entry>)
    requires DropsOlderHalf(Times(kept), Times(after))
    ensures after.Keys <= kept.Keys && |kept| - |after| == |kept| / 2
    ensures forall d, k :: d in kept && d !in after && k in after ==> kept[d].at <= kept[k].at
  {
    var times, left := Times(kept), Times(after);
    assert times.Keys == kept.Keys && left.Keys == after.Keys;
    assert |times| == |times.Keys| && |left| == |left.Keys| && |after| == |after.Keys| && |kept| == |kept.Keys|;
    forall d, k | d in kept && d !in after && k in after ensures kept[d].at <= kept[k].at {
      assert times[d] <= times[k];
    }
  }

  // Action m settles a request of the address with an answer that is stored then.
  ghost predicate StoredAt(states: seq<State>, actions: seq<Action>, ip: Ip, at: real, m: int) {
    && 0 <= m < |actions| < |states| && actions[m].Settle? && states[m].clock == at
    && var r := actions[m].request;
       r < |states[m].requests| && states[m].requests[r].ip == ip && states[m].requests[r].phase.Settling?
       && states[m].requests[r].phase.outcome == Some(false)
  }

  // Entries only come from settled requests.
  lemma EntryFrom(s: State, a: Action, t: State, ip: Ip)
    requires Next(s, a, t) && ip in t.cache
    ensures (ip in s.cache && t.cache[ip] == s.cache[ip])
            || (a.Settle? && a.request < |s.requests| && s.requests[a.request].ip == ip
                && s.requests[a.request].phase.Settling? && s.requests[a.request].phase.outcome == Some(false)
                && t.cache[ip] == Entry(s.clock, false))
  {
    if a.Enter? && Pruned(s.cache, t.cache, s.clock) {
      PrunedSize(s.cache, t.cache, s.clock);
    }
    hide Pruned, Cached, Pending;
  }

  lemma {:induction false} CacheIsStored(states: seq<State>, actions: seq<Action>, k: nat, ip: Ip)
    requires Run(states, actions) && k < |states| && ip in states[k].cache
    ensures !states[k].cache[ip].needsSetup
    ensures exists m :: m < k && StoredAt(states, actions, ip, states[k].cache[ip].at, m)
    decreases k
  {
    if k > 0 {
      assert Next(states[k-1], actions[k-1], states[k]);
      EntryFrom(states[k-1], actions[k-1], states[k], ip);
      hide Next;
      if ip in states[k-1].cache && states[k].cache[ip] == states[k-1].cache[ip] {
        CacheIsStored(states, actions, k - 1, ip);
      } else {
        assert StoredAt(states, actions, ip, states[k].cache[ip].at, k - 1);
      }
    }
  }

  // Request r is answered from the cache by action k.
  ghost predicate AnsweredFromCache(states: seq<State>, actions: seq<Action>, k: nat, r: nat, v: bool)
    requires k < |actions| < |states|
  {
    && r < |states[k+1].requests| && states[k+1].requests[r].phase == Answered(v, true)
    && (r < |states[k].requests| ==> states[k].requests[r].phase != Answered(v, true))
  }

  lemma AnsweredBy(s: State, a: Action, t: State, r: nat, v: bool)
    requires Next(s, a, t) && r < |t.requests| && t.requests[r].phase == Answered(v, true)
    requires r < |s.requests| ==> s.requests[r].phase != Answered(v, true)
    ensures Cached(s.cache, t.requests[r].ip, s.clock) == Some(v)
  {
    hide Cached, Pruned, Pending;
  }

  // Over any run an answer from the cache is "set up", and was stored less than 60 s
  // before, when a request of the same address was settled.
  lemma CachedAnswersAreFresh(states: seq<State>, actions: seq<Action>, k: nat, r: nat, v: bool) returns (m: nat)
    requires Run(states, actions) && k < |actions| && AnsweredFromCache(states, actions, k, r, v)
    ensures !v && m < k && StoredAt(states, actions, states[k+1].requests[r].ip, states[m].clock, m)
    ensures states[k].clock - states[m].clock < 60.0
  {
    assert Next(states[k], actions[k], states[k+1]);
    AnsweredBy(states[k], actions[k], states[k+1], r, v);
    var ip := states[k+1].requests[r].ip;
    CachedExactly(states[k].cache, ip, states[k].clock, v);
    hide Next, Cached;
    CacheIsStored(states, actions, k, ip);
    m :| m < k && StoredAt(states, actions, ip, states[k].cache[ip].at, m);
  }

  // And while there is such an answer, nothing is computed: the request is answered on
  // arrival.
  lemma FreshAnswersAreUsed(s: State, ip: Ip, t: State)
    requires Next(s, Arrive(ip), t) && ip in s.cache && s.clock - s.cache[ip].at < 60.0
    ensures t.jobs == s.jobs && t.inflight == s.inflight && t.cache == s.cache
    ensures t.requests == s.requests + [Request(ip, Answered(s.cache[ip].needsSetup, true))]
  {}

  // --- computed answers ---

  // Job j of the address has counted its administrators at step m, and found that many.
  ghost predicate CountedAt(states: seq<State>, actions: seq<Action>, j: nat, count: nat, m: int) {
    0 <= m < |actions| < |states| && actions[m] == Count(j) && states[m].admins == count
  }

  lemma JobFrom(s: State, a: Action, t: State, j: nat)
    requires Next(s, a, t) && j < |t.jobs|
    ensures j < |s.jobs| ==> t.jobs[j].ip == s.jobs[j].ip
    ensures t.jobs[j].counted.Some? ==>
              (j < |s.jobs| && s.jobs[j].counted == t.jobs[j].counted) || (a == Count(j) && t.jobs[j].counted == Some(s.admins))
  {
    hide Cached, Pruned, Pending, Cleared, Stored;
  }

  lemma {:induction false} CountsAreTaken(states: seq<State>, actions: seq<Action>, k: nat, j: nat)
    requires Run(states, actions) && k < |states| && j < |states[k].jobs| && states[k].jobs[j].counted.Some?
    ensures exists m :: m < k && CountedAt(states, actions, j, states[k].jobs[j].counted.value, m)
    decreases k
  {
    if k > 0 {
      assert Next(states[k-1], actions[k-1], states[k]);
      JobFrom(states[k-1], actions[k-1], states[k], j);
      hide Next;
      if j < |states[k-1].jobs| && states[k-1].jobs[j].counted == states[k].jobs[j].counted {
        CountsAreTaken(states, actions, k - 1, j);
      } else {
        assert CountedAt(states, actions, j, states[k].jobs[j].counted.value, k - 1);
      }
    }
  }

  // A request is answered by action k with what job j found.
  lemma ComputedBy(s: State, a: Action, t: State, r: nat, v: bool) returns (j: nat)
    requires Inv(s) && Next(s, a, t) && r < |t.requests| && t.requests[r].phase == Answered(v, false)
    requires r < |s.requests| ==> s.requests[r].phase != Answered(v, false)
    ensures j < |s.jobs| && s.jobs[j].ip == t.requests[r].ip && s.jobs[j].result == Some(v)
    ensures s.jobs[j].counted.Some? && v == (s.jobs[j].counted.value == 0)
  {
    hide Next;
    SettledBy(s, a, t, r, v);
    assert RequestSound(s, s.requests[r]);
    j := s.requests[r].phase.job;
    assert ReportsCount(s, s.jobs[j]);
    hide UnfinishedIsCurrent, CurrentIsAwaited, CacheSound, CacheBounded;
  }

  lemma SettledBy(s: State, a: Action, t: State, r: nat, v: bool)
    requires Next(s, a, t) && r < |t.requests| && t.requests[r].phase == Answered(v, false)
    requires r < |s.requests| ==> s.requests[r].phase != Answered(v, false)
    ensures a == Settle(r) && r < |s.requests| && s.requests[r].ip == t.requests[r].ip
    ensures s.requests[r].phase.Settling? && s.requests[r].phase.outcome == Some(v)
  {
    hide Cached, Pruned, Pending, Cleared, Stored;
  }

  // Over any run an answer that is not from the cache tells whether there was no
  // administrator when a computation for the same address counted them.
  lemma ComputedAnswersAreCounted(states: seq<State>, actions: seq<Action>, k: nat, r: nat, v: bool) returns (j: nat, m: nat)
    requires Run(states, actions) && k < |actions| && r < |states[k+1].requests|
    requires states[k+1].requests[r].phase == Answered(v, false)
    requires r < |states[k].requests| ==> states[k].requests[r].phase != Answered(v, false)
    ensures j < |states[k].jobs| && states[k].jobs[j].ip == states[k+1].requests[r].ip
    ensures m < k && actions[m] == Count(j) && v == (states[m].admins == 0)
  {
    RunKeeps(states, actions, k);
    assert Next(states[k], actions[k], states[k+1]);
    j := ComputedBy(states[k], actions[k], states[k+1], r, v);
    hide Next, Inv;
    CountsAreTaken(states, actions, k, j);
    m :| m < k && CountedAt(states, actions, j, states[k].jobs[j].counted.value, m);
  }
}
