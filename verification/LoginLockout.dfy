// Lock-out of addresses after repeated failed logins: a bounded table of failure
// counts with purging and eviction.
module LoginLockout {
  import opened Eviction

  const MAX_LOGIN_ATTEMPTS := 5
  const LOCKOUT_SECONDS := 300.0
  const MAX_TRACKED_IPS := 10000

  type Ip = string

  datatype Record = Record(count: nat, until: real)

  predicate Locked(r: Record) {
    r.count >= MAX_LOGIN_ATTEMPTS
  }

  // --- the history the table summarizes ---

  datatype Reason = Success | LockExpired | Purged | Evicted

  datatype Event = Failed(ip: Ip, at: real) | Removed(ips: set<Ip>, why: Reason)

  // Failures of an address since it was last removed from the table.
  ghost function FailuresOf(log: seq<Event>, ip: Ip): nat {
    if log == [] then 0
    else
      var init, last := log[..|log|-1], log[|log|-1];
      match last
      case Failed(i, _) => FailuresOf(init, ip) + if i == ip then 1 else 0
      case Removed(ips, _) => if ip in ips then 0 else FailuresOf(init, ip)
  }

  // What FailuresOf counts, said directly.
  ghost function FailuresSinceRemoval(log: seq<Event>, ip: Ip): set<int> {
    set i | 0 <= i < |log| && log[i].Failed? && log[i].ip == ip && !RemovedAfter(log, i, ip)
  }

  ghost predicate RemovedAfter(log: seq<Event>, i: int, ip: Ip) {
    exists j :: i < j < |log| && 0 <= j && log[j].Removed? && ip in log[j].ips
  }

  lemma RemovedAfterSnoc(init: seq<Event>, last: Event, i: int, ip: Ip)
    requires 0 <= i < |init|
    ensures RemovedAfter(init + [last], i, ip) <==> RemovedAfter(init, i, ip) || (last.Removed? && ip in last.ips)
  {
    var log := init + [last];
    if RemovedAfter(init, i, ip) {
      var j :| i < j < |init| && 0 <= j && init[j].Removed? && ip in init[j].ips;
      assert log[j] == init[j];
    }
    if last.Removed? && ip in last.ips {
      assert log[|init|] == last;
    }
  }

  lemma FailuresSnoc(init: seq<Event>, last: Event, ip: Ip)
    ensures FailuresSinceRemoval(init + [last], ip)
         == if last.Removed? && ip in last.ips then {}
            else FailuresSinceRemoval(init, ip) + if last.Failed? && last.ip == ip then {|init|} else {}
  {
    var log := init + [last];
    forall i | 0 <= i < |init|
      ensures log[i] == init[i]
      ensures RemovedAfter(log, i, ip) <==> RemovedAfter(init, i, ip) || (last.Removed? && ip in last.ips)
    {
      RemovedAfterSnoc(init, last, i, ip);
    }
    assert log[|init|] == last && !RemovedAfter(log, |init|, ip);
    hide RemovedAfter;
  }

  lemma {:induction false} CountIsFailuresSinceRemoval(log: seq<Event>, ip: Ip)
    ensures FailuresOf(log, ip) == |FailuresSinceRemoval(log, ip)|
    decreases |log|
  {
    if log == [] {
      assert FailuresSinceRemoval(log, ip) == {};
    } else {
      var init, last := log[..|log|-1], log[|log|-1];
      assert log == init + [last];
      CountIsFailuresSinceRemoval(init, ip);
      FailuresSnoc(init, last, ip);
    }
  }

  ghost function LastFailure(log: seq<Event>, ip: Ip): real {
    if log == [] then 0.0
    else
      var last := log[|log|-1];
      if last.Failed? && last.ip == ip then last.at else LastFailure(log[..|log|-1], ip)
  }

  // The record the history calls for.
  // The time of the last failure is that of the last entry about one.
  lemma {:induction false} LastFailureExactly(log: seq<Event>, ip: Ip, i: int)
    requires 0 <= i < |log| && log[i].Failed? && log[i].ip == ip
    requires forall j :: i < j < |log| ==> !(log[j].Failed? && log[j].ip == ip)
    ensures LastFailure(log, ip) == log[i].at
    decreases |log|
  {
    if i < |log| - 1 {
      LastFailureExactly(log[..|log|-1], ip, i);
    }
  }

  ghost function RecordOf(log: seq<Event>, ip: Ip): Record {
    var n := FailuresOf(log, ip);
    Record(n, if n >= MAX_LOGIN_ATTEMPTS then LastFailure(log, ip) + LOCKOUT_SECONDS else 0.0)
  }

  ghost predicate Summarizes(attempts: map<Ip, Record>, log: seq<Event>) {
    && (forall ip :: ip in attempts <==> FailuresOf(log, ip) > 0)
    && forall ip :: ip in attempts ==> attempts[ip] == RecordOf(log, ip)
  }

  ghost predicate Past(log: seq<Event>, clock: real) {
    clock > 0.0 && forall ip :: 0.0 <= LastFailure(log, ip) <= clock
  }

  lemma SnocFailed(log: seq<Event>, ip: Ip, at: real, other: Ip)
    ensures FailuresOf(log + [Failed(ip, at)], other) == FailuresOf(log, other) + if other == ip then 1 else 0
    ensures LastFailure(log + [Failed(ip, at)], other) == if other == ip then at else LastFailure(log, other)
  {
    assert (log + [Failed(ip, at)])[..|log|] == log;
  }

  lemma SnocRemoved(log: seq<Event>, ips: set<Ip>, why: Reason, other: Ip)
    ensures FailuresOf(log + [Removed(ips, why)], other) == if other in ips then 0 else FailuresOf(log, other)
    ensures LastFailure(log + [Removed(ips, why)], other) == LastFailure(log, other)
  {
    assert (log + [Removed(ips, why)])[..|log|] == log;
  }

  lemma RemoveSummarizes(attempts: map<Ip, Record>, log: seq<Event>, ips: set<Ip>, why: Reason, clock: real)
    requires Summarizes(attempts, log) && Past(log, clock)
    ensures Summarizes(attempts - ips, log + [Removed(ips, why)]) && Past(log + [Removed(ips, why)], clock)
  {
    var more := log + [Removed(ips, why)];
    forall ip
      ensures FailuresOf(more, ip) == if ip in ips then 0 else FailuresOf(log, ip)
      ensures LastFailure(more, ip) == LastFailure(log, ip)
    {
      SnocRemoved(log, ips, why, ip);
    }
  }

  lemma FailSummarizes(attempts: map<Ip, Record>, log: seq<Event>, ip: Ip, clock: real, now: real)
    requires Summarizes(attempts, log) && Past(log, clock) && clock <= now
    ensures var more, count := log + [Failed(ip, now)], if ip in attempts then attempts[ip].count + 1 else 1;
            && RecordOf(more, ip) == Record(count, if count >= MAX_LOGIN_ATTEMPTS then now + LOCKOUT_SECONDS else 0.0)
            && Summarizes(attempts[ip := RecordOf(more, ip)], more) && Past(more, now)
  {
    var more := log + [Failed(ip, now)];
    forall i
      ensures FailuresOf(more, i) == FailuresOf(log, i) + if i == ip then 1 else 0
      ensures LastFailure(more, i) == if i == ip then now else LastFailure(log, i)
    {
      SnocFailed(log, ip, now, i);
    }
  }

  ghost function Deadlines(attempts: map<Ip, Record>): map<Ip, real> {
    map ip | ip in attempts :: attempts[ip].until
  }

  // Room is made in a full table: expired locks go first, then, if that is not
  // enough, the half with the earliest deadlines.
  ghost predicate MadeRoom(before: map<Ip, Record>, log: seq<Event>, after: map<Ip, Record>, more: seq<Event>, now: real) {
    if |before| < MAX_TRACKED_IPS then after == before && more == log
    else
      var expired := Expired(before, now);
      var kept := before - expired;
      if |kept| < MAX_TRACKED_IPS then after == kept && more == log + [Removed(expired, Purged)]
      else
        && DropsOlderHalf(Deadlines(kept), Deadlines(after))
        && after == kept - (kept.Keys - after.Keys)
        && more == log + [Removed(expired, Purged), Removed(kept.Keys - after.Keys, Evicted)]
  }

  ghost function Expired(attempts: map<Ip, Record>, now: real): set<Ip> {
    set ip | ip in attempts && Locked(attempts[ip]) && now >= attempts[ip].until
  }

  lemma SubmapSize(m: map<Ip, Record>, ips: set<Ip>)
    ensures |m - ips| <= |m|
    ensures ips <= m.Keys ==> |m - ips| == |m| - |ips|
  {
    assert m - ips == m - (m.Keys * ips);
    RestSize(m, m.Keys * ips);
    if ips <= m.Keys {
      assert m.Keys * ips == ips;
    }
  }

  class Lockouts {
    var attempts: map<Ip, Record>
    ghost var log: seq<Event>
    ghost var clock: real

    ghost predicate Valid()
      reads this
    {
      |attempts| <= MAX_TRACKED_IPS && Summarizes(attempts, log) && Past(log, clock)
    }

    constructor (ghost now: real)
      requires now > 0.0
      ensures Valid() && attempts == map[]
    {
      attempts := map[];
      log := [];
      clock := now;
    }

    ghost method Log(ips: set<Ip>, why: Reason, before: map<Ip, Record>)
      requires Summarizes(before, log) && Past(log, clock) && attempts == before - ips
      requires |before| <= MAX_TRACKED_IPS
      modifies this`log
      ensures Valid() && log == old(log) + [Removed(ips, why)]
    {
      RemoveSummarizes(before, log, ips, why, clock);
      log := log + [Removed(ips, why)];
      SubmapSize(before, ips);
    }

    // Refuses exactly during the lock-out that the history calls for.
    method CheckRateLimit(ip: Ip, now: real) returns (refused: bool)
      requires Valid() && clock <= now
      modifies this
      ensures Valid() && clock == now
      ensures refused <==> |FailuresSinceRemoval(old(log), ip)| >= 5 && now < LastFailure(old(log), ip) + 300.0
      ensures refused <==> FailuresOf(old(log), ip) >= MAX_LOGIN_ATTEMPTS
                           && now < LastFailure(old(log), ip) + LOCKOUT_SECONDS
      ensures if !refused && FailuresOf(old(log), ip) >= MAX_LOGIN_ATTEMPTS
              then log == old(log) + [Removed({ip}, LockExpired)] && attempts == old(attempts) - {ip}
              else log == old(log) && attempts == old(attempts)
    {
      CountIsFailuresSinceRemoval(log, ip);
      clock := now;
      if ip !in attempts {
        return false;
      }
      var record := attempts[ip];
      if record.count >= MAX_LOGIN_ATTEMPTS {
        if now < record.until {
          return true;
        }
        ghost var before := attempts;
        attempts := attempts - {ip};
        Log({ip}, LockExpired, before);
      }
      return false;
    }

    method Purge(now: real)
      requires Valid()
      modifies this`attempts, this`log
      ensures Valid() && attempts == old(attempts) - Expired(old(attempts), now)
      ensures log == old(log) + [Removed(Expired(old(attempts), now), Purged)]
    {
      ghost var before := attempts;
      var expired := set ip | ip in attempts && Locked(attempts[ip]) && now >= attempts[ip].until;
      attempts := attempts - expired;
      Log(expired, Purged, before);
    }

    method EvictHalf()
      requires Valid() && attempts != map[]
      modifies this`attempts, this`log
      ensures Valid() && |attempts| < MAX_TRACKED_IPS
      ensures DropsOlderHalf(Deadlines(old(attempts)), Deadlines(attempts))
      ensures var dropped := old(attempts).Keys - attempts.Keys;
              attempts == old(attempts) - dropped && log == old(log) + [Removed(dropped, Evicted)]
    {
      hide Summarizes, Past;
      ghost var before := attempts;
      var deadlines := map ip | ip in attempts :: attempts[ip].until;
      var dropped := OlderHalf(deadlines);
      assert deadlines.Keys == attempts.Keys;
      SubmapSize(attempts, dropped);
      hide DropsOlderHalf;
      attempts := attempts - dropped;
      assert Deadlines(attempts) == deadlines - dropped;
      assert before.Keys - attempts.Keys == dropped;
      Log(dropped, Evicted, before);
    }

    method MakeRoom(now: real)
      requires Valid()
      modifies this`attempts, this`log
      ensures Valid() && |attempts| < MAX_TRACKED_IPS
      ensures MadeRoom(old(attempts), old(log), attempts, log, now)
    {
      hide Summarizes, Past, DropsOlderHalf, Expired, Deadlines;
      if |attempts| >= MAX_TRACKED_IPS {
        Purge(now);
        if |attempts| >= MAX_TRACKED_IPS {
          EvictHalf();
        }
      }
    }

    // Counts one more failure, after room has been made.
    method RecordFailure(ip: Ip, now: real, later: real) returns (ghost room: map<Ip, Record>, ghost history: seq<Event>)
      requires Valid() && clock <= now <= later
      modifies this
      ensures Valid() && clock == later
      ensures MadeRoom(old(attempts), old(log), room, history, now)
      ensures log == history + [Failed(ip, later)]
      ensures attempts == room[ip := RecordOf(log, ip)] && |attempts| <= 10000
    {
      hide MadeRoom, Summarizes, Past, RecordOf;
      MakeRoom(now);
      room, history := attempts, log;
      log := log + [Failed(ip, later)];
      FailSummarizes(room, history, ip, clock, later);
      clock := later;
      if ip !in attempts {
        attempts := attempts[ip := Record(1, 0.0)];
      } else {
        var count := attempts[ip].count + 1;
        var until := if count >= MAX_LOGIN_ATTEMPTS then later + LOCKOUT_SECONDS else 0.0;
        attempts := attempts[ip := Record(count, until)];
      }
    }

    method RecordSuccess(ip: Ip)
      requires Valid()
      modifies this`attempts, this`log
      ensures Valid() && attempts == old(attempts) - {ip} && log == old(log) + [Removed({ip}, Success)]
    {
      ghost var before := attempts;
      attempts := attempts - {ip};
      Log({ip}, Success, before);
    }
  }

  // A full table loses exactly the locks that have expired; if it is still full, half of
  // the rest, none of them with a later deadline than one that stays.
  lemma RoomExactly(before: map<Ip, Record>, log: seq<Event>, after: map<Ip, Record>, more: seq<Event>, now: real, ip: Ip)
    requires MadeRoom(before, log, after, more, now) && ip in before
    ensures |before| < 10000 ==> after == before
    ensures |before| >= 10000 && before[ip].count >= 5 && before[ip].until <= now ==> ip !in after
    ensures ip in after ==> after[ip] == before[ip]
    ensures ip !in after && !(before[ip].count >= 5 && before[ip].until <= now) ==>
              |after| >= 5000 && forall k :: k in after ==> k in before && before[ip].until <= before[k].until
  {
    if |before| >= MAX_TRACKED_IPS {
      var expired := Expired(before, now);
      var kept := before - expired;
      hide Expired, DropsOlderHalf;
      if |kept| >= MAX_TRACKED_IPS {
        HalfStays(kept, after, ip);
      }
    }
  }

  lemma HalfStays(kept: map<Ip, Record>, after: map<Ip, Record>, ip: Ip)
    requires DropsOlderHalf(Deadlines(kept), Deadlines(after)) && |kept| >= 10000
    ensures after.Keys <= kept.Keys && |after| >= 5000
    ensures ip in kept && ip !in after ==> forall k :: k in after ==> kept[ip].until <= kept[k].until
  {
    var times, left := Deadlines(kept), Deadlines(after);
    assert left.Keys == after.Keys && times.Keys == kept.Keys;
    assert |left| == |left.Keys| && |times| == |times.Keys| && |after| == |after.Keys| && |kept| == |kept.Keys|;
    if ip in kept && ip !in after {
      forall k | k in after ensures kept[ip].until <= kept[k].until {
        assert times[ip] <= times[k];
      }
    }
  }

  // A deadline is set exactly when the count has reached the limit.
  lemma DeadlineExactly(attempts: map<Ip, Record>, log: seq<Event>, clock: real, ip: Ip)
    requires Summarizes(attempts, log) && Past(log, clock) && ip in attempts
    ensures attempts[ip].count >= 1
    ensures attempts[ip].until != 0.0 <==> Locked(attempts[ip])
  {}
}
