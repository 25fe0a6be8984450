// The channel manager's window of recently received messages: an ordered map
// that is trimmed from the front only.
module InboundDedupe {
  import opened Wrappers
  import opened Sequences

  const TTL := 600.0
  const MAX_ENTRIES := 4096

  // channel, workspace, chat and message id
  datatype Key = Key(channel: string, workspace: string, chat: string, message: string)

  datatype Entry = Entry(key: Key, at: real)

  // Keys are recorded once each, in order of time.
  ghost predicate Chronological(entries: seq<Entry>) {
    && (forall i, j :: 0 <= i < j < |entries| ==> entries[i].at <= entries[j].at)
    && forall i, j :: 0 <= i < j < |entries| ==> entries[i].key != entries[j].key
  }

  predicate Holds(entries: seq<Entry>, key: Key) {
    exists i :: 0 <= i < |entries| && entries[i].key == key
  }

  // A scan of the whole window for the entries that have not expired.
  ghost function Live(entries: seq<Entry>, now: real): seq<Entry> {
    if entries == [] then []
    else (if now - entries[0].at > TTL then [] else [entries[0]]) + Live(entries[1..], now)
  }

  // The newest entries of an overfull window.
  ghost function Newest(entries: seq<Entry>): seq<Entry> {
    if |entries| > MAX_ENTRIES then entries[|entries| - MAX_ENTRIES..] else entries
  }

  ghost function Without(entries: seq<Entry>, key: Key): seq<Entry> {
    if entries == [] then []
    else if entries[0].key == key then entries[1..]
    else [entries[0]] + Without(entries[1..], key)
  }

  // What is left of the window when a message arrives.
  ghost function Trimmed(entries: seq<Entry>, now: real): seq<Entry> {
    Newest(Live(entries, now))
  }

  ghost function Arrived(entries: seq<Entry>, key: Key, now: real): seq<Entry> {
    var left := Trimmed(entries, now);
    if Holds(left, key) then left else left + [Entry(key, now)]
  }

  lemma {:induction false} NothingExpired(entries: seq<Entry>, now: real)
    requires forall i :: 0 <= i < |entries| ==> now - entries[i].at <= TTL
    ensures Live(entries, now) == entries
    decreases |entries|
  {
    if entries != [] {
      NothingExpired(entries[1..], now);
    }
  }

  lemma {:induction false} WithoutAt(entries: seq<Entry>, i: nat)
    requires Chronological(entries) && i < |entries|
    ensures Without(entries, entries[i].key) == entries[..i] + entries[i+1..]
    decreases |entries|
  {
    if i > 0 {
      assert Chronological(entries[1..]);
      WithoutAt(entries[1..], i - 1);
    }
  }

  lemma {:induction false} WithoutNone(entries: seq<Entry>, key: Key)
    requires !Holds(entries, key)
    ensures Without(entries, key) == entries
    decreases |entries|
  {
    if entries != [] {
      assert forall i :: 0 <= i < |entries[1..]| ==> entries[1..][i] == entries[i+1];
      WithoutNone(entries[1..], key);
    }
  }

  lemma RemovedHolds(entries: seq<Entry>, i: nat, k: Key)
    requires Chronological(entries) && i < |entries|
    ensures Holds(entries[..i] + entries[i+1..], k) <==> k != entries[i].key && Holds(entries, k)
  {
    var rest := entries[..i] + entries[i+1..];
    RemovedIndices(entries, i);
    if k != entries[i].key && Holds(entries, k) {
      var j :| 0 <= j < |entries| && entries[j].key == k;
      assert rest[if j < i then j else j - 1].key == k;
    }
    if Holds(rest, k) {
      var j :| 0 <= j < |rest| && rest[j].key == k;
      assert entries[if j < i then j else j + 1].key == k;
    }
  }

  lemma WithoutIsFilter(entries: seq<Entry>, key: Key)
    requires Chronological(entries)
    ensures forall k :: Holds(Without(entries, key), k) <==> k != key && Holds(entries, k)
  {
    hide Without, Chronological;
    if Holds(entries, key) {
      var i :| 0 <= i < |entries| && entries[i].key == key;
      WithoutAt(entries, i);
      hide Holds;
      forall k ensures Holds(Without(entries, key), k) <==> k != key && Holds(entries, k) {
        RemovedHolds(entries, i, k);
      }
    } else {
      WithoutNone(entries, key);
      hide Holds;
    }
  }

  // Removing one entry keeps the others in place.
  lemma RemovedIndices(entries: seq<Entry>, i: nat)
    requires i < |entries|
    ensures var rest := entries[..i] + entries[i+1..];
            |rest| == |entries| - 1 && forall k :: 0 <= k < |rest| ==> rest[k] == entries[if k < i then k else k + 1]
  {}

  lemma ReleasedChronological(entries: seq<Entry>, key: Key)
    requires Chronological(entries)
    ensures Chronological(Without(entries, key)) && |Without(entries, key)| <= |entries|
    ensures forall i :: 0 <= i < |Without(entries, key)| ==> Without(entries, key)[i] in entries
  {
    hide Without;
    if Holds(entries, key) {
      var i :| 0 <= i < |entries| && entries[i].key == key;
      WithoutAt(entries, i);
      RemovedIndices(entries, i);
    } else {
      WithoutNone(entries, key);
    }
  }

  lemma TailChronological(entries: seq<Entry>)
    requires Chronological(entries) && entries != []
    ensures Chronological(entries[1..])
  {}

  lemma LiveOfFresh(entries: seq<Entry>, now: real)
    requires Chronological(entries) && entries != [] && now - entries[0].at <= TTL
    ensures Live(entries, now) == entries
  {
    NothingExpired(entries, now);
  }

  lemma {:induction false} LiveIsSuffix(entries: seq<Entry>, now: real) returns (d: nat)
    requires Chronological(entries)
    ensures d <= |entries| && Live(entries, now) == entries[d..]
    ensures forall i :: 0 <= i < d ==> now - entries[i].at > TTL
    decreases |entries|
  {
    if entries == [] {
      d := 0;
    } else if now - entries[0].at > TTL {
      TailChronological(entries);
      assert Live(entries, now) == Live(entries[1..], now);
      hide Chronological, Live;
      d := LiveIsSuffix(entries[1..], now);
      d := d + 1;
    } else {
      d := 0;
      LiveOfFresh(entries, now);
      hide Chronological, Live;
    }
  }

  // What is dropped when a message arrives has expired, or is followed by a full
  // window of newer entries.
  lemma TrimmedIsSuffix(entries: seq<Entry>, now: real) returns (d: nat)
    requires Chronological(entries)
    ensures d <= |entries| && Trimmed(entries, now) == entries[d..]
    ensures forall i :: 0 <= i < d ==> now - entries[i].at > TTL || |entries| - i > MAX_ENTRIES
  {
    d := LiveIsSuffix(entries, now);
    var live := entries[d..];
    if |live| > MAX_ENTRIES {
      assert live[|live| - MAX_ENTRIES..] == entries[|entries| - MAX_ENTRIES..];
      d := |entries| - MAX_ENTRIES;
    }
  }

  // Entry i of the window is the key's, is at most 600 s old, and is among the newest 4096.
  ghost predicate RememberedAt(entries: seq<Entry>, key: Key, now: real, i: int) {
    0 <= i < |entries| && entries[i].key == key && now - entries[i].at <= 600.0 && |entries| - i <= 4096
  }

  ghost predicate Remembered(entries: seq<Entry>, key: Key, now: real) {
    exists i :: RememberedAt(entries, key, now, i)
  }

  // What trimming leaves is exactly what is recent enough and new enough.
  lemma RememberedExactly(entries: seq<Entry>, key: Key, now: real)
    requires Chronological(entries)
    ensures Holds(Trimmed(entries, now), key) <==> Remembered(entries, key, now)
  {
    var d := TrimmedIsSuffix(entries, now);
    TrimmedIsRecent(entries, now);
    var left := Trimmed(entries, now);
    hide Trimmed, Chronological;
    assert forall j :: 0 <= j < |left| ==> left[j] == entries[d + j];
    if j :| 0 <= j < |left| && left[j].key == key {
      assert RememberedAt(entries, key, now, d + j);
    }
    if i :| RememberedAt(entries, key, now, i) {
      assert left[i - d].key == key;
    }
  }

  lemma TrimmedIsRecent(entries: seq<Entry>, now: real)
    requires Chronological(entries)
    ensures |Trimmed(entries, now)| <= 4096
    ensures forall j :: 0 <= j < |Trimmed(entries, now)| ==> now - Trimmed(entries, now)[j].at <= 600.0
  {
    LiveIsRecent(entries, now);
  }

  lemma {:induction false} LiveIsRecent(entries: seq<Entry>, now: real)
    ensures forall j :: 0 <= j < |Live(entries, now)| ==> now - Live(entries, now)[j].at <= 600.0
    decreases |entries|
  {
    if entries != [] {
      LiveIsRecent(entries[1..], now);
    }
  }

  class Window {
    var entries: seq<Entry>
    ghost var clock: real

    ghost predicate Valid()
      reads this
    {
      && Chronological(entries) && |entries| <= MAX_ENTRIES + 1
      && forall i :: 0 <= i < |entries| ==> entries[i].at <= clock
    }

    constructor ()
      ensures Valid() && entries == []
    {
      entries := [];
      clock := 0.0;
    }

    method PopExpired(now: real)
      requires Valid() && clock <= now
      modifies this`entries
      ensures Valid() && entries == Live(old(entries), now)
    {
      while entries != []
        invariant Valid() && Live(entries, now) == Live(old(entries), now)
        decreases |entries|
      {
        var oldestAt := entries[0].at;
        if now - oldestAt > TTL {
          entries := entries[1..];
        } else {
          break;
        }
      }
      NothingExpired(entries, now);
    }

    method PopOverfull()
      requires Valid()
      modifies this`entries
      ensures Valid() && entries == Newest(old(entries))
    {
      while |entries| > MAX_ENTRIES
        invariant Valid() && Newest(entries) == Newest(old(entries))
        decreases |entries|
      {
        entries := entries[1..];
      }
    }

    // Whether the message has been seen; if not, it is recorded. Popping expired
    // entries from the front does the work of a full scan.
    method IsDuplicate(key: Option<Key>, now: real) returns (duplicate: bool)
      requires Valid() && clock <= now
      modifies this
      ensures Valid()
      ensures key.None? ==> !duplicate && entries == old(entries)
      ensures key.Some? ==>
                && clock == now
                && duplicate == Holds(Trimmed(old(entries), now), key.value)
                && (duplicate <==> Remembered(old(entries), key.value, now))
                && entries == Arrived(old(entries), key.value, now)
    {
      if key.None? {
        return false;
      }
      RememberedExactly(entries, key.value, now);
      PopExpired(now);
      PopOverfull();
      clock := now;
      hide Live, Newest;
      if Holds(entries, key.value) {
        return true;
      }
      entries := entries + [Entry(key.value, now)];
      return false;
    }

    // Forgets a key whose handling failed.
    method Release(key: Option<Key>)
      requires Valid()
      modifies this`entries
      ensures Valid()
      ensures entries == if key.None? then old(entries) else Without(old(entries), key.value)
    {
      if key.Some? {
        ReleasedChronological(entries, key.value);
        hide Chronological, Without;
        if i :| 0 <= i < |entries| && entries[i].key == key.value {
          WithoutAt(entries, i);
          entries := entries[..i] + entries[i+1..];
        } else {
          WithoutNone(entries, key.value);
        }
      }
    }
  }

  // --- whole runs ---

  datatype Op = Arrive(key: Key, now: real) | Release(key: Key)

  ghost function Step(entries: seq<Entry>, op: Op): seq<Entry> {
    match op
    case Arrive(key, now) => Arrived(entries, key, now)
    case Release(key) => Without(entries, key)
  }

  // The window after some operations.
  ghost function After(ops: seq<Op>): seq<Entry> {
    if ops == [] then [] else Step(After(ops[..|ops|-1]), ops[|ops|-1])
  }

  // The clock never goes back.
  ghost predicate Timed(ops: seq<Op>) {
    forall i, j :: 0 <= i < j < |ops| && ops[i].Arrive? && ops[j].Arrive? ==> ops[i].now <= ops[j].now
  }

  // Operation i is the arrival of a message that is let through.
  ghost predicate Accepted(ops: seq<Op>, i: int) {
    0 <= i < |ops| && ops[i].Arrive? && !Holds(Trimmed(After(ops[..i]), ops[i].now), ops[i].key)
  }

  // The other keys let through after operation i and before operation j.
  ghost function Others(ops: seq<Op>, i: int, j: int): set<Key>
    requires 0 <= i < |ops| && j <= |ops|
  {
    set m | i < m < j && Accepted(ops, m) && ops[m].key != ops[i].key :: ops[m].key
  }

  // --- why a message is let through twice ---

  lemma ArrivedChronological(entries: seq<Entry>, key: Key, now: real)
    requires Chronological(entries) && forall i :: 0 <= i < |entries| ==> entries[i].at <= now
    ensures Chronological(Arrived(entries, key, now))
    ensures forall i :: 0 <= i < |Arrived(entries, key, now)| ==> Arrived(entries, key, now)[i].at <= now
    ensures |Arrived(entries, key, now)| <= MAX_ENTRIES + 1
  {
    var d := TrimmedIsSuffix(entries, now);
    var left := Trimmed(entries, now);
    assert forall i :: 0 <= i < |left| ==> left[i] == entries[d + i];
  }

  // Over any run the window stays in order and within its bound.
  lemma {:induction false} WindowBounded(ops: seq<Op>, now: real)
    requires Timed(ops) && forall i :: 0 <= i < |ops| && ops[i].Arrive? ==> ops[i].now <= now
    ensures Chronological(After(ops)) && |After(ops)| <= MAX_ENTRIES + 1
    ensures forall i :: 0 <= i < |After(ops)| ==> After(ops)[i].at <= now
    decreases |ops|
  {
    if ops != [] {
      var init, op := ops[..|ops|-1], ops[|ops|-1];
      assert op == ops[|ops|-1];
      match op
      case Arrive(key, t) =>
        WindowBounded(init, t);
        ArrivedChronological(After(init), key, t);
      case Release(key) =>
        WindowBounded(init, now);
        ReleasedChronological(After(init), key);
    }
  }

  ghost function KeysOf(entries: seq<Entry>): set<Key> {
    set e | e in entries :: e.key
  }

  lemma {:induction false} DistinctKeys(entries: seq<Entry>)
    requires Chronological(entries)
    ensures |KeysOf(entries)| == |entries|
    decreases |entries|
  {
    if entries != [] {
      var rest := entries[1..];
      assert Chronological(rest);
      DistinctKeys(rest);
      assert KeysOf(entries) == {entries[0].key} + KeysOf(rest);
      assert entries[0].key !in KeysOf(rest);
    }
  }

  // The key sits in the window, and everything recorded after it is in others.
  ghost predicate Followed(entries: seq<Entry>, key: Key, since: real, others: set<Key>) {
    exists p :: 0 <= p < |entries| && FollowedAt(entries, p, key, since, others)
  }

  ghost predicate FollowedAt(entries: seq<Entry>, p: nat, key: Key, since: real, others: set<Key>)
    requires p < |entries|
  {
    && entries[p].key == key && entries[p].at >= since
    && forall q :: p < q < |entries| ==> entries[q].key in others
  }

  // A trimming that drops the key although it has not expired has recorded a
  // full window of others since.
  lemma TrimmedFollowed(entries: seq<Entry>, now: real, key: Key, since: real, others: set<Key>)
    requires Chronological(entries) && Followed(entries, key, since, others) && now - since <= TTL
    ensures Followed(Trimmed(entries, now), key, since, others) || |others| >= MAX_ENTRIES
  {
    var p :| 0 <= p < |entries| && FollowedAt(entries, p, key, since, others);
    var d := TrimmedIsSuffix(entries, now);
    if p < d {
      var later := entries[p+1..];
      assert Chronological(later);
      DistinctKeys(later);
      SubsetCount(KeysOf(later), others);
    } else {
      assert FollowedAt(entries[d..], p - d, key, since, others);
    }
  }

  lemma ArrivedFollowed(entries: seq<Entry>, now: real, arriving: Key, key: Key, since: real, others: set<Key>)
    requires Chronological(entries) && Followed(entries, key, since, others) && now - since <= TTL
    ensures var accepted := !Holds(Trimmed(entries, now), arriving);
            var more := if accepted && arriving != key then others + {arriving} else others;
            Followed(Arrived(entries, arriving, now), key, since, more) || |others| >= MAX_ENTRIES
  {
    TrimmedFollowed(entries, now, key, since, others);
    hide Trimmed;
    var left := Trimmed(entries, now);
    if |others| < MAX_ENTRIES {
      var p :| 0 <= p < |left| && FollowedAt(left, p, key, since, others);
      assert Holds(left, key);
      if !Holds(left, arriving) {
        assert FollowedAt(left + [Entry(arriving, now)], p, key, since, others + {arriving});
      }
    }
  }

  lemma ReleasedFollowed(entries: seq<Entry>, released: Key, key: Key, since: real, others: set<Key>)
    requires Chronological(entries) && Followed(entries, key, since, others) && released != key
    ensures Followed(Without(entries, released), key, since, others)
  {
    hide Without;
    var p :| 0 <= p < |entries| && FollowedAt(entries, p, key, since, others);
    var rest := Without(entries, released);
    if Holds(entries, released) {
      var i :| 0 <= i < |entries| && entries[i].key == released;
      WithoutAt(entries, i);
      RemovedIndices(entries, i);
      assert FollowedAt(rest, if p < i then p else p - 1, key, since, others);
    } else {
      WithoutNone(entries, released);
    }
  }

  // Nothing between operations i and j lets the key of i go: no release of it,
  // and no arrival after it has expired.
  ghost predicate Undisturbed(ops: seq<Op>, i: nat, j: nat)
    requires i < j <= |ops| && ops[i].Arrive?
  {
    forall m :: i < m < j ==>
                  if ops[m].Release? then ops[m].key != ops[i].key else ops[m].now - ops[i].now <= TTL
  }

  lemma AfterNext(ops: seq<Op>, j: nat)
    requires j < |ops|
    ensures After(ops[..j+1]) == Step(After(ops[..j]), ops[j])
  {
    assert ops[..j+1][..j] == ops[..j];
  }

  lemma OthersNext(ops: seq<Op>, i: nat, j: nat)
    requires i < j < |ops|
    ensures Others(ops, i, j + 1)
            == Others(ops, i, j) + if Accepted(ops, j) && ops[j].key != ops[i].key then {ops[j].key} else {}
  {
    hide Accepted;
    var a, b := Others(ops, i, j), Others(ops, i, j + 1);
    forall k ensures k in b <==> k in a || (Accepted(ops, j) && k == ops[j].key && k != ops[i].key) {
      if k in b {
        var m :| i < m < j + 1 && Accepted(ops, m) && ops[m].key == k && k != ops[i].key;
      }
    }
  }

  lemma PrefixTimed(ops: seq<Op>, j: nat, now: real)
    requires Timed(ops) && j <= |ops|
    requires forall m :: 0 <= m < j && ops[m].Arrive? ==> ops[m].now <= now
    ensures Chronological(After(ops[..j]))
    ensures forall e :: 0 <= e < |After(ops[..j])| ==> After(ops[..j])[e].at <= now
  {
    var pre := ops[..j];
    assert forall m :: 0 <= m < j ==> pre[m] == ops[m];
    WindowBounded(pre, now);
  }

  // The latest arrival time before j.
  lemma {:induction false} LatestBound(ops: seq<Op>, j: nat) returns (now: real)
    requires j <= |ops|
    ensures forall m :: 0 <= m < j && ops[m].Arrive? ==> ops[m].now <= now
    decreases j
  {
    if j == 0 {
      now := 0.0;
    } else {
      now := LatestBound(ops, j - 1);
      if ops[j-1].Arrive? && ops[j-1].now > now {
        now := ops[j-1].now;
      }
    }
  }

  // One operation on a window that holds the key.
  lemma HeldStep(ops: seq<Op>, i: nat, j: nat)
    requires Timed(ops) && i < j < |ops| && ops[i].Arrive?
    requires if ops[j].Release? then ops[j].key != ops[i].key else ops[j].now - ops[i].now <= TTL
    requires Followed(After(ops[..j]), ops[i].key, ops[i].now, Others(ops, i, j))
    ensures Followed(After(ops[..j+1]), ops[i].key, ops[i].now, Others(ops, i, j + 1)) || |Others(ops, i, j)| >= MAX_ENTRIES
  {
    hide After, Followed, Chronological, Others, Timed;
    AfterNext(ops, j);
    OthersNext(ops, i, j);
    var now := LatestBound(ops, j);
    PrefixTimed(ops, j, now);
    var before, others := After(ops[..j]), Others(ops, i, j);
    match ops[j]
    case Arrive(key, t) =>
      hide Arrived, Trimmed, Holds;
      ArrivedFollowed(before, t, key, ops[i].key, ops[i].now, others);
    case Release(key) =>
      ReleasedFollowed(before, key, ops[i].key, ops[i].now, others);
  }

  lemma FirstHeld(ops: seq<Op>, i: nat)
    requires Accepted(ops, i)
    ensures Followed(After(ops[..i+1]), ops[i].key, ops[i].now, {})
  {
    AfterNext(ops, i);
    hide Trimmed;
    var left := Trimmed(After(ops[..i]), ops[i].now);
    assert FollowedAt(left + [Entry(ops[i].key, ops[i].now)], |left|, ops[i].key, ops[i].now, {});
  }

  lemma UndisturbedBefore(ops: seq<Op>, i: nat, j: nat)
    requires i + 1 < j <= |ops| && ops[i].Arrive? && Undisturbed(ops, i, j)
    ensures Undisturbed(ops, i, j - 1)
    ensures if ops[j-1].Release? then ops[j-1].key != ops[i].key else ops[j-1].now - ops[i].now <= TTL
  {}

  lemma HeldNext(ops: seq<Op>, i: nat, j: nat)
    requires Timed(ops) && i < j < |ops| && ops[i].Arrive?
    requires if ops[j].Release? then ops[j].key != ops[i].key else ops[j].now - ops[i].now <= TTL
    requires Followed(After(ops[..j]), ops[i].key, ops[i].now, Others(ops, i, j)) || |Others(ops, i, j)| >= MAX_ENTRIES
    ensures Followed(After(ops[..j+1]), ops[i].key, ops[i].now, Others(ops, i, j + 1))
            || |Others(ops, i, j + 1)| >= MAX_ENTRIES
  {
    hide After, Followed, Others, Accepted, Timed;
    OthersNext(ops, i, j);
    SubsetCount(Others(ops, i, j), Others(ops, i, j + 1));
    if |Others(ops, i, j)| < MAX_ENTRIES {
      HeldStep(ops, i, j);
    }
  }

  lemma {:induction false} StillHeld(ops: seq<Op>, i: nat, j: nat)
    requires Timed(ops) && i < j <= |ops| && ops[i].Arrive? && Accepted(ops, i) && Undisturbed(ops, i, j)
    ensures Followed(After(ops[..j]), ops[i].key, ops[i].now, Others(ops, i, j)) || |Others(ops, i, j)| >= MAX_ENTRIES
    decreases j
  {
    hide After, Followed, Others, Accepted, Timed, Undisturbed;
    if j == i + 1 {
      FirstHeld(ops, i);
      NoOthers(ops, i);
    } else {
      UndisturbedBefore(ops, i, j);
      StillHeld(ops, i, j - 1);
      HeldNext(ops, i, j - 1);
    }
  }

  lemma NoOthers(ops: seq<Op>, i: nat)
    requires i < |ops|
    ensures Others(ops, i, i + 1) == {}
  {}

  lemma FollowedHolds(entries: seq<Entry>, key: Key, since: real, others: set<Key>)
    requires Followed(entries, key, since, others)
    ensures Holds(entries, key)
  {
    var p :| 0 <= p < |entries| && FollowedAt(entries, p, key, since, others);
  }

  // A message is let through a second time only if the first one has expired, has
  // been released, or at least 4096 different other messages were let through in
  // between.
  lemma AcceptedTwice(ops: seq<Op>, i: nat, j: nat)
    requires Timed(ops) && i < j && Accepted(ops, i) && Accepted(ops, j) && ops[i].key == ops[j].key
    ensures
      || ops[j].now - ops[i].now > 600.0
      || (exists m :: i < m < j && ops[m] == Release(ops[i].key))
      || |Others(ops, i, j)| >= 4096
  {
    if ops[j].now - ops[i].now <= TTL && !(exists m :: i < m < j && ops[m] == Release(ops[i].key)) {
      assert Undisturbed(ops, i, j);
      StillHeld(ops, i, j);
      var others := Others(ops, i, j);
      if |others| < MAX_ENTRIES {
        var entries := After(ops[..j]);
        PrefixTimed(ops, j, ops[j].now);
        TrimmedFollowed(entries, ops[j].now, ops[i].key, ops[i].now, others);
        FollowedHolds(Trimmed(entries, ops[j].now), ops[i].key, ops[i].now, others);
        assert false;
      }
    }
  }
}
