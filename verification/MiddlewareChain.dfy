// Assembly of an agent's middleware chain: the built-in chain is appended slot
// by slot, extra middlewares are then inserted around @Next/@Prev anchors in
// repeated rounds, and the tail is repaired so that clarification comes last.
module MiddlewareChain {
  import opened Wrappers

  type ClassId = nat

  // The classes whose position the factory fixes itself.
  const CLARIFICATION: ClassId := 0
  const THREAD_DATA: ClassId := 1
  const UPLOADS: ClassId := 2
  const SANDBOX: ClassId := 3
  const DANGLING_TOOL_CALL: ClassId := 4
  const TOOL_ERROR_HANDLING: ClassId := 5
  const TODO: ClassId := 6
  const TITLE: ClassId := 7
  const MEMORY: ClassId := 8
  const VIEW_IMAGE: ClassId := 9
  const SUBAGENT_LIMIT: ClassId := 10
  const LOOP_DETECTION: ClassId := 11

  // A class knows the classes it inherits from and the anchors its decorators set.
  datatype Class = Class(id: ClassId, bases: set<ClassId>,
                         nextAnchor: Option<ClassId>, prevAnchor: Option<ClassId>)

  // A middleware object: its class and the identity of the object.
  datatype Middleware = Middleware(cls: Class, tag: nat)

  predicate IsInstance(m: Middleware, c: ClassId) {
    c == m.cls.id || c in m.cls.bases
  }

  predicate HasMatch(chain: seq<Middleware>, c: ClassId) {
    exists i :: 0 <= i < |chain| && IsInstance(chain[i], c)
  }

  // Position of the first instance of c.
  function FirstMatch(chain: seq<Middleware>, c: ClassId): (i: nat)
    requires HasMatch(chain, c)
    ensures i < |chain| && IsInstance(chain[i], c)
    ensures forall j :: 0 <= j < i ==> !IsInstance(chain[j], c)
  {
    if IsInstance(chain[0], c) then 0 else
      assert HasMatch(chain[1..], c) by {
        var k :| 0 <= k < |chain| && IsInstance(chain[k], c);
        assert chain[1..][k-1] == chain[k];
      }
      var i := FirstMatch(chain[1..], c);
      assert forall j :: 0 < j < 1 + i ==> chain[j] == chain[1..][j-1];
      1 + i
  }

  datatype Side = After | Before

  // An extra together with the side and class it asked for.
  datatype Anchored = Anchored(mw: Middleware, side: Side, anchor: ClassId)

  datatype Error =
    | NoClarification
    | BothAnchors(mw: Middleware)
    | AnchorConflict(mw: Middleware, anchor: ClassId)
    | Circular(classes: set<ClassId>)
    | Unresolved(mws: seq<Middleware>)
    | NeedsCustomInstance(feature: string)

  predicate IsAnchored(m: Middleware) {
    m.cls.nextAnchor.Some? || m.cls.prevAnchor.Some?
  }

  // What an extra asked for; @Next is looked at first.
  function Request(m: Middleware): Anchored
    requires IsAnchored(m)
  {
    if m.cls.nextAnchor.Some? then Anchored(m, After, m.cls.nextAnchor.value)
    else Anchored(m, Before, m.cls.prevAnchor.value)
  }

  function AnchoredOf(extras: seq<Middleware>): seq<Anchored> {
    if extras == [] then []
    else if IsAnchored(extras[0]) then [Request(extras[0])] + AnchoredOf(extras[1..])
    else AnchoredOf(extras[1..])
  }

  function UnanchoredOf(extras: seq<Middleware>): seq<Middleware> {
    if extras == [] then []
    else if IsAnchored(extras[0]) then UnanchoredOf(extras[1..])
    else [extras[0]] + UnanchoredOf(extras[1..])
  }

  predicate WantsBoth(m: Middleware) {
    m.cls.nextAnchor.Some? && m.cls.prevAnchor.Some?
  }

  // The extras can be accepted together: nobody wants both sides, and no class
  // is anchored on twice, on whichever sides.
  ghost predicate Compatible(extras: seq<Middleware>) {
    && (forall i :: 0 <= i < |extras| ==> !WantsBoth(extras[i]))
    && forall i, j :: 0 <= i < j < |extras| && IsAnchored(extras[i]) && IsAnchored(extras[j])
                      ==> Request(extras[i]).anchor != Request(extras[j]).anchor
  }

  // --- insertion, one extra at a time ---

  function Place(chain: seq<Middleware>, x: Anchored): seq<Middleware>
    requires HasMatch(chain, x.anchor)
  {
    var i := FirstMatch(chain, x.anchor);
    var at := if x.side == After then i + 1 else i;
    chain[..at] + [x.mw] + chain[at..]
  }

  // One pass over the pending extras: the new chain and what could not be placed.
  function Round(chain: seq<Middleware>, pending: seq<Anchored>): (r: (seq<Middleware>, seq<Anchored>))
    ensures |r.1| <= |pending|
    decreases |pending|
  {
    if pending == [] then (chain, [])
    else if HasMatch(chain, pending[0].anchor) then
      Round(Place(chain, pending[0]), pending[1..])
    else
      var (c, rest) := Round(chain, pending[1..]);
      (c, [pending[0]] + rest)
  }

  function AnchorClasses(xs: seq<Anchored>): set<ClassId> {
    set x | x in xs :: x.anchor
  }

  function OwnClasses(xs: seq<Anchored>): set<ClassId> {
    set x | x in xs :: x.mw.cls.id
  }

  function MiddlewaresOf(xs: seq<Anchored>): (ms: seq<Middleware>)
    ensures |ms| == |xs|
    ensures forall i :: 0 <= i < |xs| ==> ms[i] == xs[i].mw
  {
    seq(|xs|, i requires 0 <= i < |xs| => xs[i].mw)
  }

  // The error reported when a whole pass placed nothing.
  function StuckError(remaining: seq<Anchored>): Error {
    var circular := AnchorClasses(remaining) * OwnClasses(remaining);
    if circular != {} then Circular(circular) else Unresolved(MiddlewaresOf(remaining))
  }

  // Passes until nothing is pending or a pass places nothing.
  function Rounds(chain: seq<Middleware>, pending: seq<Anchored>): Result<seq<Middleware>, Error>
    decreases |pending|
  {
    if pending == [] then Success(chain)
    else
      var (c, rest) := Round(chain, pending);
      if |rest| == |pending| then Failure(StuckError(rest)) else Rounds(c, rest)
  }

  // Unanchored extras go in front of the first clarification middleware.
  function WithUnanchored(chain: seq<Middleware>, free: seq<Middleware>): seq<Middleware>
    requires HasMatch(chain, CLARIFICATION)
  {
    var i := FirstMatch(chain, CLARIFICATION);
    chain[..i] + free + chain[i..]
  }

  // --- the mutable chain ---

  class Chain {
    var items: seq<Middleware>

    constructor ()
      ensures items == []
    {
      items := [];
    }

    method Append(m: Middleware)
      modifies this
      ensures items == old(items) + [m]
    {
      items := items + [m];
    }

    method Insert(i: nat, m: Middleware)
      requires i <= |items|
      modifies this
      ensures items == old(items)[..i] + [m] + old(items)[i..]
    {
      items := items[..i] + [m] + items[i..];
    }

    method Pop(i: nat) returns (m: Middleware)
      requires i < |items|
      modifies this
      ensures m == old(items)[i] && items == old(items)[..i] + old(items)[i+1..]
    {
      m := items[i];
      items := items[..i] + items[i+1..];
    }
  }

  ghost function AnchorSet(extras: seq<Middleware>): set<ClassId> {
    set m | m in extras && IsAnchored(m) :: Request(m).anchor
  }

  ghost predicate Conflicting(extras: seq<Middleware>, m: Middleware, anchor: ClassId) {
    exists i, j :: 0 <= i < j < |extras| && IsAnchored(extras[i]) && IsAnchored(extras[j]) && extras[j] == m
                   && Request(extras[i]).anchor == Request(extras[j]).anchor == anchor
  }

  lemma {:induction false} SnocExtra(extras: seq<Middleware>, m: Middleware)
    ensures AnchoredOf(extras + [m]) == AnchoredOf(extras) + if IsAnchored(m) then [Request(m)] else []
    ensures UnanchoredOf(extras + [m]) == UnanchoredOf(extras) + if IsAnchored(m) then [] else [m]
    decreases |extras|
  {
    if extras == [] {
      assert [] + [m] == [m] && [m][1..] == [];
    } else {
      assert (extras + [m])[1..] == extras[1..] + [m];
      SnocExtra(extras[1..], m);
    }
  }

  lemma NextExtra(extras: seq<Middleware>, k: nat)
    requires k < |extras|
    ensures AnchoredOf(extras[..k+1])
            == AnchoredOf(extras[..k]) + if IsAnchored(extras[k]) then [Request(extras[k])] else []
    ensures UnanchoredOf(extras[..k+1])
            == UnanchoredOf(extras[..k]) + if IsAnchored(extras[k]) then [] else [extras[k]]
    ensures AnchorSet(extras[..k+1])
            == AnchorSet(extras[..k]) + if IsAnchored(extras[k]) then {Request(extras[k]).anchor} else {}
  {
    assert extras[..k+1] == extras[..k] + [extras[k]];
    SnocExtra(extras[..k], extras[k]);
  }

  lemma CompatibleNext(extras: seq<Middleware>, k: nat)
    requires k < |extras| && Compatible(extras[..k]) && !WantsBoth(extras[k])
    ensures if IsAnchored(extras[k]) && Request(extras[k]).anchor in AnchorSet(extras[..k])
            then Conflicting(extras, extras[k], Request(extras[k]).anchor)
            else Compatible(extras[..k+1])
  {
    var more := extras[..k+1];
    assert forall i :: 0 <= i < k ==> more[i] == extras[..k][i] && extras[i] in extras[..k];
    if IsAnchored(extras[k]) && Request(extras[k]).anchor in AnchorSet(extras[..k]) {
      var m :| m in extras[..k] && IsAnchored(m) && Request(m).anchor == Request(extras[k]).anchor;
      var i :| 0 <= i < k && extras[i] == m;
    }
  }

  // Sorts the extras into anchored and unanchored ones, or reports the first
  // one that asks for both sides or for a class already anchored on.
  method Classify(extras: seq<Middleware>)
    returns (r: Result<(seq<Anchored>, seq<Middleware>), Error>)
    ensures r.Success? <==> Compatible(extras)
    ensures r.Success? ==> r.value == (AnchoredOf(extras), UnanchoredOf(extras))
    ensures r.Failure? ==> r.error.BothAnchors? || r.error.AnchorConflict?
    ensures r.Failure? && r.error.BothAnchors? ==> r.error.mw in extras && WantsBoth(r.error.mw)
    ensures r.Failure? && r.error.AnchorConflict? ==> Conflicting(extras, r.error.mw, r.error.anchor)
  {
    var nextTargets: map<ClassId, Class> := map[];
    var prevTargets: map<ClassId, Class> := map[];
    var anchored: seq<Anchored> := [];
    var free: seq<Middleware> := [];
    for k := 0 to |extras|
      invariant Compatible(extras[..k])
      invariant nextTargets.Keys + prevTargets.Keys == AnchorSet(extras[..k])
      invariant anchored == AnchoredOf(extras[..k])
      invariant free == UnanchoredOf(extras[..k])
    {
      var mw := extras[k];
      NextExtra(extras, k);
      if mw.cls.nextAnchor.Some? && mw.cls.prevAnchor.Some? {
        assert WantsBoth(extras[k]);
        return Failure(BothAnchors(mw));
      }
      CompatibleNext(extras, k);
      hide AnchoredOf, UnanchoredOf, AnchorSet, Compatible;
      if mw.cls.nextAnchor.Some? {
        var anchor := mw.cls.nextAnchor.value;
        if anchor in nextTargets {
          ConflictingIsIncompatible(extras, mw, anchor);
          return Failure(AnchorConflict(mw, anchor));
        }
        if anchor in prevTargets {
          ConflictingIsIncompatible(extras, mw, anchor);
          return Failure(AnchorConflict(mw, anchor));
        }
        nextTargets := nextTargets[anchor := mw.cls];
        anchored := anchored + [Anchored(mw, After, anchor)];
      } else if mw.cls.prevAnchor.Some? {
        var anchor := mw.cls.prevAnchor.value;
        if anchor in prevTargets {
          ConflictingIsIncompatible(extras, mw, anchor);
          return Failure(AnchorConflict(mw, anchor));
        }
        if anchor in nextTargets {
          ConflictingIsIncompatible(extras, mw, anchor);
          return Failure(AnchorConflict(mw, anchor));
        }
        prevTargets := prevTargets[anchor := mw.cls];
        anchored := anchored + [Anchored(mw, Before, anchor)];
      } else {
        free := free + [mw];
      }
    }
    assert extras[..|extras|] == extras;
    r := Success((anchored, free));
  }

  lemma ConflictingIsIncompatible(extras: seq<Middleware>, m: Middleware, anchor: ClassId)
    requires Conflicting(extras, m, anchor)
    ensures !Compatible(extras)
  {}

  // What inserting the extras makes of a chain.
  ghost function Insertion(chain: seq<Middleware>, extras: seq<Middleware>): Result<seq<Middleware>, Error>
    requires Compatible(extras) && HasMatch(chain, CLARIFICATION)
  {
    Rounds(WithUnanchored(chain, UnanchoredOf(extras)), AnchoredOf(extras))
  }

  lemma CutAt(a: seq<Middleware>, b: seq<Middleware>)
    ensures (a + b)[..|a|] == a && (a + b)[|a|..] == b
  {}

  lemma TakeNext(front: seq<Middleware>, free: seq<Middleware>, k: nat)
    requires k < |free|
    ensures front + free[..k] + [free[k]] == front + free[..k+1]
  {}

  lemma TakeBounds(front: seq<Middleware>, back: seq<Middleware>, chain: seq<Middleware>, free: seq<Middleware>)
    requires chain == front + back
    ensures chain == front + free[..0] + back && free[..|free|] == free
  {}

  method InsertUnanchored(chain: Chain, free: seq<Middleware>)
    requires HasMatch(chain.items, CLARIFICATION)
    modifies chain
    ensures chain.items == WithUnanchored(old(chain.items), free)
  {
    hide HasMatch;
    var at := FirstMatch(chain.items, CLARIFICATION);
    ghost var front, back := chain.items[..at], chain.items[at..];
    TakeBounds(front, back, chain.items, free);
    for k := 0 to |free|
      invariant at == |front| + k
      invariant chain.items == front + free[..k] + back
    {
      CutAt(front + free[..k], back);
      TakeNext(front, free, k);
      chain.Insert(at, free[k]);
      at := at + 1;
    }
  }

  // One pass in place.
  method InsertPass(chain: Chain, pending: seq<Anchored>) returns (remaining: seq<Anchored>)
    modifies chain
    ensures (chain.items, remaining) == Round(old(chain.items), pending)
  {
    remaining := [];
    ghost var passed := Round(chain.items, pending);
    assert pending[0..] == pending && remaining + passed.1 == passed.1;
    for k := 0 to |pending|
      invariant var rest := Round(chain.items, pending[k..]);
                passed == (rest.0, remaining + rest.1)
    {
      var x := pending[k];
      assert pending[k..][0] == x && pending[k..][1..] == pending[k+1..];
      if !HasMatch(chain.items, x.anchor) {
        ghost var rest := Round(chain.items, pending[k+1..]).1;
        assert remaining + ([x] + rest) == (remaining + [x]) + rest;
        remaining := remaining + [x];
        continue;
      }
      var idx := FirstMatch(chain.items, x.anchor);
      if x.side == After {
        chain.Insert(idx + 1, x.mw);
      } else {
        chain.Insert(idx, x.mw);
      }
    }
    assert remaining + [] == remaining;
  }

  // The in-place algorithm. The bound of one more round than there are anchored
  // extras is never what ends the loop.
  method InsertExtra(chain: Chain, extras: seq<Middleware>) returns (r: Result<(), Error>)
    modifies chain
    ensures !Compatible(extras) ==>
              r.Failure? && (r.error.BothAnchors? || r.error.AnchorConflict?) && chain.items == old(chain.items)
    ensures Compatible(extras) && !HasMatch(old(chain.items), CLARIFICATION) ==>
              r == Failure(NoClarification) && chain.items == old(chain.items)
    ensures Compatible(extras) && HasMatch(old(chain.items), CLARIFICATION) ==>
              var goal := Insertion(old(chain.items), extras);
              if goal.Success? then r == Success(()) && chain.items == goal.value else r == Failure(goal.error)
  {
    var classified := Classify(extras);
    if classified.Failure? {
      return Failure(classified.error);
    }
    var (anchored, free) := classified.value;
    if !HasMatch(chain.items, CLARIFICATION) {
      return Failure(NoClarification);
    }
    InsertUnanchored(chain, free);
    ghost var goal := Rounds(chain.items, anchored);

    var pending := anchored;
    var maxRounds := |pending| + 1;
    var round := 0;
    while round < maxRounds
      invariant round + |pending| <= |anchored|
      invariant Rounds(chain.items, pending) == goal
    {
      if pending == [] {
        break;
      }
      var remaining := InsertPass(chain, pending);
      if |remaining| == |pending| {
        return Failure(StuckError(remaining));
      }
      pending := remaining;
      round := round + 1;
    }
    r := Success(());
  }
}
