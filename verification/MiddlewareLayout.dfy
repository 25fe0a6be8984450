// What the rounds of in-place insertion achieve: they place the extras one after
// another in some order, nothing is lost or doubled, every extra keeps its side, and
// success is reachability of the chain.
module MiddlewareLayout {
  import opened Wrappers
  import opened Sequences
  import opened MiddlewareChain

  // --- the rounds as one placement order ---

  // Placing xs one after another, each next to its first match at that moment.
  ghost predicate Placeable(chain: seq<Middleware>, xs: seq<Anchored>)
    decreases |xs|
  {
    xs == [] || (HasMatch(chain, xs[0].anchor) && Placeable(Place(chain, xs[0]), xs[1..]))
  }

  ghost function PlaceAll(chain: seq<Middleware>, xs: seq<Anchored>): seq<Middleware>
    requires Placeable(chain, xs)
    decreases |xs|
  {
    if xs == [] then chain else PlaceAll(Place(chain, xs[0]), xs[1..])
  }

  lemma {:induction false} PlaceAllConcat(chain: seq<Middleware>, xs: seq<Anchored>, ys: seq<Anchored>)
    requires Placeable(chain, xs) && Placeable(PlaceAll(chain, xs), ys)
    ensures Placeable(chain, xs + ys) && PlaceAll(chain, xs + ys) == PlaceAll(PlaceAll(chain, xs), ys)
    decreases |xs|
  {
    if xs == [] {
      assert xs + ys == ys;
    } else {
      assert (xs + ys)[0] == xs[0] && (xs + ys)[1..] == xs[1..] + ys;
      PlaceAllConcat(Place(chain, xs[0]), xs[1..], ys);
    }
  }

  // xs and rest share out pending.
  ghost predicate Shares(xs: seq<Anchored>, rest: seq<Anchored>, pending: seq<Anchored>) {
    && multiset(xs) + multiset(rest) == multiset(pending)
    && multiset(MiddlewaresOf(xs)) + multiset(MiddlewaresOf(rest)) == multiset(MiddlewaresOf(pending))
  }

  lemma ConsMultiset(x: Anchored, xs: seq<Anchored>)
    ensures multiset([x] + xs) == multiset{x} + multiset(xs)
    ensures multiset(MiddlewaresOf([x] + xs)) == multiset{x.mw} + multiset(MiddlewaresOf(xs))
  {
    assert MiddlewaresOf([x] + xs) == [x.mw] + MiddlewaresOf(xs);
  }

  lemma SharesCons(x: Anchored, xs: seq<Anchored>, rest: seq<Anchored>, pending: seq<Anchored>)
    requires Shares(xs, rest, pending)
    ensures Shares([x] + xs, rest, [x] + pending) && Shares(xs, [x] + rest, [x] + pending)
  {
    hide MiddlewaresOf;
    ConsMultiset(x, xs);
    ConsMultiset(x, rest);
    ConsMultiset(x, pending);
  }

  lemma SharesNothing()
    ensures Shares([], [], [])
  {}

  lemma {:induction false} RoundOrder(chain: seq<Middleware>, pending: seq<Anchored>) returns (xs: seq<Anchored>)
    ensures Placeable(chain, xs) && PlaceAll(chain, xs) == Round(chain, pending).0
    ensures Shares(xs, Round(chain, pending).1, pending)
    ensures |xs| + |Round(chain, pending).1| == |pending|
    ensures xs == [] ==> Round(chain, pending) == (chain, pending)
                         && forall x :: x in pending ==> !HasMatch(chain, x.anchor)
    decreases |pending|
  {
    if pending == [] {
      xs := [];
      SharesNothing();
    } else {
      hide Shares, Place, HasMatch;
      var x := pending[0];
      assert pending == [x] + pending[1..];
      if HasMatch(chain, x.anchor) {
        var ys := RoundOrder(Place(chain, x), pending[1..]);
        xs := [x] + ys;
        SharesCons(x, ys, Round(chain, pending).1, pending[1..]);
        assert xs[0] == x && xs[1..] == ys;
      } else {
        xs := RoundOrder(chain, pending[1..]);
        SharesCons(x, xs, Round(chain, pending[1..]).1, pending[1..]);
      }
    }
  }

  lemma SharesTrans(ys: seq<Anchored>, left: seq<Anchored>, pending: seq<Anchored>, zs: seq<Anchored>, rest: seq<Anchored>)
    requires Shares(ys, left, pending) && Shares(zs, rest, left)
    ensures Shares(ys + zs, rest, pending)
  {
    assert MiddlewaresOf(ys + zs) == MiddlewaresOf(ys) + MiddlewaresOf(zs);
  }

  // xs is what was placed, in order; rest is what was left when nothing moved.
  lemma {:induction false} RoundsOrder(chain: seq<Middleware>, pending: seq<Anchored>)
    returns (xs: seq<Anchored>, rest: seq<Anchored>)
    ensures Placeable(chain, xs) && Shares(xs, rest, pending)
    ensures Rounds(chain, pending).Success? ==> rest == [] && PlaceAll(chain, xs) == Rounds(chain, pending).value
    ensures Rounds(chain, pending).Failure? ==>
              && rest != [] && Rounds(chain, pending).error == StuckError(rest)
              && forall x :: x in rest ==> !HasMatch(PlaceAll(chain, xs), x.anchor)
    decreases |pending|
  {
    if pending == [] {
      xs, rest := [], [];
    } else {
      var ys := RoundOrder(chain, pending);
      var (c, left) := Round(chain, pending);
      if |left| == |pending| {
        xs, rest := [], pending;
      } else {
        var zs;
        zs, rest := RoundsOrder(c, left);
        xs := ys + zs;
        PlaceAllConcat(chain, ys, zs);
        SharesTrans(ys, left, pending, zs, rest);
      }
    }
  }

  // --- conservation and order ---

  lemma {:induction false} PlaceAllContents(chain: seq<Middleware>, xs: seq<Anchored>)
    requires Placeable(chain, xs)
    ensures multiset(PlaceAll(chain, xs)) == multiset(chain) + multiset(MiddlewaresOf(xs))
    decreases |xs|
  {
    if xs != [] {
      hide MiddlewaresOf, Place, HasMatch, Subseq;
      var x := xs[0];
      var next := Place(chain, x);
      assert PlaceAll(chain, xs) == PlaceAll(next, xs[1..]) && Placeable(next, xs[1..]);
      assert multiset(next) == multiset(chain) + multiset{x.mw} by {
        PlaceContents(chain, x);
      }
      hide PlaceAll, Placeable;
      PlaceAllContents(next, xs[1..]);
      assert xs == [x] + xs[1..];
      ConsMultiset(x, xs[1..]);
    }
  }

  lemma PlaceContents(chain: seq<Middleware>, x: Anchored)
    requires HasMatch(chain, x.anchor)
    ensures multiset(Place(chain, x)) == multiset(chain) + multiset{x.mw}
    ensures Subseq(chain, Place(chain, x))
    ensures forall m :: m in Place(chain, x) <==> m in chain || m == x.mw
  {
    var i := FirstMatch(chain, x.anchor);
    var at := if x.side == After then i + 1 else i;
    InsertedContents(chain, at, x.mw);
    hide Subseq, HasMatch, FirstMatch;
    SubseqInsert(chain, at, x.mw);
  }

  lemma {:induction false} SplitContents(extras: seq<Middleware>)
    ensures multiset(MiddlewaresOf(AnchoredOf(extras))) + multiset(UnanchoredOf(extras)) == multiset(extras)
    decreases |extras|
  {
    if extras != [] {
      SplitContents(extras[1..]);
      assert extras == [extras[0]] + extras[1..];
      if IsAnchored(extras[0]) {
        ConsMultiset(Request(extras[0]), AnchoredOf(extras[1..]));
      }
    }
  }

  // On success every extra is in the chain exactly as often as it was listed,
  // next to everything that was there before.
  lemma ExtrasConserved(chain: seq<Middleware>, extras: seq<Middleware>)
    requires Compatible(extras) && HasMatch(chain, CLARIFICATION)
    requires Insertion(chain, extras).Success?
    ensures multiset(Insertion(chain, extras).value) == multiset(chain) + multiset(extras)
  {
    hide WithUnanchored, UnanchoredOf, AnchoredOf, HasMatch, Compatible, Rounds, PlaceAll, Placeable;
    var free := UnanchoredOf(extras);
    var base := WithUnanchored(chain, free);
    var xs, rest := RoundsOrder(base, AnchoredOf(extras));
    PlaceAllContents(base, xs);
    SplitContents(extras);
    UnanchoredContents(chain, free);
    assert MiddlewaresOf(rest) == [];
  }

  lemma UnanchoredContents(chain: seq<Middleware>, free: seq<Middleware>)
    requires HasMatch(chain, CLARIFICATION)
    ensures multiset(WithUnanchored(chain, free)) == multiset(chain) + multiset(free)
  {
    var i := FirstMatch(chain, CLARIFICATION);
    assert chain == chain[..i] + chain[i..];
  }

  // Which extras are anchored, and where: as the marks of their classes say.
  lemma {:induction false} AnchoredExactly(extras: seq<Middleware>, x: Anchored)
    ensures x in AnchoredOf(extras)
       <==> x.mw in extras
            && if x.mw.cls.nextAnchor.Some? then x.side == After && x.anchor == x.mw.cls.nextAnchor.value
               else x.side == Before && x.mw.cls.prevAnchor == Some(x.anchor)
    decreases |extras|
  {
    if extras != [] {
      AnchoredExactly(extras[1..], x);
    }
  }

  // The others are those without a mark, in listing order.
  lemma {:induction false} UnanchoredExactly(extras: seq<Middleware>)
    ensures Subseq(UnanchoredOf(extras), extras)
    ensures forall m :: m in UnanchoredOf(extras) <==> m in extras && m.cls.nextAnchor.None? && m.cls.prevAnchor.None?
    decreases |extras|
  {
    if extras != [] {
      UnanchoredExactly(extras[1..]);
      assert extras == [extras[0]] + extras[1..];
      SubseqCons(UnanchoredOf(extras[1..]), extras[0], extras[1..]);
    }
  }

  // All instances of a class, in order.
  ghost function Instances(s: seq<Middleware>, c: ClassId): seq<Middleware> {
    if s == [] then [] else (if IsInstance(s[0], c) then [s[0]] else []) + Instances(s[1..], c)
  }

  // An extra together with the instances of its anchor that are there when it is
  // placed: in front of them all, or behind the first and in front of the others.
  ghost function Neighbours(chain: seq<Middleware>, x: Anchored): seq<Middleware> {
    var found := Instances(chain, x.anchor);
    if found == [] then [x.mw]
    else if x.side == Before then [x.mw] + found
    else [found[0], x.mw] + found[1..]
  }

  // x was placed into a chain c that grew out of base, and everything read off that
  // chain in order is still in order in s.
  ghost predicate PlacedIn(base: seq<Middleware>, s: seq<Middleware>, x: Anchored, c: seq<Middleware>) {
    HasMatch(c, x.anchor) && Subseq(base, c) && Subseq(Place(c, x), s)
  }

  ghost predicate IsAttached(base: seq<Middleware>, s: seq<Middleware>, x: Anchored) {
    exists c :: PlacedIn(base, s, x, c)
  }

  lemma {:induction false} NoInstances(s: seq<Middleware>, c: ClassId)
    requires forall m :: m in s ==> !IsInstance(m, c)
    ensures Instances(s, c) == []
    decreases |s|
  {
    if s != [] {
      NoInstances(s[1..], c);
    }
  }

  lemma {:induction false} InstancesConcat(a: seq<Middleware>, b: seq<Middleware>, c: ClassId)
    ensures Instances(a + b, c) == Instances(a, c) + Instances(b, c)
    decreases |a|
  {
    if a == [] {
      assert a + b == b;
    } else {
      hide IsInstance;
      assert (a + b)[1..] == a[1..] + b;
      InstancesConcat(a[1..], b, c);
      var here := if IsInstance(a[0], c) then [a[0]] else [];
      assert Instances(a + b, c) == here + Instances(a[1..] + b, c);
      assert Instances(a, c) == here + Instances(a[1..], c);
      hide Instances;
    }
  }

  lemma {:induction false} InstancesSubseq(s: seq<Middleware>, c: ClassId)
    ensures Subseq(Instances(s, c), s) && forall m :: m in Instances(s, c) ==> IsInstance(m, c)
    decreases |s|
  {
    if s != [] {
      InstancesSubseq(s[1..], c);
      assert s == [s[0]] + s[1..];
      if !IsInstance(s[0], c) {
        SubseqCons(Instances(s[1..], c), s[0], s[1..]);
        assert [] + Instances(s[1..], c) == Instances(s[1..], c);
      }
    }
  }

  lemma {:induction false} InstancesGrow(a: seq<Middleware>, b: seq<Middleware>, c: ClassId)
    requires Subseq(a, b)
    ensures Subseq(Instances(a, c), Instances(b, c))
    decreases |b|
  {
    if a == [] {
      SubseqEmpty(Instances(b, c));
    } else if a[0] == b[0] {
      InstancesGrow(a[1..], b[1..], c);
      if IsInstance(a[0], c) {
        SubseqRefl([a[0]]);
        SubseqAppend([a[0]], [a[0]], Instances(a[1..], c), Instances(b[1..], c));
      } else {
        assert [] + Instances(a[1..], c) == Instances(a[1..], c) && [] + Instances(b[1..], c) == Instances(b[1..], c);
      }
    } else {
      InstancesGrow(a, b[1..], c);
      if IsInstance(b[0], c) {
        SubseqCons(Instances(a, c), b[0], Instances(b[1..], c));
      } else {
        assert [] + Instances(b[1..], c) == Instances(b[1..], c);
      }
    }
  }

  lemma CutAround<T>(s: seq<T>, i: nat)
    requires i < |s|
    ensures s == s[..i] + ([s[i]] + s[i+1..]) && s[..i+1] == s[..i] + [s[i]] && s[i..] == [s[i]] + s[i+1..]
  {}

  lemma JoinAround<T>(front: seq<T>, e: T, m: T, back: seq<T>)
    ensures (front + [e]) + [m] + back == front + ([e, m] + back)
    ensures front + [m] + ([e] + back) == front + ([m, e] + back)
  {}

  lemma PlaceAround(chain: seq<Middleware>, x: Anchored) returns (front: seq<Middleware>, e: Middleware, back: seq<Middleware>)
    requires HasMatch(chain, x.anchor)
    ensures chain == front + ([e] + back) && IsInstance(e, x.anchor)
    ensures forall m :: m in front ==> !IsInstance(m, x.anchor)
    ensures Place(chain, x) == front + (Pair(e, x) + back)
  {
    var i := FirstMatch(chain, x.anchor);
    front, e, back := chain[..i], chain[i], chain[i+1..];
    hide HasMatch, FirstMatch, IsInstance;
    CutAround(chain, i);
    JoinAround(front, e, x.mw, back);
  }

  // An extra and the element it is placed on.
  ghost function Pair(e: Middleware, x: Anchored): seq<Middleware> {
    if x.side == After then [e, x.mw] else [x.mw, e]
  }

  lemma InstancesAround(front: seq<Middleware>, e: Middleware, back: seq<Middleware>, c: ClassId)
    requires IsInstance(e, c) && forall m :: m in front ==> !IsInstance(m, c)
    ensures Instances(front + ([e] + back), c) == [e] + Instances(back, c)
  {
    InstancesConcat(front, [e] + back, c);
    NoInstances(front, c);
    assert ([e] + back)[1..] == back;
    assert [] + Instances([e] + back, c) == Instances([e] + back, c);
  }

  lemma ReadAround(front: seq<Middleware>, pair: seq<Middleware>, found: seq<Middleware>, back: seq<Middleware>)
    requires Subseq(found, back)
    ensures Subseq(pair + found, front + (pair + back))
  {
    hide Subseq;
    SubseqRefl(pair);
    SubseqAppend(pair, pair, found, back);
    SubseqEmpty(front);
    SubseqAppend([], front, pair + found, pair + back);
    assert [] + (pair + found) == pair + found;
  }

  lemma PlaceReading(chain: seq<Middleware>, x: Anchored)
    requires HasMatch(chain, x.anchor)
    ensures Subseq(Neighbours(chain, x), Place(chain, x)) && Instances(chain, x.anchor) != []
  {
    hide Instances, Subseq, Place, HasMatch;
    var front, e, back := PlaceAround(chain, x);
    var found := Instances(back, x.anchor);
    InstancesAround(front, e, back, x.anchor);
    InstancesSubseq(back, x.anchor);
    ReadAround(front, Pair(e, x), found, back);
    assert Neighbours(chain, x) == Pair(e, x) + found;
  }

  // Placement reorders nothing, and every extra is placed next to the first match of
  // its moment.
  lemma {:induction false} PlaceAllOrder(chain: seq<Middleware>, xs: seq<Anchored>)
    requires Placeable(chain, xs)
    ensures Subseq(chain, PlaceAll(chain, xs))
    ensures forall x :: x in xs ==> IsAttached(chain, PlaceAll(chain, xs), x)
    decreases |xs|
  {
    if xs == [] {
      SubseqRefl(chain);
    } else {
      var next := Place(chain, xs[0]);
      PlaceContents(chain, xs[0]);
      PlaceAllOrder(next, xs[1..]);
      var s := PlaceAll(chain, xs);
      SubseqTrans(chain, next, s);
      SubseqRefl(chain);
      assert s == PlaceAll(next, xs[1..]);
      assert PlacedIn(chain, s, xs[0], chain);
      forall x | x in xs ensures IsAttached(chain, s, x) {
        if x != xs[0] {
          assert x in xs[1..];
          var c :| PlacedIn(next, s, x, c);
          SubseqTrans(chain, next, c);
          assert PlacedIn(chain, s, x, c);
        }
      }
    }
  }

  // What that means for the finished chain: a @Prev extra precedes every instance of
  // its anchor that was in the base, and more generally every one that was there when
  // it was placed; a @Next extra follows the first of those and precedes the others.
  lemma AttachedReading(base: seq<Middleware>, s: seq<Middleware>, x: Anchored) returns (c: seq<Middleware>)
    requires IsAttached(base, s, x)
    ensures HasMatch(c, x.anchor) && Instances(c, x.anchor) != [] && Subseq(Neighbours(c, x), s)
    ensures Subseq(Instances(base, x.anchor), Instances(c, x.anchor))
    ensures x.side == Before ==> Subseq([x.mw] + Instances(base, x.anchor), s)
  {
    c :| PlacedIn(base, s, x, c);
    PlaceReading(c, x);
    SubseqTrans(Neighbours(c, x), Place(c, x), s);
    InstancesGrow(base, c, x.anchor);
    if x.side == Before {
      SubseqRefl([x.mw]);
      SubseqAppend([x.mw], [x.mw], Instances(base, x.anchor), Instances(c, x.anchor));
      SubseqTrans([x.mw] + Instances(base, x.anchor), Neighbours(c, x), s);
    }
  }

  // The chain extra i is placed into, and how it then stands to all instances of its
  // anchor in it, extras placed earlier included: in front of them all, or between the
  // first and the others.
  lemma {:induction false} PlacedAtItsTurn(chain: seq<Middleware>, xs: seq<Anchored>, i: nat)
    requires Placeable(chain, xs) && i < |xs|
    ensures Placeable(chain, xs[..i]) && HasMatch(PlaceAll(chain, xs[..i]), xs[i].anchor)
    ensures Instances(PlaceAll(chain, xs[..i]), xs[i].anchor) != []
    ensures Subseq(Neighbours(PlaceAll(chain, xs[..i]), xs[i]), PlaceAll(chain, xs))
    decreases i
  {
    hide Instances, Neighbours, Place, HasMatch, Subseq;
    if i == 0 {
      assert xs[..0] == [];
      PlaceReading(chain, xs[0]);
      PlaceAllOrder(Place(chain, xs[0]), xs[1..]);
      SubseqTrans(Neighbours(chain, xs[0]), Place(chain, xs[0]), PlaceAll(chain, xs));
    } else {
      assert xs[..i][1..] == xs[1..][..i-1];
      PlacedAtItsTurn(Place(chain, xs[0]), xs[1..], i - 1);
    }
  }

  // --- when insertion succeeds ---

  // t leads from its first extra, anchor by anchor, to an element of base.
  ghost predicate Trail(base: seq<Middleware>, extras: set<Anchored>, t: seq<Anchored>)
    decreases |t|
  {
    && t != [] && t[0] in extras
    && if |t| == 1 then HasMatch(base, t[0].anchor)
       else IsInstance(t[1].mw, t[0].anchor) && Trail(base, extras, t[1..])
  }

  ghost predicate Reaches(base: seq<Middleware>, extras: set<Anchored>, x: Anchored) {
    exists t :: Trail(base, extras, t) && t[0] == x
  }

  ghost function Elements<T>(s: seq<T>): set<T> {
    set x | x in s
  }

  lemma NextReaches(base: seq<Middleware>, extras: set<Anchored>, chain: seq<Middleware>, x: Anchored)
    requires HasMatch(chain, x.anchor) && x in extras
    requires forall m :: m in chain ==> m in base || exists y :: y in extras && y.mw == m && Reaches(base, extras, y)
    ensures Reaches(base, extras, x)
  {
    var m := chain[FirstMatch(chain, x.anchor)];
    if m in base {
      assert Trail(base, extras, [x]);
    } else {
      var y :| y in extras && y.mw == m && Reaches(base, extras, y);
      var t :| Trail(base, extras, t) && t[0] == y;
      assert ([x] + t)[1..] == t;
      assert Trail(base, extras, [x] + t);
    }
  }

  // Everything placed had a trail.
  lemma {:induction false} PlacedReach(base: seq<Middleware>, extras: set<Anchored>, chain: seq<Middleware>, xs: seq<Anchored>)
    requires Placeable(chain, xs) && Elements(xs) <= extras
    requires forall m :: m in chain ==> m in base || exists y :: y in extras && y.mw == m && Reaches(base, extras, y)
    ensures forall x :: x in xs ==> Reaches(base, extras, x)
    decreases |xs|
  {
    if xs != [] {
      var x := xs[0];
      assert x in Elements(xs);
      NextReaches(base, extras, chain, x);
      hide Subseq, Reaches, Place, HasMatch;
      PlaceContents(chain, x);
      assert Elements(xs[1..]) <= Elements(xs);
      PlacedReach(base, extras, Place(chain, x), xs[1..]);
    }
  }

  // Nothing with a trail is left when nothing moves any more.
  lemma {:induction false} StuckHasNoTrail(base: seq<Middleware>, extras: set<Anchored>, chain: seq<Middleware>,
                                           rest: seq<Anchored>, t: seq<Anchored>)
    requires forall x :: x in rest ==> !HasMatch(chain, x.anchor)
    requires forall m :: m in base ==> m in chain
    requires forall y :: y in extras && y !in rest ==> y.mw in chain
    requires Trail(base, extras, t)
    ensures t[0] !in rest
    decreases |t|
  {
    if |t| == 1 {
      var i := FirstMatch(base, t[0].anchor);
      assert base[i] in chain;
    } else {
      StuckHasNoTrail(base, extras, chain, rest, t[1..]);
      assert t[1..][0] == t[1];
      assert t[1].mw in chain;
    }
  }

  lemma InMiddlewares(xs: seq<Anchored>, x: Anchored)
    requires x in xs
    ensures x.mw in MiddlewaresOf(xs)
  {
    var i :| 0 <= i < |xs| && xs[i] == x;
    assert MiddlewaresOf(xs)[i] == x.mw;
  }

  // The rounds place everything exactly when every extra's trail of anchors
  // reaches the chain; otherwise they report exactly the extras without one.
  lemma RoundsSucceed(base: seq<Middleware>, pending: seq<Anchored>)
    ensures Rounds(base, pending).Success? <==>
            forall x :: x in pending ==> Reaches(base, Elements(pending), x)
    ensures Rounds(base, pending).Failure? ==>
            exists rest :: Rounds(base, pending).error == StuckError(rest)
                           && forall x :: x in rest <==> x in pending && !Reaches(base, Elements(pending), x)
  {
    hide Rounds, PlaceAll, Placeable, HasMatch, Reaches, Shares;
    var xs, rest := RoundsOrder(base, pending);
    SharedOut(xs, rest, pending);
    PlacedReach(base, Elements(pending), base, xs);
    if Rounds(base, pending).Failure? {
      forall x | x in rest ensures !Reaches(base, Elements(pending), x) {
        LeftUnreached(base, xs, rest, pending, x);
      }
      assert rest[0] in rest;
    }
  }

  lemma SharedOut(xs: seq<Anchored>, rest: seq<Anchored>, pending: seq<Anchored>)
    requires Shares(xs, rest, pending)
    ensures forall x :: x in pending <==> x in xs || x in rest
  {
    forall x ensures x in pending <==> x in xs || x in rest {
      assert x in multiset(pending) <==> x in multiset(xs) + multiset(rest);
    }
  }

  lemma LeftUnreached(base: seq<Middleware>, xs: seq<Anchored>, rest: seq<Anchored>, pending: seq<Anchored>, x: Anchored)
    requires Placeable(base, xs) && x in rest && forall y :: y in pending <==> y in xs || y in rest
    requires forall y :: y in rest ==> !HasMatch(PlaceAll(base, xs), y.anchor)
    ensures !Reaches(base, Elements(pending), x)
  {
    hide PlaceAll, Placeable, HasMatch;
    var extras, s := Elements(pending), PlaceAll(base, xs);
    PlaceAllContents(base, xs);
    forall m | m in base || m in MiddlewaresOf(xs) ensures m in s {
      assert m in multiset(s);
    }
    if t :| Trail(base, extras, t) && t[0] == x {
      forall y | y in extras && y !in rest ensures y.mw in s {
        InMiddlewares(xs, y);
      }
      StuckHasNoTrail(base, extras, s, rest, t);
    }
  }

  // Insertion as a whole: accepted if and only if the requests are compatible
  // and every anchored extra's trail reaches the chain.
  lemma InsertionSucceeds(chain: seq<Middleware>, extras: seq<Middleware>)
    requires Compatible(extras) && HasMatch(chain, CLARIFICATION)
    ensures Insertion(chain, extras).Success? <==>
            forall x :: x in AnchoredOf(extras) ==>
                          Reaches(WithUnanchored(chain, UnanchoredOf(extras)), Elements(AnchoredOf(extras)), x)
  {
    hide Rounds, AnchoredOf, UnanchoredOf, WithUnanchored, Reaches, Compatible, HasMatch;
    RoundsSucceed(WithUnanchored(chain, UnanchoredOf(extras)), AnchoredOf(extras));
  }

  // What an error names: exactly the extras without a trail, or the classes that are
  // both asked for by one of them and the class of one of them.
  lemma ErrorNamesExactly(base: seq<Middleware>, pending: seq<Anchored>)
    requires Rounds(base, pending).Failure?
    ensures var e := Rounds(base, pending).error;
            && (e.Unresolved? ==> forall m :: m in e.mws <==> IsUnreached(base, pending, m))
            && (e.Circular? ==> forall c :: c in e.classes <==> AskedInVain(base, pending, c) && OwnedInVain(base, pending, c))
  {
    RoundsSucceed(base, pending);
    var rest :| Rounds(base, pending).error == StuckError(rest)
                && forall x :: x in rest <==> x in pending && !Reaches(base, Elements(pending), x);
    hide Rounds, Reaches;
    forall m ensures m in MiddlewaresOf(rest) <==> IsUnreached(base, pending, m) {
      if m in MiddlewaresOf(rest) {
        var i :| 0 <= i < |rest| && MiddlewaresOf(rest)[i] == m;
        assert rest[i] in rest;
      }
      if x :| x in pending && x.mw == m && !Reaches(base, Elements(pending), x) {
        InMiddlewares(rest, x);
      }
    }
    forall c ensures c in AnchorClasses(rest) <==> AskedInVain(base, pending, c) {
      if c in AnchorClasses(rest) {
        var x: Anchored :| x in rest && x.anchor == c;
      }
    }
    forall c ensures c in OwnClasses(rest) <==> OwnedInVain(base, pending, c) {
      if c in OwnClasses(rest) {
        var x: Anchored :| x in rest && x.mw.cls.id == c;
      }
    }
  }

  ghost predicate IsUnreached(base: seq<Middleware>, pending: seq<Anchored>, m: Middleware) {
    exists x :: x in pending && x.mw == m && !Reaches(base, Elements(pending), x)
  }

  ghost predicate AskedInVain(base: seq<Middleware>, pending: seq<Anchored>, c: ClassId) {
    exists x :: x in pending && x.anchor == c && !Reaches(base, Elements(pending), x)
  }

  ghost predicate OwnedInVain(base: seq<Middleware>, pending: seq<Anchored>, c: ClassId) {
    exists x :: x in pending && x.mw.cls.id == c && !Reaches(base, Elements(pending), x)
  }

  // A failure is called circular exactly when one unplaceable extra is anchored
  // on the very class of an unplaceable extra.
  lemma CircularExactly(base: seq<Middleware>, pending: seq<Anchored>)
    requires Rounds(base, pending).Failure?
    ensures Rounds(base, pending).error.Circular? || Rounds(base, pending).error.Unresolved?
    ensures Rounds(base, pending).error.Circular? <==>
            exists x, y :: x in pending && y in pending && x.anchor == y.mw.cls.id
                           && !Reaches(base, Elements(pending), x) && !Reaches(base, Elements(pending), y)
  {
    RoundsSucceed(base, pending);
    var rest :| Rounds(base, pending).error == StuckError(rest)
                && forall x :: x in rest <==> x in pending && !Reaches(base, Elements(pending), x);
    var both := AnchorClasses(rest) * OwnClasses(rest);
    if both != {} {
      var c :| c in both;
      var x: Anchored :| x in rest && x.anchor == c;
      var y: Anchored :| y in rest && y.mw.cls.id == c;
      assert x in pending && y in pending && x.anchor == y.mw.cls.id;
    }
    if x, y :| x in pending && y in pending && x.anchor == y.mw.cls.id
               && !Reaches(base, Elements(pending), x) && !Reaches(base, Elements(pending), y) {
      assert x in rest && y in rest;
      assert x.anchor in both;
    }
  }

  // Nothing outside the group answers to an anchor of the group.
  ghost predicate Closed(base: seq<Middleware>, pending: seq<Anchored>, group: set<Anchored>) {
    && (forall x :: x in group ==> x in pending && !HasMatch(base, x.anchor))
    && forall x, y :: x in group && y in pending && IsInstance(y.mw, x.anchor) ==> y in group
  }

  // A closed group of extras that are anchored on each other's classes.
  ghost predicate TrueCycle(base: seq<Middleware>, pending: seq<Anchored>, cycle: set<Anchored>) {
    && cycle != {} && Closed(base, pending, cycle)
    && AnchorsWithin(cycle)
  }

  ghost predicate AnchorsWithin(cycle: set<Anchored>) {
    forall x :: x in cycle ==> x.anchor in set y | y in cycle :: y.mw.cls.id
  }

  lemma {:induction false} ClosedHasNoTrail(base: seq<Middleware>, pending: seq<Anchored>, group: set<Anchored>, t: seq<Anchored>)
    requires Closed(base, pending, group) && Trail(base, Elements(pending), t)
    ensures t[0] !in group
    decreases |t|
  {
    if |t| > 1 {
      ClosedHasNoTrail(base, pending, group, t[1..]);
      assert t[1] == t[1..][0] && t[1] in pending;
    }
  }

  lemma UnreachablePairIsCircular(base: seq<Middleware>, pending: seq<Anchored>, x: Anchored, y: Anchored)
    requires x in pending && y in pending && x.anchor == y.mw.cls.id
    requires !Reaches(base, Elements(pending), x) && !Reaches(base, Elements(pending), y)
    ensures Rounds(base, pending).Failure? && Rounds(base, pending).error.Circular?
  {
    RoundsSucceed(base, pending);
    CircularExactly(base, pending);
  }

  lemma ClosedIsUnreachable(base: seq<Middleware>, pending: seq<Anchored>, group: set<Anchored>, x: Anchored)
    requires Closed(base, pending, group) && x in group
    ensures !Reaches(base, Elements(pending), x)
  {
    if t :| Trail(base, Elements(pending), t) && t[0] == x {
      ClosedHasNoTrail(base, pending, group, t);
    }
  }

  lemma TrueCycleIsReported(base: seq<Middleware>, pending: seq<Anchored>, cycle: set<Anchored>)
    requires TrueCycle(base, pending, cycle)
    ensures Rounds(base, pending).Failure? && Rounds(base, pending).error.Circular?
  {
    var x :| x in cycle;
    var y :| y in cycle && x.anchor == y.mw.cls.id;
    ClosedIsUnreachable(base, pending, cycle, x);
    ClosedIsUnreachable(base, pending, cycle, y);
    UnreachablePairIsCircular(base, pending, x, y);
  }
}
