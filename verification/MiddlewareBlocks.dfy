// The declarative layout. When every anchor in use matches one element, the
// extras form binary trees over the chain: an extra hangs before or after the
// element it is anchored on. The rounds then build the in-order reading of these
// trees, whatever order the extras were listed in, if and only if no element has
// two extras on the same side.
module MiddlewareBlocks {
  import opened Wrappers
  import opened Sequences
  import opened MiddlewareChain
  import opened MiddlewareLayout

  ghost predicate AnchoredOn(x: Anchored, e: Middleware) {
    IsInstance(e, x.anchor)
  }

  ghost function Kids(e: Middleware, extras: set<Anchored>): set<Anchored> {
    set x | x in extras && AnchoredOn(x, e)
  }

  ghost function KidOn(e: Middleware, side: Side, extras: set<Anchored>): Option<Anchored> {
    if exists x :: x in extras && x.side == side && AnchoredOn(x, e) then
      var x :| x in extras && x.side == side && AnchoredOn(x, e); Some(x)
    else None
  }

  // The block of an element: the block of its @Prev extra, the element itself,
  // the block of its @Next extra.
  ghost function Block(e: Middleware, extras: set<Anchored>): seq<Middleware>
    decreases |extras|, 1
  {
    KidBlock(e, Before, extras) + [e] + KidBlock(e, After, extras)
  }

  ghost function KidBlock(e: Middleware, side: Side, extras: set<Anchored>): seq<Middleware>
    decreases |extras|, 0
  {
    match KidOn(e, side, extras)
    case None => []
    case Some(x) =>
      assert x in extras && x in Kids(e, extras);
      assert extras - Kids(e, extras) < extras;
      SmallerSet(extras - Kids(e, extras), extras);
      Block(x.mw, extras - Kids(e, extras))
  }

  lemma SmallerSet<T>(a: set<T>, b: set<T>)
    requires a < b
    ensures |a| < |b|
  {
    assert b == a + (b - a);
    assert |b| == |a| + |b - a|;
    var x :| x in b && x !in a;
    assert x in b - a;
  }

  // Every element of the base replaced by its block.
  ghost function Layout(base: seq<Middleware>, extras: set<Anchored>): seq<Middleware> {
    if base == [] then [] else Block(base[0], extras) + Layout(base[1..], extras)
  }

  ghost function Objects(extras: set<Anchored>): set<Middleware> {
    set x | x in extras :: x.mw
  }

  ghost predicate OneMatch(all: set<Middleware>, c: ClassId) {
    forall e, f :: e in all && f in all && IsInstance(e, c) && IsInstance(f, c) ==> e == f
  }

  // All objects are different and each anchor in use matches at most one of them.
  ghost predicate Unambiguous(base: seq<Middleware>, extras: set<Anchored>) {
    && Distinct(base)
    && (forall x :: x in extras ==> x.mw !in base)
    && (forall x, y :: x in extras && y in extras && x.mw == y.mw ==> x == y)
    && forall x :: x in extras ==> OneMatch(Elements(base) + Objects(extras), x.anchor)
  }

  // No element has two extras on one side, be it through different anchors.
  ghost predicate OnePerSide(all: set<Middleware>, extras: set<Anchored>) {
    forall x, y, e :: x in extras && y in extras && x.side == y.side && e in all && AnchoredOn(x, e) && AnchoredOn(y, e)
                      ==> x == y
  }

  // --- inserting one extra into a layout ---

  ghost function PlaceIfMatched(s: seq<Middleware>, x: Anchored): seq<Middleware> {
    if HasMatch(s, x.anchor) then Place(s, x) else s
  }

  lemma MatchIn(s: seq<Middleware>, c: ClassId, m: Middleware)
    requires m in s && IsInstance(m, c)
    ensures HasMatch(s, c)
  {
    var i :| 0 <= i < |s| && s[i] == m;
    assert IsInstance(s[i], c);
  }

  lemma FirstMatchIs(s: seq<Middleware>, c: ClassId, i: nat)
    requires i < |s| && IsInstance(s[i], c)
    requires forall j :: 0 <= j < i ==> !IsInstance(s[j], c)
    ensures HasMatch(s, c) && FirstMatch(s, c) == i
  {
    MatchIn(s, c, s[i]);
    var k := FirstMatch(s, c);
    assert !(k < i) && !(i < k);
  }

  lemma SplitWithin(a: seq<Middleware>, m: seq<Middleware>, b: seq<Middleware>, at: nat, x: Middleware)
    requires at <= |m|
    ensures var s := a + m + b;
            s[..|a| + at] + [x] + s[|a| + at..] == a + (m[..at] + [x] + m[at..]) + b
  {
    var s := a + m + b;
    assert s[..|a| + at] == a + m[..at];
    assert s[|a| + at..] == m[at..] + b;
  }

  lemma FirstWithin(a: seq<Middleware>, m: seq<Middleware>, b: seq<Middleware>, c: ClassId)
    requires !HasMatch(a, c) && HasMatch(m, c)
    ensures HasMatch(a + m + b, c) && FirstMatch(a + m + b, c) == |a| + FirstMatch(m, c)
  {
    var i := FirstMatch(m, c);
    var s := a + m + b;
    assert s[|a| + i] == m[i];
    forall j | 0 <= j < |a| + i ensures !IsInstance(s[j], c) {
      assert s[j] == if j < |a| then a[j] else m[j - |a|];
    }
    FirstMatchIs(s, c, |a| + i);
  }

  // Placing next to a match inside the middle part of a sequence.
  lemma PlaceWithin(a: seq<Middleware>, m: seq<Middleware>, b: seq<Middleware>, x: Anchored)
    requires !HasMatch(a, x.anchor) && HasMatch(m, x.anchor)
    ensures HasMatch(a + m + b, x.anchor) && Place(a + m + b, x) == a + Place(m, x) + b
  {
    FirstWithin(a, m, b, x.anchor);
    hide HasMatch, FirstMatch;
    var i := FirstMatch(m, x.anchor);
    SplitWithin(a, m, b, if x.side == After then i + 1 else i, x.mw);
  }

  lemma NoMatchConcat(a: seq<Middleware>, b: seq<Middleware>, c: ClassId)
    ensures HasMatch(a + b, c) <==> HasMatch(a, c) || HasMatch(b, c)
  {
    if HasMatch(a, c) {
      var i := FirstMatch(a, c);
      assert (a + b)[i] == a[i];
    }
    if HasMatch(b, c) {
      var i := FirstMatch(b, c);
      assert (a + b)[|a| + i] == b[i];
    }
  }

  // At most one of the parts has the match, so inserting acts on that part.
  lemma PlaceConcat(a: seq<Middleware>, b: seq<Middleware>, x: Anchored)
    requires !(HasMatch(a, x.anchor) && HasMatch(b, x.anchor))
    ensures PlaceIfMatched(a + b, x) == PlaceIfMatched(a, x) + PlaceIfMatched(b, x)
  {
    NoMatchConcat(a, b, x.anchor);
    if HasMatch(a, x.anchor) {
      PlaceWithin([], a, b, x);
      assert [] + a + b == a + b;
      assert [] + Place(a, x) + b == Place(a, x) + b;
    } else if HasMatch(b, x.anchor) {
      PlaceWithin(a, b, [], x);
      assert a + b + [] == a + b;
      assert a + Place(b, x) + [] == a + Place(b, x);
    }
  }

  // In a sequence without repetition only one part can hold the one match.
  lemma OnePartMatches(all: set<Middleware>, a: seq<Middleware>, b: seq<Middleware>, c: ClassId)
    requires OneMatch(all, c) && Distinct(a + b) && Elements(a + b) <= all
    ensures !(HasMatch(a, c) && HasMatch(b, c))
  {
    if HasMatch(a, c) {
      var i := FirstMatch(a, c);
      forall j | 0 <= j < |b| ensures !IsInstance(b[j], c) {
        assert (a + b)[i] == a[i] && (a + b)[|a| + j] == b[j];
        assert a[i] in Elements(a + b) && b[j] in Elements(a + b);
      }
    }
  }

  lemma DistinctParts(a: seq<Middleware>, b: seq<Middleware>)
    requires Distinct(a + b)
    ensures Distinct(a) && Distinct(b)
    ensures forall m :: m in a ==> m !in b
  {
    forall i, j | 0 <= i < j < |a| ensures a[i] != a[j] {
      assert a[i] == (a + b)[i] && a[j] == (a + b)[j];
    }
    forall i, j | 0 <= i < j < |b| ensures b[i] != b[j] {
      assert b[i] == (a + b)[|a| + i] && b[j] == (a + b)[|a| + j];
    }
    forall i, j | 0 <= i < |a| && 0 <= j < |b| ensures a[i] != b[j] {
      assert (a + b)[i] == a[i] && (a + b)[|a| + j] == b[j];
    }
  }

  lemma {:induction false} BlockElements(e: Middleware, extras: set<Anchored>)
    ensures e in Block(e, extras)
    ensures Elements(Block(e, extras)) <= {e} + Objects(extras)
    decreases |extras|, 1
  {
    KidBlockElements(e, Before, extras);
    KidBlockElements(e, After, extras);
  }

  lemma {:induction false} KidBlockElements(e: Middleware, side: Side, extras: set<Anchored>)
    ensures Elements(KidBlock(e, side, extras)) <= Objects(extras)
    decreases |extras|, 0
  {
    match KidOn(e, side, extras)
    case None =>
    case Some(x) =>
      assert x in Kids(e, extras);
      SmallerSet(extras - Kids(e, extras), extras);
      BlockElements(x.mw, extras - Kids(e, extras));
  }

  // x, not in the layout yet and with nothing hanging on it, joins it.
  ghost predicate Joins(all: set<Middleware>, extras: set<Anchored>, x: Anchored) {
    && x !in extras
    && Objects(extras) <= all
    && OneMatch(all, x.anchor)
    && OnePerSide(all, extras + {x})
    && forall y :: y in extras ==> !AnchoredOn(y, x.mw)
  }

  lemma JoinsLess(all: set<Middleware>, extras: set<Anchored>, x: Anchored, fewer: set<Anchored>)
    requires Joins(all, extras, x) && fewer <= extras
    ensures Joins(all, fewer, x)
  {
    assert fewer + {x} <= extras + {x};
    assert Objects(fewer) <= Objects(extras);
  }

  lemma KidOnJoined(all: set<Middleware>, extras: set<Anchored>, x: Anchored, e: Middleware, side: Side)
    requires Joins(all, extras, x) && e in all
    ensures KidOn(e, side, extras + {x})
            == if AnchoredOn(x, e) && x.side == side then Some(x) else KidOn(e, side, extras)
    ensures AnchoredOn(x, e) && x.side == side ==> KidOn(e, side, extras) == None
  {
    var more := extras + {x};
    if AnchoredOn(x, e) && x.side == side {
      assert x in more && x.side == side;
      var k := KidOn(e, side, more).value;
      assert k in more;
    } else if KidOn(e, side, extras).Some? {
      var k := KidOn(e, side, extras).value;
      assert k in more;
      var l := KidOn(e, side, more).value;
      assert l in more;
    }
  }

  lemma BareBlock(extras: set<Anchored>, m: Middleware)
    requires forall y :: y in extras ==> !AnchoredOn(y, m)
    ensures Block(m, extras) == [m]
  {}

  lemma {:induction false} BlockJoin(all: set<Middleware>, e: Middleware, extras: set<Anchored>, x: Anchored)
    requires e in all && Joins(all, extras, x) && Distinct(Block(e, extras))
    ensures Block(e, extras + {x}) == PlaceIfMatched(Block(e, extras), x)
    decreases |extras|, 1
  {
    var before, after := KidBlock(e, Before, extras), KidBlock(e, After, extras);
    BlockElements(e, extras);
    assert Elements(before + [e] + after) <= all;
    DistinctParts(before + [e], after);
    DistinctParts(before, [e]);
    if AnchoredOn(x, e) {
      ElementJoin(all, e, extras, x);
    } else {
      assert !HasMatch([e], x.anchor);
      hide Joins, OneMatch, HasMatch, KidBlock, PlaceIfMatched, Distinct;
      KidJoin(all, e, Before, extras, x);
      KidJoin(all, e, After, extras, x);
      OnePartMatches(all, before + [e], after, x.anchor);
      PlaceConcat(before + [e], after, x);
      PlaceConcat(before, [e], x);
    }
  }

  // The extra joins right beside the element it is anchored on.
  lemma ElementJoin(all: set<Middleware>, e: Middleware, extras: set<Anchored>, x: Anchored)
    requires e in all && Joins(all, extras, x) && Distinct(Block(e, extras)) && AnchoredOn(x, e)
    requires Elements(Block(e, extras)) <= all
    ensures Block(e, extras + {x}) == PlaceIfMatched(Block(e, extras), x)
  {
    var before, after := KidBlock(e, Before, extras), KidBlock(e, After, extras);
    DistinctParts(before + [e], after);
    DistinctParts(before, [e]);
    KidOnJoined(all, extras, x, e, Before);
    KidOnJoined(all, extras, x, e, After);
    assert extras + {x} - Kids(e, extras + {x}) == extras - Kids(e, extras);
    BareBlock(extras - Kids(e, extras), x.mw);
    forall i | 0 <= i < |before| ensures !IsInstance(before[i], x.anchor) {
      assert before[i] in before && before[i] in Elements(before + [e] + after);
    }
    FirstMatchIs([e], x.anchor, 0);
    PlaceWithin(before, [e], after, x);
  }

  lemma {:induction false} KidJoin(all: set<Middleware>, e: Middleware, side: Side, extras: set<Anchored>, x: Anchored)
    requires e in all && Joins(all, extras, x) && Distinct(KidBlock(e, side, extras)) && !AnchoredOn(x, e)
    ensures KidBlock(e, side, extras + {x}) == PlaceIfMatched(KidBlock(e, side, extras), x)
    decreases |extras|, 0
  {
    KidOnJoined(all, extras, x, e, side);
    match KidOn(e, side, extras)
    case None =>
    case Some(k) =>
      assert k in Kids(e, extras) && k.mw in Objects(extras);
      var rest := extras - Kids(e, extras);
      SmallerSet(rest, extras);
      JoinsLess(all, extras, x, rest);
      BlockJoin(all, k.mw, rest, x);
      assert extras + {x} - Kids(e, extras + {x}) == rest + {x};
  }

  lemma {:induction false} LayoutElements(base: seq<Middleware>, extras: set<Anchored>)
    ensures Elements(base) <= Elements(Layout(base, extras)) <= Elements(base) + Objects(extras)
    decreases |base|
  {
    if base != [] {
      var b, rest := Block(base[0], extras), Layout(base[1..], extras);
      BlockElements(base[0], extras);
      LayoutElements(base[1..], extras);
      assert Elements(b + rest) == Elements(b) + Elements(rest);
      assert Elements(base) == {base[0]} + Elements(base[1..]);
    }
  }

  lemma {:induction false} LayoutJoin(all: set<Middleware>, base: seq<Middleware>, extras: set<Anchored>, x: Anchored)
    requires Elements(base) <= all && Joins(all, extras, x) && Distinct(Layout(base, extras))
    ensures Layout(base, extras + {x}) == PlaceIfMatched(Layout(base, extras), x)
    decreases |base|
  {
    if base != [] {
      var b, rest := Block(base[0], extras), Layout(base[1..], extras);
      LayoutElements(base, extras);
      DistinctParts(b, rest);
      assert base[0] in Elements(base) && Elements(base[1..]) <= Elements(base);
      BlockJoin(all, base[0], extras, x);
      LayoutJoin(all, base[1..], extras, x);
      OnePartMatches(all, b, rest, x.anchor);
      PlaceConcat(b, rest, x);
    }
  }

  lemma {:induction false} LayoutEmpty(base: seq<Middleware>)
    ensures Layout(base, {}) == base
    decreases |base|
  {
    if base != [] {
      BareBlock({}, base[0]);
      LayoutEmpty(base[1..]);
    }
  }

  // --- the rounds build the layout ---

  lemma {:induction false} PlaceAllIsLayout(base: seq<Middleware>, placed: set<Anchored>, xs: seq<Anchored>, extras: set<Anchored>)
    requires Unambiguous(base, extras) && OnePerSide(Elements(base) + Objects(extras), extras)
    requires Distinct(xs) && placed !! Elements(xs) && placed + Elements(xs) == extras
    requires var chain := Layout(base, placed);
             && Placeable(chain, xs) && Distinct(chain)
             && forall y :: y in placed ==> HasMatch(chain, y.anchor)
    ensures PlaceAll(Layout(base, placed), xs) == Layout(base, extras)
    decreases |xs|
  {
    hide Unambiguous, OnePerSide, Layout, HasMatch, Place;
    if xs == [] {
      assert placed == extras;
    } else {
      var x, rest := xs[0], xs[1..];
      assert x in Elements(xs);
      LayoutNext(base, placed, x, extras);
      DistinctRest(xs);
      PlaceAllIsLayout(base, placed + {x}, rest, extras);
    }
  }

  lemma DistinctRest(xs: seq<Anchored>)
    requires Distinct(xs) && xs != []
    ensures Distinct(xs[1..]) && xs[0] !in Elements(xs[1..]) && Elements(xs) == {xs[0]} + Elements(xs[1..])
  {
    assert forall y :: y in xs[1..] ==> y != xs[0];
  }

  // Placing one more extra into a layout gives the layout with it.
  lemma LayoutNext(base: seq<Middleware>, placed: set<Anchored>, x: Anchored, extras: set<Anchored>)
    requires Unambiguous(base, extras) && OnePerSide(Elements(base) + Objects(extras), extras)
    requires placed <= extras && x in extras && x !in placed
    requires var chain := Layout(base, placed);
             && HasMatch(chain, x.anchor) && Distinct(chain)
             && forall y :: y in placed ==> HasMatch(chain, y.anchor)
    ensures var next := Place(Layout(base, placed), x);
            && next == Layout(base, placed + {x}) && Distinct(next)
            && forall y :: y in placed + {x} ==> HasMatch(next, y.anchor)
  {
    hide Unambiguous, Layout, OnePerSide, OneMatch, Place, Distinct, Joins;
    var chain := Layout(base, placed);
    JoinsNext(base, placed, x, extras);
    LayoutJoin(Elements(base) + Objects(extras), base, placed, x);
    PlaceDistinct(chain, x);
    PlaceContents(chain, x);
    forall y | y in placed + {x} ensures HasMatch(Place(chain, x), y.anchor) {
      MatchIn(Place(chain, x), y.anchor, chain[FirstMatch(chain, y.anchor)]);
    }
  }

  lemma JoinsNext(base: seq<Middleware>, placed: set<Anchored>, x: Anchored, extras: set<Anchored>)
    requires Unambiguous(base, extras) && OnePerSide(Elements(base) + Objects(extras), extras)
    requires placed <= extras && x in extras && x !in placed
    requires forall y :: y in placed ==> HasMatch(Layout(base, placed), y.anchor)
    ensures Joins(Elements(base) + Objects(extras), placed, x)
    ensures x.mw !in Layout(base, placed)
  {
    var all := Elements(base) + Objects(extras);
    var chain := Layout(base, placed);
    LayoutElements(base, placed);
    assert Objects(placed) <= Objects(extras);
    assert placed + {x} <= extras;
    forall m | m in chain ensures m != x.mw && m in all {
      assert m in Elements(chain);
    }
    forall y | y in placed ensures !AnchoredOn(y, x.mw) {
      var m := chain[FirstMatch(chain, y.anchor)];
      assert m in chain;
      assert m in all && x.mw in all && OneMatch(all, y.anchor);
    }
  }

  lemma PlaceDistinct(chain: seq<Middleware>, x: Anchored)
    requires HasMatch(chain, x.anchor) && Distinct(chain) && x.mw !in chain
    ensures Distinct(Place(chain, x))
  {
    DistinctMultiset(chain);
    DistinctMultiset(Place(chain, x));
    PlaceContents(chain, x);
    forall m ensures multiset(Place(chain, x))[m] <= 1 {
      if m == x.mw {
        assert m !in multiset(chain);
      }
    }
  }

  // The main result about positions: the rounds yield the recursive layout.
  lemma RoundsBuildLayout(base: seq<Middleware>, pending: seq<Anchored>)
    requires Distinct(pending) && Unambiguous(base, Elements(pending))
    requires OnePerSide(Elements(base) + Objects(Elements(pending)), Elements(pending))
    requires Rounds(base, pending).Success?
    ensures Rounds(base, pending).value == Layout(base, Elements(pending))
  {
    var xs, rest := RoundsOrder(base, pending);
    assert multiset(xs) == multiset(pending);
    DistinctMultiset(xs);
    DistinctMultiset(pending);
    forall x ensures x in xs <==> x in pending {
      assert x in multiset(xs) <==> x in multiset(pending);
    }
    assert Elements(xs) == Elements(pending);
    LayoutEmpty(base);
    PlaceAllIsLayout(base, {}, xs, Elements(pending));
  }
}
