// Independence of the listing order, with its exact condition.
module MiddlewareOrder {
  import opened Sequences
  import opened MiddlewareChain
  import opened MiddlewareLayout
  import opened MiddlewareBlocks

  // p lists the same extras as pending, in some order.
  ghost predicate Listing(p: seq<Anchored>, pending: seq<Anchored>) {
    multiset(p) == multiset(pending)
  }

  ghost predicate OrderInsensitive(base: seq<Middleware>, pending: seq<Anchored>) {
    forall p :: Listing(p, pending) ==> Rounds(base, p) == Rounds(base, pending)
  }

  lemma ListingElements(p: seq<Anchored>, pending: seq<Anchored>)
    requires Listing(p, pending)
    ensures Elements(p) == Elements(pending)
    ensures Distinct(p) <==> Distinct(pending)
  {
    forall x ensures x in p <==> x in pending {
      assert x in multiset(p) <==> x in multiset(pending);
    }
    DistinctMultiset(p);
    DistinctMultiset(pending);
  }

  // Whether the extras can be placed never depends on their order.
  lemma SuccessIgnoresOrder(base: seq<Middleware>, p: seq<Anchored>, pending: seq<Anchored>)
    requires Listing(p, pending)
    ensures Rounds(base, p).Success? <==> Rounds(base, pending).Success?
  {
    ListingElements(p, pending);
    RoundsSucceed(base, p);
    RoundsSucceed(base, pending);
    assert forall x :: x in p <==> x in Elements(p);
    assert forall x :: x in pending <==> x in Elements(pending);
  }

  // Two extras on the same side of the same element.
  ghost predicate Rivals(all: set<Middleware>, x: Anchored, y: Anchored, e: Middleware) {
    && x.side == y.side && x.mw != y.mw && e in all
    && AnchoredOn(x, e) && AnchoredOn(y, e)
    && OneMatch(all, x.anchor) && OneMatch(all, y.anchor)
  }

  lemma {:induction false} RoundConcat(chain: seq<Middleware>, a: seq<Anchored>, b: seq<Anchored>)
    ensures var (c, r) := Round(chain, a);
            var (d, q) := Round(c, b);
            Round(chain, a + b) == (d, r + q)
    decreases |a|
  {
    if a == [] {
      assert a + b == b;
      assert [] + Round(chain, b).1 == Round(chain, b).1;
    } else {
      assert (a + b)[0] == a[0] && (a + b)[1..] == a[1..] + b;
      var next := if HasMatch(chain, a[0].anchor) then Place(chain, a[0]) else chain;
      RoundConcat(next, a[1..], b);
      var (c, r) := Round(next, a[1..]);
      var (d, q) := Round(c, b);
      assert ([a[0]] + r) + q == [a[0]] + (r + q);
    }
  }

  lemma MatchIsElement(all: set<Middleware>, c: seq<Middleware>, x: Anchored, e: Middleware)
    requires Elements(c) <= all && e in all && AnchoredOn(x, e) && OneMatch(all, x.anchor)
    ensures HasMatch(c, x.anchor) <==> e in c
    ensures e in c ==> c[FirstMatch(c, x.anchor)] == e
  {
    if HasMatch(c, x.anchor) {
      var m := c[FirstMatch(c, x.anchor)];
      assert m in Elements(c);
    }
    if e in c {
      MatchIn(c, x.anchor, e);
      var m := c[FirstMatch(c, x.anchor)];
      assert m in Elements(c);
    }
  }

  ghost function Reading(x: Anchored, y: Anchored): seq<Middleware> {
    if x.side == After then [y.mw, x.mw] else [x.mw, y.mw]
  }

  lemma PlaceIndices(c: seq<Middleware>, x: Anchored)
    requires HasMatch(c, x.anchor)
    ensures var at := FirstMatch(c, x.anchor) + if x.side == After then 1 else 0;
            var s := Place(c, x);
            && |s| == |c| + 1 && s[at] == x.mw
            && (forall k :: 0 <= k < at ==> s[k] == c[k])
            && (forall k :: at < k < |s| ==> s[k] == c[k-1])
  {
    InsertedIndices(c, FirstMatch(c, x.anchor) + if x.side == After then 1 else 0, x.mw);
    hide HasMatch, FirstMatch;
  }

  // The first rival moves the element by one position at most.
  lemma ElementAfterPlace(all: set<Middleware>, c: seq<Middleware>, x: Anchored, y: Anchored, e: Middleware)
    requires Rivals(all, x, y, e) && Elements(c) <= all && e in c && x.mw in all && x.mw !in c
    ensures HasMatch(c, x.anchor) && HasMatch(Place(c, x), y.anchor)
    ensures FirstMatch(Place(c, x), y.anchor) == FirstMatch(c, x.anchor) + if x.side == After then 0 else 1
  {
    MatchIsElement(all, c, x, e);
    PlaceIndices(c, x);
    hide Place;
    var i := FirstMatch(c, x.anchor);
    var d := Place(c, x);
    var j := if x.side == After then i else i + 1;
    assert d[j] == e;
    forall k | 0 <= k < j ensures !IsInstance(d[k], y.anchor) {
      if k < i {
        assert d[k] == c[k] && !IsInstance(c[k], x.anchor);
        assert c[k] in Elements(c);
      } else {
        assert d[k] == x.mw;
      }
    }
    FirstMatchIs(d, y.anchor, j);
  }

  // Of two rivals the one placed later ends up closer to the element.
  lemma PlaceRivals(all: set<Middleware>, c: seq<Middleware>, x: Anchored, y: Anchored, e: Middleware)
    requires Rivals(all, x, y, e) && Elements(c) <= all && e in c && x.mw in all && x.mw !in c
    ensures HasMatch(c, x.anchor) && HasMatch(Place(c, x), y.anchor)
    ensures Subseq(Reading(x, y), Place(Place(c, x), y))
  {
    ElementAfterPlace(all, c, x, y, e);
    PlaceIndices(c, x);
    PlaceIndices(Place(c, x), y);
    var i := FirstMatch(c, x.anchor);
    var s := Place(Place(c, x), y);
    if x.side == After {
      assert s[i + 1] == y.mw && s[i + 2] == x.mw;
      PairSubseq(s, i + 1, i + 2);
    } else {
      assert s[i] == x.mw && s[i + 1] == y.mw;
      PairSubseq(s, i, i + 1);
    }
  }

  lemma RoundNothing(d: seq<Middleware>, x: Anchored, y: Anchored)
    requires !HasMatch(d, x.anchor) && !HasMatch(d, y.anchor)
    ensures Round(d, [x, y]) == (d, [x, y])
  {
    assert Round(d, []) == (d, []);
    assert [y][1..] == [] && [y] + [] == [y];
    assert Round(d, [y]) == (d, [y]);
    assert [x, y][1..] == [y] && [x] + [y] == [x, y];
  }

  lemma RoundBoth(d: seq<Middleware>, x: Anchored, y: Anchored)
    requires HasMatch(d, x.anchor) && HasMatch(Place(d, x), y.anchor)
    ensures Round(d, [x, y]) == (Place(Place(d, x), y), [])
  {
    var f := Place(Place(d, x), y);
    assert Round(f, []) == (f, []);
    assert [y][1..] == [];
    assert Round(Place(d, x), [y]) == (f, []);
    assert [x, y][1..] == [y];
  }

  lemma {:induction false} RivalsKeepOrder(all: set<Middleware>, c: seq<Middleware>, rest: seq<Anchored>,
                                           x: Anchored, y: Anchored, e: Middleware)
    requires Rivals(all, x, y, e) && Elements(c) <= all && x.mw in all && x.mw !in c
    requires forall z :: z in rest ==> z.mw in all && z.mw != x.mw
    requires Rounds(c, rest + [x, y]).Success?
    ensures Subseq(Reading(x, y), Rounds(c, rest + [x, y]).value)
    decreases |rest|
  {
    var (d, r) := Round(c, rest);
    RoundConcat(c, rest, [x, y]);
    var zs := RoundOrder(c, rest);
    PassContents(c, rest, zs, d, r);
    forall m | m in d ensures m in all && m != x.mw {
      if m in c {
        assert m in Elements(c);
      }
    }
    MatchIsElement(all, d, x, e);
    MatchIsElement(all, d, y, e);
    if e in d {
      PlaceRivals(all, d, x, y, e);
      var f := Place(Place(d, x), y);
      RoundBoth(d, x, y);
      assert r + [] == r;
      var xs, left := RoundsOrder(f, r);
      PlaceAllOrder(f, xs);
      SubseqTrans(Reading(x, y), f, Rounds(f, r).value);
    } else {
      RoundNothing(d, x, y);
      RivalsKeepOrder(all, d, r, x, y, e);
    }
  }

  // What one pass can put into the chain or leave pending.
  lemma PassContents(c: seq<Middleware>, pending: seq<Anchored>, zs: seq<Anchored>, d: seq<Middleware>, r: seq<Anchored>)
    requires Placeable(c, zs) && d == PlaceAll(c, zs) && Shares(zs, r, pending)
    ensures forall m :: m in d ==> m in c || exists z :: z in pending && z.mw == m
    ensures forall z :: z in r ==> z in pending
  {
    PlaceAllContents(c, zs);
    forall z | z in r || z in zs ensures z in pending {
      assert z in multiset(pending);
    }
    forall m | m in d ensures m in c || exists z :: z in pending && z.mw == m {
      assert m in multiset(d);
      if m !in c {
        assert m in MiddlewaresOf(zs);
        var i :| 0 <= i < |zs| && MiddlewaresOf(zs)[i] == m;
        assert zs[i] in pending;
      }
    }
  }

  lemma DistinctNoBothOrders(s: seq<Middleware>, m: Middleware, n: Middleware)
    requires Distinct(s) && m != n && Subseq([m, n], s)
    ensures !Subseq([n, m], s)
  {
    var i, j := SubseqPair(m, n, s);
    forall k, l | 0 <= k < l < |s| && s[k] == n ensures s[l] != m {
      assert k == j;
      assert s[l] != s[i];
    }
    if Subseq([n, m], s) {
      var k, l := SubseqPair(n, m, s);
      assert false;
    }
  }

  lemma WithoutOne(s: seq<Anchored>, x: Anchored) returns (rest: seq<Anchored>)
    requires x in s
    ensures multiset(s) == multiset(rest) + multiset{x}
  {
    var i :| 0 <= i < |s| && s[i] == x;
    rest := s[..i] + s[i+1..];
    assert s == s[..i] + [x] + s[i+1..];
  }

  lemma WithoutPair(pending: seq<Anchored>, x: Anchored, y: Anchored) returns (rest: seq<Anchored>)
    requires x in pending && y in pending && x != y
    ensures Listing(rest + [x, y], pending) && Listing(rest + [y, x], pending)
  {
    var mid := WithoutOne(pending, x);
    assert y in multiset(pending);
    rest := WithoutOne(mid, y);
    assert multiset([x, y]) == multiset{x} + multiset{y} == multiset([y, x]);
  }

  lemma DisjointDistinct(a: seq<Middleware>, b: seq<Middleware>, s: seq<Middleware>)
    requires Distinct(a) && Distinct(b) && (forall m :: m in a ==> m !in b)
    requires multiset(s) == multiset(a) + multiset(b)
    ensures Distinct(s)
  {
    DistinctMultiset(a);
    DistinctMultiset(b);
    DistinctMultiset(s);
    forall m ensures multiset(s)[m] <= 1 {
      assert m in multiset(a) <==> m in a;
      assert m in multiset(b) <==> m in b;
    }
  }

  lemma ObjectsDistinct(base: seq<Middleware>, extras: set<Anchored>, xs: seq<Anchored>)
    requires Unambiguous(base, extras) && Distinct(xs) && Elements(xs) == extras
    ensures Distinct(MiddlewaresOf(xs))
    ensures forall m :: m in base ==> m !in MiddlewaresOf(xs)
  {
    var ms := MiddlewaresOf(xs);
    forall i | 0 <= i < |ms| ensures ms[i] !in base && xs[i] in extras {
      assert xs[i] in Elements(xs);
    }
  }

  lemma ResultDistinct(base: seq<Middleware>, pending: seq<Anchored>)
    requires Distinct(pending) && Unambiguous(base, Elements(pending)) && Rounds(base, pending).Success?
    ensures Distinct(Rounds(base, pending).value)
  {
    var xs, left := RoundsOrder(base, pending);
    assert multiset(xs) == multiset(pending);
    ListingElements(xs, pending);
    PlaceAllContents(base, xs);
    ObjectsDistinct(base, Elements(pending), xs);
    DisjointDistinct(base, MiddlewaresOf(xs), Rounds(base, pending).value);
  }

  // Two rivals at the end of the list end up in an order that depends on theirs.
  lemma RivalsSwap(base: seq<Middleware>, pending: seq<Anchored>, rest: seq<Anchored>, x: Anchored, y: Anchored, e: Middleware)
    requires Distinct(pending) && Unambiguous(base, Elements(pending)) && Rounds(base, pending).Success?
    requires Listing(rest + [x, y], pending) && Listing(rest + [y, x], pending)
    requires x != y && Rivals(Elements(base) + Objects(Elements(pending)), x, y, e)
    ensures var s, t := Rounds(base, rest + [x, y]), Rounds(base, rest + [y, x]);
            && s.Success? && t.Success? && Distinct(s.value) && Distinct(t.value)
            && Subseq(Reading(x, y), s.value) && Subseq(Reading(y, x), t.value)
  {
    var all := Elements(base) + Objects(Elements(pending));
    var p, q := rest + [x, y], rest + [y, x];
    ListingElements(p, pending);
    ListingElements(q, pending);
    SuccessIgnoresOrder(base, p, pending);
    SuccessIgnoresOrder(base, q, pending);
    assert p[|rest|] == x && p[|rest| + 1] == y;
    assert x in Elements(pending) && y in Elements(pending);
    forall z | z in rest ensures z.mw in all && z.mw != x.mw && z.mw != y.mw {
      var i :| 0 <= i < |rest| && rest[i] == z;
      assert p[i] == z && z in Elements(p);
    }
    RivalsKeepOrder(all, base, rest, x, y, e);
    RivalsKeepOrder(all, base, rest, y, x, e);
    ResultDistinct(base, p);
    ResultDistinct(base, q);
  }

  lemma OppositeReadings(x: Anchored, y: Anchored, s: seq<Middleware>, t: seq<Middleware>)
    requires x.side == y.side && x.mw != y.mw && Distinct(s)
    requires Subseq(Reading(x, y), s) && Subseq(Reading(y, x), t)
    ensures s != t
  {
    if x.side == After {
      DistinctNoBothOrders(s, y.mw, x.mw);
    } else {
      DistinctNoBothOrders(s, x.mw, y.mw);
    }
  }

  lemma FindRivals(all: set<Middleware>, base: seq<Middleware>, extras: set<Anchored>)
    returns (x: Anchored, y: Anchored, e: Middleware)
    requires all == Elements(base) + Objects(extras) && Unambiguous(base, extras) && !OnePerSide(all, extras)
    ensures x in extras && y in extras && x != y && Rivals(all, x, y, e)
  {
    x, y, e :| x in extras && y in extras && x.side == y.side && e in all
               && AnchoredOn(x, e) && AnchoredOn(y, e) && x != y;
  }

  lemma RivalsDiffer(base: seq<Middleware>, pending: seq<Anchored>, rest: seq<Anchored>, x: Anchored, y: Anchored, e: Middleware)
    requires Distinct(pending) && Unambiguous(base, Elements(pending)) && Rounds(base, pending).Success?
    requires Listing(rest + [x, y], pending) && Listing(rest + [y, x], pending)
    requires x != y && Rivals(Elements(base) + Objects(Elements(pending)), x, y, e)
    ensures Rounds(base, rest + [x, y]) != Rounds(base, rest + [y, x])
  {
    RivalsSwap(base, pending, rest, x, y, e);
    OppositeReadings(x, y, Rounds(base, rest + [x, y]).value, Rounds(base, rest + [y, x]).value);
  }

  // With unique matches, the chain is the same for every listing order of the
  // anchored extras if and only if no element has two extras on one side.
  lemma OrderInsensitiveExactly(base: seq<Middleware>, pending: seq<Anchored>)
    requires Distinct(pending) && Unambiguous(base, Elements(pending)) && Rounds(base, pending).Success?
    ensures OrderInsensitive(base, pending) <==>
            OnePerSide(Elements(base) + Objects(Elements(pending)), Elements(pending))
  {
    hide Unambiguous, OnePerSide, Rivals, Rounds, Distinct, Listing;
    var extras := Elements(pending);
    var all := Elements(base) + Objects(extras);
    if OnePerSide(all, extras) {
      RoundsBuildLayout(base, pending);
      forall p | Listing(p, pending) ensures Rounds(base, p) == Rounds(base, pending) {
        ListingElements(p, pending);
        SuccessIgnoresOrder(base, p, pending);
        RoundsBuildLayout(base, p);
      }
    } else {
      var x, y, e := FindRivals(all, base, extras);
      var rest := WithoutPair(pending, x, y);
      RivalsDiffer(base, pending, rest, x, y, e);
    }
  }
}
