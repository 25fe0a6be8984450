// How much the order matters in which extras are listed: for insertion as a whole,
// and for the assembled chain.
module MiddlewareListing {
  import opened Wrappers
  import opened Sequences
  import opened MiddlewareChain
  import opened MiddlewareLayout
  import opened MiddlewareBlocks
  import opened MiddlewareOrder
  import opened MiddlewareAssembly

  // The same extras in another order, which keeps that of the unanchored ones.
  ghost predicate Relisting(p: seq<Middleware>, extras: seq<Middleware>) {
    multiset(p) == multiset(extras) && UnanchoredOf(p) == UnanchoredOf(extras)
  }

  // --- what relisting keeps ---

  function RequestsOf(m: Middleware): seq<Anchored> {
    if IsAnchored(m) then [Request(m)] else []
  }

  function AnchorsOf(m: Middleware): seq<ClassId> {
    if IsAnchored(m) then [Request(m).anchor] else []
  }

  lemma {:induction false} AnchoredIsGathered(extras: seq<Middleware>)
    ensures AnchoredOf(extras) == Gather(RequestsOf, extras)
    decreases |extras|
  {
    if extras != [] {
      AnchoredIsGathered(extras[1..]);
    }
  }

  lemma RelistedAnchored(p: seq<Middleware>, extras: seq<Middleware>)
    requires multiset(p) == multiset(extras)
    ensures Listing(AnchoredOf(p), AnchoredOf(extras))
  {
    AnchoredIsGathered(p);
    AnchoredIsGathered(extras);
    GatherPermuted(RequestsOf, p, extras);
  }

  lemma {:induction false} AnchorIn(extras: seq<Middleware>, c: ClassId)
    ensures c in Gather(AnchorsOf, extras)
       <==> exists i :: 0 <= i < |extras| && IsAnchored(extras[i]) && Request(extras[i]).anchor == c
    decreases |extras|
  {
    if extras != [] {
      AnchorIn(extras[1..], c);
      if i :| 0 <= i < |extras| && IsAnchored(extras[i]) && Request(extras[i]).anchor == c {
        assert i > 0 ==> extras[i] == extras[1..][i-1];
      }
      if i :| 0 <= i < |extras[1..]| && IsAnchored(extras[1..][i]) && Request(extras[1..][i]).anchor == c {
        assert extras[i+1] == extras[1..][i];
      }
    }
  }

  lemma CompatibleCons(extras: seq<Middleware>)
    requires extras != []
    ensures Compatible(extras)
       <==> !WantsBoth(extras[0]) && Compatible(extras[1..])
            && (IsAnchored(extras[0]) ==> Request(extras[0]).anchor !in Gather(AnchorsOf, extras[1..]))
  {
    var m, rest := extras[0], extras[1..];
    assert forall i :: 0 <= i < |rest| ==> rest[i] == extras[i+1];
    if IsAnchored(m) {
      AnchorIn(rest, Request(m).anchor);
    }
    hide Gather, WantsBoth;
    if !WantsBoth(m) && Compatible(rest) && (IsAnchored(m) ==> Request(m).anchor !in Gather(AnchorsOf, rest)) {
      forall i, j | 0 <= i < j < |extras| && IsAnchored(extras[i]) && IsAnchored(extras[j])
        ensures Request(extras[i]).anchor != Request(extras[j]).anchor
      {
        assert extras[j] == rest[j-1] && (i > 0 ==> extras[i] == rest[i-1]);
      }
    }
  }

  lemma DistinctCons<T(!new)>(x: T, s: seq<T>)
    ensures Distinct([x] + s) <==> x !in s && Distinct(s)
  {
    var all := [x] + s;
    if Distinct(all) {
      forall i | 0 <= i < |s| ensures s[i] != x {
        assert all[i+1] == s[i] && all[0] == x;
      }
      forall i, j | 0 <= i < j < |s| ensures s[i] != s[j] {
        assert all[i+1] == s[i] && all[j+1] == s[j];
      }
    }
    if x !in s && Distinct(s) {
      forall i, j | 0 <= i < j < |all| ensures all[i] != all[j] {
        assert all[j] == s[j-1] && (i > 0 ==> all[i] == s[i-1]);
      }
    }
  }

  // Compatible extras are those that ask for one side and for different classes.
  lemma {:induction false} CompatibleExactly(extras: seq<Middleware>)
    ensures Compatible(extras) <==> (forall m :: m in extras ==> !WantsBoth(m)) && Distinct(Gather(AnchorsOf, extras))
    decreases |extras|
  {
    if extras != [] {
      CompatibleCons(extras);
      CompatibleExactly(extras[1..]);
      if IsAnchored(extras[0]) {
        DistinctCons(Request(extras[0]).anchor, Gather(AnchorsOf, extras[1..]));
      } else {
        assert [] + Gather(AnchorsOf, extras[1..]) == Gather(AnchorsOf, extras[1..]);
      }
      assert forall m :: m in extras <==> m == extras[0] || m in extras[1..];
      hide Compatible, WantsBoth, Distinct;
    }
  }

  lemma RelistedCompatible(p: seq<Middleware>, extras: seq<Middleware>)
    requires multiset(p) == multiset(extras)
    ensures Compatible(p) <==> Compatible(extras)
  {
    CompatibleExactly(p);
    CompatibleExactly(extras);
    GatherPermuted(AnchorsOf, p, extras);
    DistinctMultiset(Gather(AnchorsOf, p));
    DistinctMultiset(Gather(AnchorsOf, extras));
    assert forall m :: m in p <==> m in multiset(p);
    assert forall m :: m in extras <==> m in multiset(extras);
    hide Compatible, Distinct;
  }

  lemma {:induction false} CompatibleDistinct(extras: seq<Middleware>)
    requires Compatible(extras)
    ensures Distinct(AnchoredOf(extras))
    decreases |extras|
  {
    if extras != [] {
      CompatibleCons(extras);
      CompatibleDistinct(extras[1..]);
      if IsAnchored(extras[0]) {
        AnchorOfRequest(extras[1..], Request(extras[0]));
        DistinctCons(Request(extras[0]), AnchoredOf(extras[1..]));
      }
      hide Compatible, Distinct;
    }
  }

  lemma {:induction false} AnchorOfRequest(extras: seq<Middleware>, x: Anchored)
    ensures x in AnchoredOf(extras) ==> x.anchor in Gather(AnchorsOf, extras)
    decreases |extras|
  {
    if extras != [] {
      AnchorOfRequest(extras[1..], x);
    }
  }

  // --- a listing with given requests ---

  lemma {:induction false} RequestsSource(extras: seq<Middleware>, x: Anchored)
    requires x in AnchoredOf(extras)
    ensures IsAnchored(x.mw) && Request(x.mw) == x
    decreases |extras|
  {
    if !(IsAnchored(extras[0]) && x == Request(extras[0])) {
      RequestsSource(extras[1..], x);
    }
  }

  lemma {:induction false} UnanchoredSource(extras: seq<Middleware>, m: Middleware)
    requires m in UnanchoredOf(extras)
    ensures !IsAnchored(m)
    decreases |extras|
  {
    if IsAnchored(extras[0]) || m != extras[0] {
      UnanchoredSource(extras[1..], m);
    }
  }

  lemma {:induction false} OnlyUnanchored(free: seq<Middleware>, more: seq<Middleware>)
    requires forall m :: m in free ==> !IsAnchored(m)
    ensures AnchoredOf(free + more) == AnchoredOf(more) && UnanchoredOf(free + more) == free + UnanchoredOf(more)
    decreases |free|
  {
    if free == [] {
      assert free + more == more;
    } else {
      hide IsAnchored, Request;
      var all := free + more;
      assert all[0] == free[0] && all[1..] == free[1..] + more;
      OnlyUnanchored(free[1..], more);
      assert AnchoredOf(all) == AnchoredOf(all[1..]) && UnanchoredOf(all) == [free[0]] + UnanchoredOf(all[1..]);
      hide AnchoredOf, UnanchoredOf;
    }
  }

  lemma {:induction false} OnlyAnchored(xs: seq<Anchored>)
    requires forall x :: x in xs ==> IsAnchored(x.mw) && Request(x.mw) == x
    ensures AnchoredOf(MiddlewaresOf(xs)) == xs && UnanchoredOf(MiddlewaresOf(xs)) == []
    decreases |xs|
  {
    if xs != [] {
      assert MiddlewaresOf(xs)[1..] == MiddlewaresOf(xs[1..]);
      OnlyAnchored(xs[1..]);
    }
  }

  // Every order of the requests comes from a relisting of the extras.
  lemma ListingIsRelisting(q: seq<Anchored>, extras: seq<Middleware>) returns (p: seq<Middleware>)
    requires Listing(q, AnchoredOf(extras))
    ensures Relisting(p, extras) && AnchoredOf(p) == q
  {
    var free := UnanchoredOf(extras);
    p := free + MiddlewaresOf(q);
    forall x | x in q ensures IsAnchored(x.mw) && Request(x.mw) == x {
      assert x in multiset(q);
      RequestsSource(extras, x);
    }
    forall m | m in free ensures !IsAnchored(m) {
      UnanchoredSource(extras, m);
    }
    OnlyAnchored(q);
    OnlyUnanchored(free, MiddlewaresOf(q));
    assert free + [] == free;
    SplitContents(p);
    SplitContents(extras);
    SameMiddlewares(q, AnchoredOf(extras));
  }

  lemma {:induction false} SameMiddlewares(q: seq<Anchored>, r: seq<Anchored>)
    requires Listing(q, r)
    ensures multiset(MiddlewaresOf(q)) == multiset(MiddlewaresOf(r))
  {
    MiddlewaresGathered(q);
    MiddlewaresGathered(r);
    GatherPermuted(MiddlewareIn, q, r);
  }

  function MiddlewareIn(x: Anchored): seq<Middleware> {
    [x.mw]
  }

  lemma {:induction false} MiddlewaresGathered(xs: seq<Anchored>)
    ensures MiddlewaresOf(xs) == Gather(MiddlewareIn, xs)
    decreases |xs|
  {
    if xs != [] {
      assert MiddlewaresOf(xs) == [xs[0].mw] + MiddlewaresOf(xs[1..]);
      MiddlewaresGathered(xs[1..]);
    }
  }

  // --- insertion as a whole ---

  ghost predicate SameInsertion(chain: seq<Middleware>, extras: seq<Middleware>)
    requires Compatible(extras) && HasMatch(chain, CLARIFICATION)
  {
    forall p :: Relisting(p, extras) ==> Compatible(p) && Insertion(chain, p) == Insertion(chain, extras)
  }

  // The chain with the unanchored extras, and the anchored ones: everything matches
  // are looked for in.
  ghost predicate Plain(chain: seq<Middleware>, extras: seq<Middleware>)
    requires HasMatch(chain, CLARIFICATION)
  {
    Unambiguous(WithUnanchored(chain, UnanchoredOf(extras)), Elements(AnchoredOf(extras)))
  }

  ghost predicate NoRivals(chain: seq<Middleware>, extras: seq<Middleware>)
    requires HasMatch(chain, CLARIFICATION)
  {
    var xs := Elements(AnchoredOf(extras));
    OnePerSide(Elements(WithUnanchored(chain, UnanchoredOf(extras))) + Objects(xs), xs)
  }

  // With unique matches, any relisting of the extras gives the same chain if and only
  // if no element has two extras on one side.
  lemma InsertionOrderExactly(chain: seq<Middleware>, extras: seq<Middleware>)
    requires Compatible(extras) && HasMatch(chain, CLARIFICATION) && Plain(chain, extras)
    requires Insertion(chain, extras).Success?
    ensures SameInsertion(chain, extras) <==> NoRivals(chain, extras)
  {
    hide Unambiguous, OnePerSide, Compatible, HasMatch, Rounds, AnchoredOf, UnanchoredOf;
    var base, pending := WithUnanchored(chain, UnanchoredOf(extras)), AnchoredOf(extras);
    CompatibleDistinct(extras);
    OrderInsensitiveExactly(base, pending);
    if OrderInsensitive(base, pending) {
      forall p | Relisting(p, extras) ensures Compatible(p) && Insertion(chain, p) == Insertion(chain, extras) {
        RelistedCompatible(p, extras);
        RelistedAnchored(p, extras);
      }
    }
    if SameInsertion(chain, extras) {
      forall q | Listing(q, pending) ensures Rounds(base, q) == Rounds(base, pending) {
        var p := ListingIsRelisting(q, extras);
        assert Insertion(chain, p) == Insertion(chain, extras);
      }
    }
  }

  // And if none has, that chain is the layout: every element replaced by its block.
  lemma InsertionBuildsLayout(chain: seq<Middleware>, extras: seq<Middleware>)
    requires Compatible(extras) && HasMatch(chain, CLARIFICATION) && Plain(chain, extras) && NoRivals(chain, extras)
    requires Insertion(chain, extras).Success?
    ensures Insertion(chain, extras).value
         == Layout(WithUnanchored(chain, UnanchoredOf(extras)), Elements(AnchoredOf(extras)))
  {
    hide Unambiguous, OnePerSide, Compatible, HasMatch, Rounds, AnchoredOf, UnanchoredOf, Layout;
    CompatibleDistinct(extras);
    RoundsBuildLayout(WithUnanchored(chain, UnanchoredOf(extras)), AnchoredOf(extras));
  }

  // --- the assembled chain ---

  lemma BuiltinsMatch(f: Features, planMode: bool)
    ensures HasMatch(Builtins(f, planMode), CLARIFICATION)
    ensures Builtins(f, planMode) == Leading(f, planMode) + [Builtin(CLARIFICATION)]
  {
    BuiltinsEnd(f, planMode);
    EndsMatch(Leading(f, planMode), Builtin(CLARIFICATION));
  }

  ghost predicate SameAssembly(f: Features, planMode: bool, extras: seq<Middleware>) {
    forall p :: Relisting(p, extras) ==> Assembled(f, planMode, p) == Assembled(f, planMode, extras)
  }

  ghost predicate PlainAssembly(f: Features, planMode: bool, extras: seq<Middleware>) {
    BuiltinsMatch(f, planMode);
    Plain(Builtins(f, planMode), extras)
  }

  ghost predicate AssemblyHasNoRivals(f: Features, planMode: bool, extras: seq<Middleware>) {
    BuiltinsMatch(f, planMode);
    NoRivals(Builtins(f, planMode), extras)
  }

  // The chain that is repaired at the end.
  lemma AssembledFrom(f: Features, planMode: bool, extras: seq<Middleware>)
    requires !Rejected(f) && Compatible(extras) && extras != []
    ensures HasMatch(Builtins(f, planMode), CLARIFICATION)
    ensures var i := Insertion(Builtins(f, planMode), extras);
            && (i.Success? ==> HasMatch(i.value, CLARIFICATION))
            && Assembled(f, planMode, extras) == if i.Success? then Some(RepairTail(i.value)) else None
  {
    BuiltinsMatch(f, planMode);
    var b := Builtins(f, planMode);
    if Insertion(b, extras).Success? {
      InsertionKeepsMatch(b, extras, CLARIFICATION);
    }
    hide Insertion, RepairTail, Compatible, HasMatch;
  }

  lemma RepairKeepsReading(x: Anchored, y: Anchored, s: seq<Middleware>)
    requires HasMatch(s, CLARIFICATION) && Distinct(s) && Subseq(Reading(x, y), s)
    requires !IsInstance(x.mw, CLARIFICATION) && !IsInstance(y.mw, CLARIFICATION)
    ensures Distinct(RepairTail(s)) && Subseq(Reading(x, y), RepairTail(s))
  {
    assert IsInstance(Moved(s), CLARIFICATION);
    RepairKeeps(Reading(x, y), s);
    RepairTailContents(s);
    DistinctMultiset(s);
    DistinctMultiset(RepairTail(s));
  }

  // Two listings of the extras that lead to different chains.
  lemma RivalsDecide(f: Features, planMode: bool, extras: seq<Middleware>) returns (p: seq<Middleware>, q: seq<Middleware>)
    requires Assembled(f, planMode, extras).Some? && extras != [] && NoClarificationIn(extras)
    requires PlainAssembly(f, planMode, extras) && !AssemblyHasNoRivals(f, planMode, extras)
    ensures Relisting(p, extras) && Relisting(q, extras)
    ensures Assembled(f, planMode, p) != Assembled(f, planMode, q)
  {
    hide Unambiguous, OnePerSide, Compatible, HasMatch, Rounds, AnchoredOf, UnanchoredOf, Rivals, RepairTail, Relisting;
    BuiltinsMatch(f, planMode);
    var base, pending := WithUnanchored(Builtins(f, planMode), UnanchoredOf(extras)), AnchoredOf(extras);
    var xs := Elements(pending);
    AssembledFrom(f, planMode, extras);
    CompatibleDistinct(extras);
    var x, y, e := FindRivals(Elements(base) + Objects(xs), base, xs);
    var rest := WithoutPair(pending, x, y);
    RivalsSwap(base, pending, rest, x, y, e);
    p := ListingIsRelisting(rest + [x, y], extras);
    q := ListingIsRelisting(rest + [y, x], extras);
    Relisted(f, planMode, p, extras);
    Relisted(f, planMode, q, extras);
    RivalsAreExtras(extras, x, y, e, Elements(base) + Objects(xs));
    hide NoClarificationIn, Subseq, Distinct, Reading;
    var s, t := Rounds(base, rest + [x, y]).value, Rounds(base, rest + [y, x]).value;
    RepairKeepsReading(x, y, s);
    RepairKeepsReading(y, x, t);
    OppositeReadings(x, y, RepairTail(s), RepairTail(t));
  }

  lemma Relisted(f: Features, planMode: bool, p: seq<Middleware>, extras: seq<Middleware>)
    requires Relisting(p, extras) && Compatible(extras) && extras != [] && !Rejected(f)
    ensures HasMatch(Builtins(f, planMode), CLARIFICATION) && UnanchoredOf(p) == UnanchoredOf(extras)
    ensures var r := Rounds(WithUnanchored(Builtins(f, planMode), UnanchoredOf(extras)), AnchoredOf(p));
            && (r.Success? ==> HasMatch(r.value, CLARIFICATION))
            && Assembled(f, planMode, p) == if r.Success? then Some(RepairTail(r.value)) else None
  {
    RelistedCompatible(p, extras);
    assert p != [] by {
      assert |multiset(p)| == |multiset(extras)|;
    }
    hide Compatible, HasMatch, Rounds, AnchoredOf, UnanchoredOf, RepairTail, Assembled;
    AssembledFrom(f, planMode, p);
  }

  lemma RivalsAreExtras(extras: seq<Middleware>, x: Anchored, y: Anchored, e: Middleware, all: set<Middleware>)
    requires x in AnchoredOf(extras) && y in AnchoredOf(extras) && Rivals(all, x, y, e) && NoClarificationIn(extras)
    ensures !IsInstance(x.mw, CLARIFICATION) && !IsInstance(y.mw, CLARIFICATION)
    ensures x.side == y.side && x.mw != y.mw
  {
    AnchoredIsExtra(extras);
  }

  // With unique matches and no clarification middleware among the extras, the
  // assembled chain is the same however the extras are listed, if and only if no
  // element has two extras on one side.
  lemma AssemblyOrderExactly(f: Features, planMode: bool, extras: seq<Middleware>)
    requires Assembled(f, planMode, extras).Some? && NoClarificationIn(extras) && PlainAssembly(f, planMode, extras)
    ensures SameAssembly(f, planMode, extras) <==> AssemblyHasNoRivals(f, planMode, extras)
  {
    if extras == [] {
      assert forall p: seq<Middleware> :: multiset(p) == multiset(extras) ==> |p| == 0;
    } else if AssemblyHasNoRivals(f, planMode, extras) {
      hide Unambiguous, OnePerSide, Compatible, HasMatch, Rounds, AnchoredOf, UnanchoredOf, RepairTail, Relisting;
      AssembledFrom(f, planMode, extras);
      InsertionOrderExactly(Builtins(f, planMode), extras);
      forall p | Relisting(p, extras) ensures Assembled(f, planMode, p) == Assembled(f, planMode, extras) {
        Relisted(f, planMode, p, extras);
        Relisted(f, planMode, extras, extras) by {
          RelistingIsReflexive(extras);
        }
        assert Insertion(Builtins(f, planMode), p) == Insertion(Builtins(f, planMode), extras);
      }
    } else {
      var p, q := RivalsDecide(f, planMode, extras);
    }
  }

  // The chain is then the layout of the built-ins, with its tail repaired.
  lemma AssemblyBuildsLayout(f: Features, planMode: bool, extras: seq<Middleware>)
    requires Assembled(f, planMode, extras).Some? && extras != []
    requires PlainAssembly(f, planMode, extras) && AssemblyHasNoRivals(f, planMode, extras)
    ensures HasMatch(Builtins(f, planMode), CLARIFICATION)
    ensures var s := Layout(WithUnanchored(Builtins(f, planMode), UnanchoredOf(extras)), Elements(AnchoredOf(extras)));
            HasMatch(s, CLARIFICATION) && Assembled(f, planMode, extras) == Some(RepairTail(s))
  {
    hide Plain, NoRivals, Compatible, HasMatch, Insertion, AnchoredOf, UnanchoredOf, RepairTail, Layout;
    AssembledFrom(f, planMode, extras);
    InsertionBuildsLayout(Builtins(f, planMode), extras);
  }

  lemma RelistingIsReflexive(extras: seq<Middleware>)
    ensures Relisting(extras, extras)
  {}

  // --- an input on which the order decides ---

  // A custom sandbox of class C, which inherits from class B, and extras anchored
  // after C and after B.
  const SANDBOX_C := Middleware(Class(20, {AGENT_MIDDLEWARE, 21}, None, None), 1)
  const AFTER_C := Middleware(Class(22, {AGENT_MIDDLEWARE}, Some(20), None), 2)
  const AFTER_B := Middleware(Class(23, {AGENT_MIDDLEWARE}, Some(21), None), 3)

  function OnlySandbox(m: Middleware): Features {
    Features(Custom(m), Off, Off, Off, Off, Off, Off, Off)
  }

  ghost function Behind(first: seq<Middleware>): seq<Middleware> {
    [SANDBOX_C] + first + [Builtin(DANGLING_TOOL_CALL), Builtin(TOOL_ERROR_HANDLING), Builtin(CLARIFICATION)]
  }

  lemma EmptySlot(n: nat, m: Middleware)
    requires n < |DOCUMENTED_ORDER| && SlotContent(DOCUMENTED_ORDER[n], OnlySandbox(m), false) == []
    ensures InSlots(n + 1, OnlySandbox(m), false) == InSlots(n, OnlySandbox(m), false)
  {
    NextSlot(n, OnlySandbox(m), false);
    hide InSlots, SlotContent;
    assert InSlots(n, OnlySandbox(m), false) + [] == InSlots(n, OnlySandbox(m), false);
  }

  lemma FirstSlots(m: Middleware)
    ensures InSlots(4, OnlySandbox(m), false) == [m, Builtin(DANGLING_TOOL_CALL), Builtin(TOOL_ERROR_HANDLING)]
  {
    NextSlot(0, OnlySandbox(m), false);
    NextSlot(1, OnlySandbox(m), false);
    EmptySlot(2, m);
    NextSlot(3, OnlySandbox(m), false);
    assert InSlots(0, OnlySandbox(m), false) == [];
    hide InSlots;
  }

  lemma SandboxBuiltins(m: Middleware)
    ensures Leading(OnlySandbox(m), false) == [m, Builtin(DANGLING_TOOL_CALL), Builtin(TOOL_ERROR_HANDLING)]
    ensures Builtins(OnlySandbox(m), false)
         == [m, Builtin(DANGLING_TOOL_CALL), Builtin(TOOL_ERROR_HANDLING), Builtin(CLARIFICATION)]
  {
    FirstSlots(m);
    hide InSlots;
    EmptySlot(4, m);
    EmptySlot(5, m);
    EmptySlot(6, m);
    EmptySlot(7, m);
    EmptySlot(8, m);
    EmptySlot(9, m);
    EmptySlot(10, m);
    NextSlot(11, OnlySandbox(m), false);
  }

  // An extra that matches the sandbox is placed right behind it.
  lemma PlacedBehind(first: seq<Middleware>, x: Anchored)
    requires IsInstance(SANDBOX_C, x.anchor) && x.side == After
    ensures HasMatch(Behind(first), x.anchor) && Place(Behind(first), x) == Behind([x.mw] + first)
  {
    var s := Behind(first);
    assert s[0] == SANDBOX_C;
    assert FirstMatch(s, x.anchor) == 0;
    assert s[..1] == [SANDBOX_C];
  }

  lemma TwoAnchored(x: Middleware, y: Middleware)
    requires IsAnchored(x) && IsAnchored(y)
    ensures AnchoredOf([x, y]) == [Request(x), Request(y)] && UnanchoredOf([x, y]) == []
  {
    assert [x, y][1..] == [y] && [y][1..] == [];
    assert AnchoredOf([]) == [] && UnanchoredOf([]) == [];
    assert AnchoredOf([y]) == [Request(y)] && UnanchoredOf([y]) == [];
  }

  ghost predicate BothOrders(x: Middleware, y: Middleware) {
    (x == AFTER_C && y == AFTER_B) || (x == AFTER_B && y == AFTER_C)
  }

  lemma RoundsBehind(x: Middleware, y: Middleware)
    requires BothOrders(x, y)
    ensures Rounds(Behind([]), [Request(x), Request(y)]) == Success(Behind([y, x]))
  {
    var chain, a, b := Behind([]), Request(x), Request(y);
    PlacedBehind([], a);
    assert [x] + [] == [x] && [y] + [x] == [y, x];
    PlacedBehind([x], b);
    hide Behind, HasMatch, Place;
    RoundBoth(chain, a, b);
    hide Round;
    assert Rounds(Behind([y, x]), []) == Success(Behind([y, x]));
  }

  lemma NothingBehind()
    ensures Behind([]) == [SANDBOX_C, Builtin(DANGLING_TOOL_CALL), Builtin(TOOL_ERROR_HANDLING), Builtin(CLARIFICATION)]
  {}

  lemma PairCompatible(x: Middleware, y: Middleware)
    requires BothOrders(x, y)
    ensures Compatible([x, y])
  {}

  lemma NothingUnanchored(chain: seq<Middleware>)
    requires HasMatch(chain, CLARIFICATION)
    ensures WithUnanchored(chain, []) == chain
  {}

  lemma BothBehind(x: Middleware, y: Middleware)
    requires BothOrders(x, y)
    ensures Compatible([x, y]) && Assembled(OnlySandbox(SANDBOX_C), false, [x, y]) == Some(Behind([y, x]))
  {
    hide AnchoredOf, UnanchoredOf, Rounds, Behind, Builtins, RepairTail, HasMatch, Compatible, Assembled, WithUnanchored;
    TwoAnchored(x, y);
    PairCompatible(x, y);
    SandboxBuiltins(SANDBOX_C);
    NothingBehind();
    BuiltinsMatch(OnlySandbox(SANDBOX_C), false);
    RoundsBehind(x, y);
    EndRepaired([y, x]);
    AssembledFrom(OnlySandbox(SANDBOX_C), false, [x, y]);
    NothingUnanchored(Behind([]));
  }

  lemma EndRepaired(first: seq<Middleware>)
    requires forall m :: m in first ==> !IsInstance(m, CLARIFICATION)
    ensures HasMatch(Behind(first), CLARIFICATION) && RepairTail(Behind(first)) == Behind(first)
  {
    var s := Behind(first);
    var n := |s| - 1;
    assert s[n] == Builtin(CLARIFICATION);
    assert forall k :: 1 <= k < 1 + |first| ==> s[k] == first[k-1];
    assert forall k :: 0 <= k < n ==> !IsInstance(s[k], CLARIFICATION);
    assert FirstMatch(s, CLARIFICATION) == n;
  }

  lemma UniqueBehind()
    ensures Unambiguous(Behind([]), {Request(AFTER_C), Request(AFTER_B)})
  {
    NothingBehind();
  }

  lemma PlainBehind()
    ensures PlainAssembly(OnlySandbox(SANDBOX_C), false, [AFTER_C, AFTER_B])
  {
    hide Unambiguous, AnchoredOf, UnanchoredOf, Builtins, Behind, HasMatch, WithUnanchored;
    BuiltinsMatch(OnlySandbox(SANDBOX_C), false);
    SandboxBuiltins(SANDBOX_C);
    NothingBehind();
    NothingUnanchored(Behind([]));
    TwoAnchored(AFTER_C, AFTER_B);
    assert Elements([Request(AFTER_C), Request(AFTER_B)]) == {Request(AFTER_C), Request(AFTER_B)};
    UniqueBehind();
  }

  lemma PairRelisted(x: Middleware, y: Middleware)
    requires IsAnchored(x) && IsAnchored(y)
    ensures Relisting([y, x], [x, y])
  {
    hide AnchoredOf, UnanchoredOf;
    TwoAnchored(x, y);
    TwoAnchored(y, x);
    assert multiset([y, x]) == multiset{x, y} == multiset([x, y]);
  }

  lemma OrdersDiffer()
    ensures Behind([AFTER_B, AFTER_C]) != Behind([AFTER_C, AFTER_B])
  {
    assert Behind([AFTER_B, AFTER_C])[1] == AFTER_B && Behind([AFTER_C, AFTER_B])[1] == AFTER_C;
  }

  // Two extras with unique matches that the assembly accepts in either order, with
  // different chains.
  lemma OrderCanMatter()
    ensures Compatible([AFTER_C, AFTER_B]) && Compatible([AFTER_B, AFTER_C])
    ensures Relisting([AFTER_B, AFTER_C], [AFTER_C, AFTER_B])
    ensures PlainAssembly(OnlySandbox(SANDBOX_C), false, [AFTER_C, AFTER_B])
    ensures Assembled(OnlySandbox(SANDBOX_C), false, [AFTER_C, AFTER_B]).Some?
    ensures Assembled(OnlySandbox(SANDBOX_C), false, [AFTER_B, AFTER_C]).Some?
    ensures Assembled(OnlySandbox(SANDBOX_C), false, [AFTER_C, AFTER_B]) != Assembled(OnlySandbox(SANDBOX_C), false, [AFTER_B, AFTER_C])
  {
    hide PlainAssembly, Assembled, Compatible, Relisting, Behind;
    BothBehind(AFTER_C, AFTER_B);
    BothBehind(AFTER_B, AFTER_C);
    PairRelisted(AFTER_C, AFTER_B);
    PlainBehind();
    OrdersDiffer();
  }

  // --- an input on which the documented order is not kept ---

  // A custom sandbox that is itself a clarification middleware, and one extra.
  const ASKING_SANDBOX := Middleware(Class(24, {AGENT_MIDDLEWARE, CLARIFICATION}, None, None), 1)
  const PLAIN_EXTRA := Middleware(Class(25, {AGENT_MIDDLEWARE}, None, None), 2)

  lemma OnePlainExtra()
    ensures Compatible([PLAIN_EXTRA]) && AnchoredOf([PLAIN_EXTRA]) == [] && UnanchoredOf([PLAIN_EXTRA]) == [PLAIN_EXTRA]
  {
    assert [PLAIN_EXTRA][1..] == [] && AnchoredOf([]) == [] && UnanchoredOf([]) == [];
  }

  ghost function Asking(): seq<Middleware> {
    [ASKING_SANDBOX, Builtin(DANGLING_TOOL_CALL), Builtin(TOOL_ERROR_HANDLING), Builtin(CLARIFICATION)]
  }

  lemma AskingInserted()
    ensures HasMatch(Asking(), CLARIFICATION) && WithUnanchored(Asking(), [PLAIN_EXTRA]) == [PLAIN_EXTRA] + Asking()
    ensures HasMatch([PLAIN_EXTRA] + Asking(), CLARIFICATION)
    ensures RepairTail([PLAIN_EXTRA] + Asking()) == [PLAIN_EXTRA] + Asking()[1..] + [ASKING_SANDBOX]
  {
    assert IsInstance(Asking()[0], CLARIFICATION) && FirstMatch(Asking(), CLARIFICATION) == 0;
    var t := [PLAIN_EXTRA] + Asking();
    assert t[0] == PLAIN_EXTRA && t[1] == ASKING_SANDBOX && !IsInstance(t[0], CLARIFICATION);
    assert FirstMatch(t, CLARIFICATION) == 1;
  }

  lemma AskingBuiltins()
    ensures Builtins(OnlySandbox(ASKING_SANDBOX), false) == Asking()
    ensures Leading(OnlySandbox(ASKING_SANDBOX), false)
         == [ASKING_SANDBOX, Builtin(DANGLING_TOOL_CALL), Builtin(TOOL_ERROR_HANDLING)]
  {
    hide Builtins, Leading;
    SandboxBuiltins(ASKING_SANDBOX);
  }

  lemma AskingAssembled()
    ensures Assembled(OnlySandbox(ASKING_SANDBOX), false, [PLAIN_EXTRA])
         == Some([PLAIN_EXTRA] + Asking()[1..] + [ASKING_SANDBOX])
  {
    hide Builtins, AnchoredOf, UnanchoredOf, Asking, RepairTail, HasMatch, Compatible, Assembled, WithUnanchored;
    AskingBuiltins();
    OnePlainExtra();
    AskingInserted();
    AssembledFrom(OnlySandbox(ASKING_SANDBOX), false, [PLAIN_EXTRA]);
  }

  lemma AskingLeads()
    ensures !NoClarificationIn(Leading(OnlySandbox(ASKING_SANDBOX), false)) && NoClarificationIn([PLAIN_EXTRA])
    ensures Distinct(Asking())
  {
    hide Leading;
    AskingBuiltins();
    assert ASKING_SANDBOX in Leading(OnlySandbox(ASKING_SANDBOX), false) && IsInstance(ASKING_SANDBOX, CLARIFICATION);
  }

  // The sandbox comes first among the built-ins, and ends up behind everything.
  lemma OrderCanBreak()
    ensures Builtins(OnlySandbox(ASKING_SANDBOX), false) == Asking()
    ensures Assembled(OnlySandbox(ASKING_SANDBOX), false, [PLAIN_EXTRA])
         == Some([PLAIN_EXTRA] + Asking()[1..] + [ASKING_SANDBOX])
    ensures !Subseq(Asking(), [PLAIN_EXTRA] + Asking()[1..] + [ASKING_SANDBOX])
  {
    hide Builtins, Leading, Asking, Assembled, NoClarificationIn, Subseq, Distinct;
    AskingBuiltins();
    AskingAssembled();
    AskingLeads();
    OrderKeptExactly(OnlySandbox(ASKING_SANDBOX), false, [PLAIN_EXTRA]);
  }
}
