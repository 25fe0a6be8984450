// The whole chain of an agent: built-ins in their documented order, extras
// inserted around them, clarification moved to the end.
module MiddlewareAssembly {
  import opened Wrappers
  import opened Sequences
  import opened MiddlewareChain
  import opened MiddlewareLayout

  datatype Feature = Off | Default | Custom(mw: Middleware)

  datatype Features = Features(sandbox: Feature, memory: Feature, summarization: Feature, subagent: Feature,
                               vision: Feature, autoTitle: Feature, guardrail: Feature, loopDetection: Feature)

  // Base class of every middleware.
  const AGENT_MIDDLEWARE: ClassId := 12

  function Builtin(id: ClassId): Middleware {
    Middleware(Class(id, {AGENT_MIDDLEWARE}, None, None), 0)
  }

  // --- the documented order, slot by slot ---

  datatype Slot =
    | SandboxInfrastructure | DanglingToolCall | Guardrail | ToolErrorHandling | Summarization | Todo
    | AutoTitle | Memory | Vision | Subagent | LoopDetection | Clarification

  const DOCUMENTED_ORDER: seq<Slot> :=
    [SandboxInfrastructure, DanglingToolCall, Guardrail, ToolErrorHandling, Summarization, Todo,
     AutoTitle, Memory, Vision, Subagent, LoopDetection, Clarification]

  function FeatureSlot(f: Feature, builtins: seq<Middleware>): seq<Middleware> {
    match f
    case Off => []
    case Default => builtins
    case Custom(mw) => [mw]
  }

  // What a slot contributes; the two features without a built-in contribute
  // nothing when merely switched on, which assembly rejects beforehand.
  function SlotContent(slot: Slot, f: Features, planMode: bool): seq<Middleware> {
    match slot
    case SandboxInfrastructure => FeatureSlot(f.sandbox, [Builtin(THREAD_DATA), Builtin(UPLOADS), Builtin(SANDBOX)])
    case DanglingToolCall => [Builtin(DANGLING_TOOL_CALL)]
    case Guardrail => FeatureSlot(f.guardrail, [])
    case ToolErrorHandling => [Builtin(TOOL_ERROR_HANDLING)]
    case Summarization => FeatureSlot(f.summarization, [])
    case Todo => if planMode then [Builtin(TODO)] else []
    case AutoTitle => FeatureSlot(f.autoTitle, [Builtin(TITLE)])
    case Memory => FeatureSlot(f.memory, [Builtin(MEMORY)])
    case Vision => FeatureSlot(f.vision, [Builtin(VIEW_IMAGE)])
    case Subagent => FeatureSlot(f.subagent, [Builtin(SUBAGENT_LIMIT)])
    case LoopDetection => FeatureSlot(f.loopDetection, [Builtin(LOOP_DETECTION)])
    case Clarification => [Builtin(CLARIFICATION)]
  }

  // What the first n documented slots contribute, in order.
  function InSlots(n: nat, f: Features, planMode: bool): seq<Middleware>
    requires n <= |DOCUMENTED_ORDER|
  {
    if n == 0 then [] else InSlots(n - 1, f, planMode) + SlotContent(DOCUMENTED_ORDER[n-1], f, planMode)
  }

  function Builtins(f: Features, planMode: bool): seq<Middleware> {
    InSlots(|DOCUMENTED_ORDER|, f, planMode)
  }

  function RepairTail(s: seq<Middleware>): seq<Middleware>
    requires HasMatch(s, CLARIFICATION)
  {
    var k := FirstMatch(s, CLARIFICATION);
    s[..k] + s[k+1..] + [s[k]]
  }

  ghost predicate Rejected(f: Features) {
    f.guardrail == Default || f.summarization == Default
  }

  lemma NextSlot(n: nat, f: Features, planMode: bool)
    requires n < |DOCUMENTED_ORDER|
    ensures InSlots(n + 1, f, planMode) == InSlots(n, f, planMode) + SlotContent(DOCUMENTED_ORDER[n], f, planMode)
  {}

  // A feature with a built-in default fills slot n.
  method AppendFeature(chain: Chain, feature: Feature, builtin: ClassId,
                       ghost n: nat, ghost f: Features, ghost planMode: bool)
    requires n < |DOCUMENTED_ORDER| && chain.items == InSlots(n, f, planMode)
    requires SlotContent(DOCUMENTED_ORDER[n], f, planMode) == FeatureSlot(feature, [Builtin(builtin)])
    modifies chain
    ensures chain.items == InSlots(n + 1, f, planMode)
  {
    NextSlot(n, f, planMode);
    match feature
    case Off =>
    case Default => chain.Append(Builtin(builtin));
    case Custom(mw) => chain.Append(mw);
  }

  // A feature without a built-in default: merely switched on, it is refused.
  method AppendCustom(chain: Chain, feature: Feature, name: string,
                      ghost n: nat, ghost f: Features, ghost planMode: bool) returns (r: Result<(), Error>)
    requires n < |DOCUMENTED_ORDER| && chain.items == InSlots(n, f, planMode)
    requires SlotContent(DOCUMENTED_ORDER[n], f, planMode) == FeatureSlot(feature, [])
    modifies chain
    ensures r == if feature == Default then Failure(NeedsCustomInstance(name)) else Success(())
    ensures r.Success? ==> chain.items == InSlots(n + 1, f, planMode)
  {
    NextSlot(n, f, planMode);
    match feature
    case Off => r := Success(());
    case Default => r := Failure(NeedsCustomInstance(name));
    case Custom(mw) => chain.Append(mw); r := Success(());
  }

  // A middleware that is always there.
  method AppendBuiltin(chain: Chain, builtin: ClassId, ghost n: nat, ghost f: Features, ghost planMode: bool)
    requires n < |DOCUMENTED_ORDER| && chain.items == InSlots(n, f, planMode)
    requires SlotContent(DOCUMENTED_ORDER[n], f, planMode) == [Builtin(builtin)]
    modifies chain
    ensures chain.items == InSlots(n + 1, f, planMode)
  {
    NextSlot(n, f, planMode);
    chain.Append(Builtin(builtin));
  }

  method AppendSandbox(chain: Chain, f: Features, ghost planMode: bool)
    requires chain.items == []
    modifies chain
    ensures chain.items == InSlots(1, f, planMode)
  {
    NextSlot(0, f, planMode);
    match f.sandbox
    case Off =>
    case Default =>
      chain.Append(Builtin(THREAD_DATA));
      chain.Append(Builtin(UPLOADS));
      chain.Append(Builtin(SANDBOX));
    case Custom(mw) => chain.Append(mw);
  }

  method AppendBuiltins(chain: Chain, f: Features, planMode: bool) returns (r: Result<(), Error>)
    requires chain.items == []
    modifies chain
    ensures r.Failure? <==> f.guardrail.Default? || f.summarization.Default?
    ensures r.Failure? ==> r.error == NeedsCustomInstance(if f.guardrail.Default? then "guardrail" else "summarization")
    ensures r.Success? ==> chain.items == Builtins(f, planMode)
  {
    AppendSandbox(chain, f, planMode);
    AppendBuiltin(chain, DANGLING_TOOL_CALL, 1, f, planMode);
    r := AppendCustom(chain, f.guardrail, "guardrail", 2, f, planMode);
    if r.Failure? {
      return;
    }
    AppendBuiltin(chain, TOOL_ERROR_HANDLING, 3, f, planMode);
    r := AppendCustom(chain, f.summarization, "summarization", 4, f, planMode);
    if r.Failure? {
      return;
    }
    AppendOptional(chain, f, planMode);
  }

  // The slots that can be switched on, and clarification.
  method AppendOptional(chain: Chain, f: Features, planMode: bool)
    requires chain.items == InSlots(5, f, planMode)
    modifies chain
    ensures chain.items == Builtins(f, planMode)
  {
    if planMode {
      AppendBuiltin(chain, TODO, 5, f, planMode);
    } else {
      NextSlot(5, f, planMode);
    }
    AppendFeature(chain, f.autoTitle, TITLE, 6, f, planMode);
    AppendFeature(chain, f.memory, MEMORY, 7, f, planMode);
    AppendFeature(chain, f.vision, VIEW_IMAGE, 8, f, planMode);
    AppendFeature(chain, f.subagent, SUBAGENT_LIMIT, 9, f, planMode);
    AppendFeature(chain, f.loopDetection, LOOP_DETECTION, 10, f, planMode);
    AppendBuiltin(chain, CLARIFICATION, 11, f, planMode);
  }

  // --- extras and tail, over any chain that ends with clarification ---

  lemma EndsMatch(lead: seq<Middleware>, last: Middleware)
    requires IsInstance(last, CLARIFICATION)
    ensures HasMatch(lead + [last], CLARIFICATION)
  {
    assert (lead + [last])[|lead|] == last;
  }

  lemma InsertionKeepsMatch(chain: seq<Middleware>, extras: seq<Middleware>, c: ClassId)
    requires Compatible(extras) && HasMatch(chain, CLARIFICATION) && Insertion(chain, extras).Success?
    requires HasMatch(chain, c)
    ensures HasMatch(Insertion(chain, extras).value, c)
  {
    ExtrasConserved(chain, extras);
    var m := chain[FirstMatch(chain, c)];
    var s := Insertion(chain, extras).value;
    assert m in multiset(s);
    var i :| 0 <= i < |s| && s[i] == m;
  }

  // The chain lead + [last] with the extras inserted and the tail repaired.
  ghost function Finished(lead: seq<Middleware>, last: Middleware, extras: seq<Middleware>): Option<seq<Middleware>>
    requires IsInstance(last, CLARIFICATION)
  {
    EndsMatch(lead, last);
    var b := lead + [last];
    if extras == [] then Some(b)
    else if !Compatible(extras) || Insertion(b, extras).Failure? then None
    else
      InsertionKeepsMatch(b, extras, CLARIFICATION);
      Some(RepairTail(Insertion(b, extras).value))
  }

  // Moves the first clarification middleware to the end.
  method MoveToEnd(chain: Chain)
    requires HasMatch(chain.items, CLARIFICATION)
    modifies chain
    ensures chain.items == RepairTail(old(chain.items))
  {
    ghost var t := chain.items;
    var at := FirstMatch(chain.items, CLARIFICATION);
    hide HasMatch, FirstMatch;
    if at != |chain.items| - 1 {
      var m := chain.Pop(at);
      chain.Append(m);
    } else {
      assert t[..at] + t[at+1..] + [t[at]] == t;
    }
  }

  method FinishChain(chain: Chain, extras: seq<Middleware>, ghost lead: seq<Middleware>, ghost last: Middleware)
    returns (r: Result<(), Error>)
    requires chain.items == lead + [last] && IsInstance(last, CLARIFICATION)
    modifies chain
    ensures r.Success? <==> Finished(lead, last, extras).Some?
    ensures r.Success? ==> chain.items == Finished(lead, last, extras).value
    ensures r.Failure? ==> !r.error.NeedsCustomInstance?
  {
    if extras == [] {
      return Success(());
    }
    EndsMatch(lead, last);
    hide Insertion, Compatible, HasMatch, RepairTail;
    ghost var b := chain.items;
    r := InsertExtra(chain, extras);
    if r.Failure? {
      if Compatible(extras) {
        InsertionErrors(b, extras);
      }
      return;
    }
    InsertionKeepsMatch(b, extras, CLARIFICATION);
    MoveToEnd(chain);
  }

  lemma InsertionErrors(chain: seq<Middleware>, extras: seq<Middleware>)
    requires Compatible(extras) && HasMatch(chain, CLARIFICATION) && Insertion(chain, extras).Failure?
    ensures Insertion(chain, extras).error.Circular? || Insertion(chain, extras).error.Unresolved?
  {
    CircularExactly(WithUnanchored(chain, UnanchoredOf(extras)), AnchoredOf(extras));
  }

  // The built-ins in front of clarification.
  ghost function Leading(f: Features, planMode: bool): seq<Middleware> {
    InSlots(|DOCUMENTED_ORDER| - 1, f, planMode)
  }

  lemma BuiltinsEnd(f: Features, planMode: bool)
    ensures Builtins(f, planMode) == Leading(f, planMode) + [Builtin(CLARIFICATION)]
  {
    NextSlot(|DOCUMENTED_ORDER| - 1, f, planMode);
  }

  // --- the documented chain, by its numbers 0 to 13 ---

  // A built-in of a class: nobody's anchor request comes with it.
  ghost predicate IsBuiltin(m: Middleware, c: ClassId) {
    m.cls.id == c && IsInstance(m, AGENT_MIDDLEWARE) && !IsAnchored(m)
  }

  ghost predicate Fills(feature: Feature, m: Middleware, c: ClassId) {
    if feature.Default? then IsBuiltin(m, c) else feature == Custom(m)
  }

  // m is what stands under number n; a custom sandbox takes the first of the three
  // numbers of the sandbox infrastructure.
  ghost predicate Listed(f: Features, planMode: bool, n: int, m: Middleware) {
    || (n == 0 && Fills(f.sandbox, m, THREAD_DATA))
    || (n == 1 && f.sandbox.Default? && IsBuiltin(m, UPLOADS))
    || (n == 2 && f.sandbox.Default? && IsBuiltin(m, SANDBOX))
    || (n == 3 && IsBuiltin(m, DANGLING_TOOL_CALL))
    || (n == 4 && f.guardrail == Custom(m))
    || (n == 5 && IsBuiltin(m, TOOL_ERROR_HANDLING))
    || (n == 6 && f.summarization == Custom(m))
    || (n == 7 && planMode && IsBuiltin(m, TODO))
    || (n == 8 && Fills(f.autoTitle, m, TITLE))
    || (n == 9 && Fills(f.memory, m, MEMORY))
    || (n == 10 && Fills(f.vision, m, VIEW_IMAGE))
    || (n == 11 && Fills(f.subagent, m, SUBAGENT_LIMIT))
    || (n == 12 && Fills(f.loopDetection, m, LOOP_DETECTION))
    || (n == 13 && IsBuiltin(m, CLARIFICATION))
  }

  // The elements of s stand under these numbers, in rising order, and there is one for
  // every number from low up to high under which something is listed.
  ghost predicate Numbered(f: Features, planMode: bool, s: seq<Middleware>, numbers: seq<int>, low: int, high: int) {
    && |numbers| == |s| && (forall i, j :: 0 <= i < j < |s| ==> numbers[i] < numbers[j])
    && (forall i :: 0 <= i < |s| ==> low <= numbers[i] < high && Listed(f, planMode, numbers[i], s[i]))
    && forall n, m :: low <= n < high && Listed(f, planMode, n, m) ==> n in numbers
  }

  ghost predicate Documented(f: Features, planMode: bool, s: seq<Middleware>) {
    exists numbers :: Numbered(f, planMode, s, numbers, 0, 14)
  }

  ghost predicate HoldsDocumented(f: Features, planMode: bool, extras: seq<Middleware>, s: seq<Middleware>) {
    exists b :: DocumentedIn(f, planMode, extras, s, b)
  }

  // The documented chain is b, and s is b with the extras added.
  ghost predicate DocumentedIn(f: Features, planMode: bool, extras: seq<Middleware>, s: seq<Middleware>, b: seq<Middleware>) {
    && Documented(f, planMode, b) && multiset(s) == multiset(b) + multiset(extras)
    && b != [] && (NoClarificationIn(b[..|b|-1]) && NoClarificationIn(extras) ==> Subseq(b, s))
  }

  // The first number of slot k.
  ghost function NumberOf(k: nat): int {
    if k == 0 then 0 else k + 2
  }

  lemma SlotNumbered(k: nat, f: Features, planMode: bool) returns (numbers: seq<int>)
    requires k < |DOCUMENTED_ORDER|
    ensures Numbered(f, planMode, SlotContent(DOCUMENTED_ORDER[k], f, planMode), numbers, NumberOf(k), NumberOf(k + 1))
  {
    if k == 0 {
      numbers := FirstSlotNumbered(f, planMode);
    } else {
      var content := SlotContent(DOCUMENTED_ORDER[k], f, planMode);
      numbers := if content == [] then [] else [k + 2];
      OneListed(k, f, planMode);
      hide Listed, SlotContent;
    }
  }

  lemma FirstSlotNumbered(f: Features, planMode: bool) returns (numbers: seq<int>)
    ensures Numbered(f, planMode, SlotContent(SandboxInfrastructure, f, planMode), numbers, 0, 3)
  {
    numbers := if f.sandbox.Off? then [] else if f.sandbox.Custom? then [0] else [0, 1, 2];
  }

  // Every slot but the first has one number.
  lemma OneListed(k: nat, f: Features, planMode: bool)
    requires 0 < k < |DOCUMENTED_ORDER|
    ensures var content := SlotContent(DOCUMENTED_ORDER[k], f, planMode);
            && |content| <= 1 && (content != [] ==> Listed(f, planMode, k + 2, content[0]))
            && forall n, m :: n == k + 2 && Listed(f, planMode, n, m) ==> content != []
  {}

  lemma NumberedJoin(f: Features, planMode: bool, s: seq<Middleware>, ns: seq<int>, t: seq<Middleware>, ms: seq<int>,
                     low: int, mid: int, high: int)
    requires low <= mid <= high && Numbered(f, planMode, s, ns, low, mid) && Numbered(f, planMode, t, ms, mid, high)
    ensures Numbered(f, planMode, s + t, ns + ms, low, high)
  {
    hide Listed;
    var st, all := s + t, ns + ms;
    forall i | 0 <= i < |st| ensures low <= all[i] < high && Listed(f, planMode, all[i], st[i]) {
      if i >= |s| {
        assert all[i] == ms[i - |s|] && st[i] == t[i - |s|];
      }
    }
  }

  lemma {:induction false} SlotsNumbered(n: nat, f: Features, planMode: bool) returns (numbers: seq<int>)
    requires n <= |DOCUMENTED_ORDER|
    ensures Numbered(f, planMode, InSlots(n, f, planMode), numbers, 0, NumberOf(n))
    decreases n
  {
    if n == 0 {
      numbers := [];
    } else {
      hide Numbered, SlotContent;
      var before := SlotsNumbered(n - 1, f, planMode);
      var more := SlotNumbered(n - 1, f, planMode);
      NumberedJoin(f, planMode, InSlots(n - 1, f, planMode), before, SlotContent(DOCUMENTED_ORDER[n-1], f, planMode), more,
                   0, NumberOf(n - 1), NumberOf(n));
      NextSlot(n - 1, f, planMode);
      numbers := before + more;
    }
  }

  lemma BuiltinsDocumented(f: Features, planMode: bool)
    ensures Documented(f, planMode, Builtins(f, planMode))
  {
    var numbers := SlotsNumbered(|DOCUMENTED_ORDER|, f, planMode);
    hide Numbered, InSlots;
    assert Numbered(f, planMode, Builtins(f, planMode), numbers, 0, 14);
  }

  // Only one chain can be documented for given classes: one element for each number
  // under which something is listed.
  lemma DocumentedOnce(f: Features, planMode: bool, s: seq<Middleware>, ns: seq<int>, t: seq<Middleware>, ms: seq<int>)
    requires Numbered(f, planMode, s, ns, 0, 14) && Numbered(f, planMode, t, ms, 0, 14)
    ensures ns == ms
  {
    hide Listed;
    forall n ensures n in ns <==> n in ms {
      if n in ns {
        var i :| 0 <= i < |ns| && ns[i] == n;
        assert Listed(f, planMode, ns[i], s[i]);
      }
      if n in ms {
        var i :| 0 <= i < |ms| && ms[i] == n;
        assert Listed(f, planMode, ms[i], t[i]);
      }
    }
    RisingOnce(ns, ms);
  }

  lemma {:induction false} RisingOnce(a: seq<int>, b: seq<int>)
    requires forall i, j :: 0 <= i < j < |a| ==> a[i] < a[j]
    requires forall i, j :: 0 <= i < j < |b| ==> b[i] < b[j]
    requires forall n :: n in a <==> n in b
    ensures a == b
    decreases |a|
  {
    var w := if a != [] then a[0] else if b != [] then b[0] else 0;
    assert w in a <==> w in b;
    if a != [] {
      assert a[0] in a;
      assert b[0] in b;
      var i :| 0 <= i < |a| && a[i] == b[0];
      var j :| 0 <= j < |b| && b[j] == a[0];
      assert a[0] == b[0];
      forall n ensures n in a[1..] <==> n in b[1..] {
        assert n in a[1..] <==> n in a && n != a[0];
        assert n in b[1..] <==> n in b && n != b[0];
      }
      RisingOnce(a[1..], b[1..]);
    }
  }

  // What assembly returns when it does not raise.
  ghost function Assembled(f: Features, planMode: bool, extras: seq<Middleware>): Option<seq<Middleware>> {
    if Rejected(f) then None else Finished(Leading(f, planMode), Builtin(CLARIFICATION), extras)
  }

  // Without extras exactly the documented chain is returned; with extras nothing of it
  // is missing, and unless something else is a clarification middleware it is in order.
  method AssembleFromFeatures(f: Features, planMode: bool, extras: seq<Middleware>)
    returns (r: Result<seq<Middleware>, Error>)
    ensures r.Success? <==> Assembled(f, planMode, extras).Some?
    ensures r.Success? ==> r.value == Assembled(f, planMode, extras).value
    ensures r.Success? && extras == [] ==> Documented(f, planMode, r.value)
    ensures r.Success? ==> HoldsDocumented(f, planMode, extras, r.value)
    ensures r.Failure? ==> (r.error.NeedsCustomInstance? <==> f.guardrail.Default? || f.summarization.Default?)
  {
    hide Documented, HoldsDocumented, Builtins, Leading;
    var chain := new Chain();
    var built := AppendBuiltins(chain, f, planMode);
    if built.Failure? {
      return Failure(built.error);
    }
    BuiltinsEnd(f, planMode);
    var finished := FinishChain(chain, extras, Leading(f, planMode), Builtin(CLARIFICATION));
    if finished.Failure? {
      return Failure(finished.error);
    }
    r := Success(chain.items);
    AssembledIsDocumented(f, planMode, extras);
  }

  // --- what holds of every finished chain ---

  lemma RepairTailContents(s: seq<Middleware>)
    requires HasMatch(s, CLARIFICATION)
    ensures multiset(RepairTail(s)) == multiset(s)
  {
    var k := FirstMatch(s, CLARIFICATION);
    assert s == s[..k] + [s[k]] + s[k+1..];
  }

  // Nothing is lost, nothing doubled, and the chain ends with a clarification
  // middleware, even when features or extras are clarification middlewares too.
  lemma FinishedContents(lead: seq<Middleware>, last: Middleware, extras: seq<Middleware>)
    requires IsInstance(last, CLARIFICATION) && Finished(lead, last, extras).Some?
    ensures var s := Finished(lead, last, extras).value;
            && multiset(s) == multiset(lead + [last]) + multiset(extras)
            && s != [] && IsInstance(s[|s|-1], CLARIFICATION)
  {
    if extras != [] {
      EndsMatch(lead, last);
      var b := lead + [last];
      ExtrasConserved(b, extras);
      InsertionKeepsMatch(b, extras, CLARIFICATION);
      RepairTailContents(Insertion(b, extras).value);
    }
  }

  // No object of these is a clarification middleware.
  ghost predicate NoClarificationIn(s: seq<Middleware>) {
    forall m :: m in s ==> !IsInstance(m, CLARIFICATION)
  }

  lemma {:induction false} AnchoredIsExtra(extras: seq<Middleware>)
    ensures forall x :: x in AnchoredOf(extras) ==> x.mw in extras
    ensures forall m :: m in UnanchoredOf(extras) ==> m in extras
    decreases |extras|
  {
    if extras != [] {
      AnchoredIsExtra(extras[1..]);
    }
  }

  // Unanchored extras go in without reordering anything.
  lemma WithUnanchoredOrder(chain: seq<Middleware>, free: seq<Middleware>)
    requires HasMatch(chain, CLARIFICATION)
    ensures Subseq(chain, WithUnanchored(chain, free)) && Subseq(free, WithUnanchored(chain, free))
  {
    hide Subseq;
    var i := FirstMatch(chain, CLARIFICATION);
    var front, back := chain[..i], chain[i..];
    SubseqRefl(front);
    SubseqRefl(back);
    SubseqRefl(free);
    SubseqEmpty(front);
    SubseqEmpty(free);
    SubseqEmpty(back);
    SubseqAppend(front, front, [], free);
    SubseqAppend(front + [], front + free, back, back);
    assert front + [] + back == chain;
    SubseqAppend([], front, free, free);
    SubseqAppend([] + free, front + free, [], back);
    assert [] + free + [] == free;
  }

  // Insertion moves nothing past anything that was there before.
  lemma InsertionOrder(chain: seq<Middleware>, extras: seq<Middleware>)
    requires Compatible(extras) && HasMatch(chain, CLARIFICATION) && Insertion(chain, extras).Success?
    ensures Subseq(chain, Insertion(chain, extras).value)
    ensures Subseq(UnanchoredOf(extras), Insertion(chain, extras).value)
    ensures var base := WithUnanchored(chain, UnanchoredOf(extras));
            Subseq(chain, base)
            && forall x :: x in AnchoredOf(extras) ==> IsAttached(base, Insertion(chain, extras).value, x)
  {
    var free, pending := UnanchoredOf(extras), AnchoredOf(extras);
    var base := WithUnanchored(chain, free);
    var xs, rest := RoundsOrder(base, pending);
    var s := PlaceAll(base, xs);
    WithUnanchoredOrder(chain, free);
    PlaceAllOrder(base, xs);
    SubseqTrans(chain, base, s);
    SubseqTrans(free, base, s);
    forall x | x in pending ensures IsAttached(base, s, x) {
      assert x in multiset(pending);
      assert x in xs;
    }
  }

  // The element the tail repair moves.
  ghost function Moved(t: seq<Middleware>): Middleware
    requires HasMatch(t, CLARIFICATION)
  {
    t[FirstMatch(t, CLARIFICATION)]
  }

  // When nothing else is a clarification middleware, the last element is moved.
  lemma LastIsMoved(lead: seq<Middleware>, last: Middleware, extras: seq<Middleware>, t: seq<Middleware>)
    requires NoClarificationIn(lead) && NoClarificationIn(extras)
    requires multiset(t) == multiset(lead + [last]) + multiset(extras)
    requires HasMatch(t, CLARIFICATION)
    ensures Moved(t) == last
  {
    var m := Moved(t);
    assert m in multiset(t);
    assert m in lead + [last] || m in extras;
  }

  // Whatever was read off in order without the moved element still is, and the
  // moved element follows it.
  lemma RepairKeeps(a: seq<Middleware>, t: seq<Middleware>)
    requires HasMatch(t, CLARIFICATION)
    requires Subseq(a, t) && Moved(t) !in a
    ensures Subseq(a, RepairTail(t)) && Subseq(a + [Moved(t)], RepairTail(t))
  {
    var k := FirstMatch(t, CLARIFICATION);
    SubseqDrop(a, t, k);
    SubseqRefl([t[k]]);
    SubseqEmpty([t[k]]);
    SubseqAppend(a, t[..k] + t[k+1..], [t[k]], [t[k]]);
    SubseqAppend(a, t[..k] + t[k+1..], [], [t[k]]);
    assert a + [] == a;
  }

  lemma SubseqPrefix<T>(a: seq<T>, b: seq<T>, s: seq<T>)
    requires Subseq(a + b, s)
    ensures Subseq(a, s)
  {
    SubseqRefl(a);
    SubseqEmpty(b);
    SubseqAppend(a, a, [], b);
    assert a + [] == a;
    SubseqTrans(a, a + b, s);
  }

  lemma FinishedKeepsOrder(lead: seq<Middleware>, last: Middleware, extras: seq<Middleware>)
    requires IsInstance(last, CLARIFICATION) && Finished(lead, last, extras).Some?
    requires NoClarificationIn(lead) && NoClarificationIn(extras)
    ensures Subseq(lead + [last], Finished(lead, last, extras).value)
    ensures Subseq(UnanchoredOf(extras), Finished(lead, last, extras).value)
  {
    var b := lead + [last];
    if extras == [] {
      SubseqRefl(b);
      SubseqEmpty(b);
    } else {
      EndsMatch(lead, last);
      var t := Insertion(b, extras).value;
      ExtrasConserved(b, extras);
      InsertionKeepsMatch(b, extras, CLARIFICATION);
      LastIsMoved(lead, last, extras, t);
      InsertionOrder(b, extras);
      SubseqPrefix(lead, [last], t);
      RepairKeeps(lead, t);
      AnchoredIsExtra(extras);
      RepairKeeps(UnanchoredOf(extras), t);
    }
  }

  // The elements other than one.
  ghost function Others(s: seq<Middleware>, m: Middleware): seq<Middleware> {
    if s == [] then [] else (if s[0] == m then [] else [s[0]]) + Others(s[1..], m)
  }

  lemma {:induction false} OthersSubseq(s: seq<Middleware>, m: Middleware)
    ensures Subseq(Others(s, m), s) && m !in Others(s, m)
    decreases |s|
  {
    if s != [] {
      OthersSubseq(s[1..], m);
      assert s == [s[0]] + s[1..];
      if s[0] == m {
        SubseqCons(Others(s[1..], m), m, s[1..]);
        assert [] + Others(s[1..], m) == Others(s[1..], m);
      }
    }
  }

  lemma OthersCons(first: Middleware, s: seq<Middleware>, m: Middleware)
    ensures Others([first] + s, m) == (if first == m then Others(s, m) else [first] + Others(s, m))
  {
    assert ([first] + s)[1..] == s;
    assert [] + Others(s, m) == Others(s, m);
  }

  // Where an anchored extra ends up among the instances of its anchor that were there
  // when it was placed: in front of them all, or behind the first and in front of the
  // others; except that the clarification middleware is moved behind everything.
  ghost predicate SideKept(s: seq<Middleware>, x: Anchored, found: seq<Middleware>, last: Middleware) {
    && found != [] && (forall m :: m in found ==> IsInstance(m, x.anchor))
    && if x.side == Before || found[0] == last then Subseq([x.mw] + Others(found, last) + [last], s)
       else Subseq([found[0], x.mw] + Others(found[1..], last) + [last], s)
  }

  // The instances it is about include all that were in the chain to begin with.
  ghost predicate SideKeptIn(base: seq<Middleware>, s: seq<Middleware>, x: Anchored, last: Middleware) {
    exists found :: Subseq(Instances(base, x.anchor), found) && SideKept(s, x, found, last)
  }

  // Reading off the neighbours without the element that is moved.
  lemma OtherNeighbours(first: Middleware, rest: seq<Middleware>, m: Middleware, last: Middleware)
    requires m != last
    ensures Others([m] + ([first] + rest), last) == [m] + Others([first] + rest, last)
    ensures Others([first] + ([m] + rest), last)
         == if first == last then [m] + Others(rest, last) else [first] + ([m] + Others(rest, last))
    ensures first == last ==> Others([first] + rest, last) == Others(rest, last)
  {
    hide Others;
    OthersCons(first, rest, last);
    OthersCons(m, [first] + rest, last);
    OthersCons(m, rest, last);
    OthersCons(first, [m] + rest, last);
  }

  lemma NeighboursAre(c: seq<Middleware>, x: Anchored)
    requires Instances(c, x.anchor) != []
    ensures var found := Instances(c, x.anchor);
            && found == [found[0]] + found[1..]
            && Neighbours(c, x) == if x.side == Before then [x.mw] + ([found[0]] + found[1..])
                                   else [found[0]] + ([x.mw] + found[1..])
  {
    hide Instances;
  }

  lemma NeighboursKept(s: seq<Middleware>, c: seq<Middleware>, x: Anchored, last: Middleware)
    requires Instances(c, x.anchor) != [] && x.mw != last
    requires forall m :: m in Instances(c, x.anchor) ==> IsInstance(m, x.anchor)
    requires Subseq(Others(Neighbours(c, x), last) + [last], s)
    ensures SideKept(s, x, Instances(c, x.anchor), last)
  {
    hide Others, Instances, Subseq, Neighbours, IsInstance;
    NeighboursAre(c, x);
    var found := Instances(c, x.anchor);
    var first, rest := found[0], found[1..];
    OtherNeighbours(first, rest, x.mw, last);
    if x.side == After && first != last {
      assert [first] + ([x.mw] + Others(rest, last)) == [first, x.mw] + Others(rest, last);
    }
  }

  lemma FinishedKeepsSides(lead: seq<Middleware>, last: Middleware, extras: seq<Middleware>, x: Anchored)
    requires IsInstance(last, CLARIFICATION) && Finished(lead, last, extras).Some?
    requires NoClarificationIn(lead) && NoClarificationIn(extras) && x in AnchoredOf(extras)
    ensures SideKeptIn(lead + [last], Finished(lead, last, extras).value, x, last)
  {
    var b := lead + [last];
    EndsMatch(lead, last);
    AnchoredIsExtra(extras);
    var t := Insertion(b, extras).value;
    ExtrasConserved(b, extras);
    InsertionKeepsMatch(b, extras, CLARIFICATION);
    LastIsMoved(lead, last, extras, t);
    InsertionOrder(b, extras);
    RepairKeepsSide(b, WithUnanchored(b, UnanchoredOf(extras)), t, x, last);
  }

  lemma RepairKeepsSide(b: seq<Middleware>, base: seq<Middleware>, t: seq<Middleware>, x: Anchored, last: Middleware)
    requires Subseq(b, base) && IsAttached(base, t, x) && HasMatch(t, CLARIFICATION)
    requires Moved(t) == last && x.mw != last
    ensures SideKeptIn(b, RepairTail(t), x, last)
  {
    hide HasMatch, Subseq, Instances, Neighbours, RepairTail, Others, Moved, IsAttached;
    var c := AttachedReading(base, t, x);
    var found, near := Instances(c, x.anchor), Neighbours(c, x);
    InstancesGrow(b, base, x.anchor);
    SubseqTrans(Instances(b, x.anchor), Instances(base, x.anchor), found);
    InstancesSubseq(c, x.anchor);
    OthersSubseq(near, last);
    SubseqTrans(Others(near, last), near, t);
    RepairKeeps(Others(near, last), t);
    NeighboursKept(RepairTail(t), c, x, last);
  }

  // An element that occurs once sits at one index.
  lemma OnceOnly(s: seq<Middleware>, i: nat, j: nat)
    requires i < |s| && j < |s| && multiset(s)[s[j]] <= 1 && i != j
    ensures s[i] != s[j]
  {
    var lo, hi := if i < j then i else j, if i < j then j else i;
    assert s == s[..hi] + s[hi..];
    assert s[lo] in s[..hi] && s[hi] in s[hi..];
    assert multiset(s) == multiset(s[..hi]) + multiset(s[hi..]);
    assert multiset(s[..hi])[s[lo]] >= 1 && multiset(s[hi..])[s[hi]] >= 1;
  }

  // The tail repair takes a leading clarification middleware out of order.
  lemma RepairBreaks(b: seq<Middleware>, t: seq<Middleware>, m: Middleware, last: Middleware)
    requires Subseq([m, last], b) && Subseq([m, last], t) && HasMatch(t, CLARIFICATION)
    requires m == Moved(t) && multiset(t)[m] <= 1 && m != last
    ensures !Subseq(b, RepairTail(t))
  {
    var s := RepairTail(t);
    RepairTailContents(t);
    forall u | 0 <= u < |s| - 1 ensures s[u] != m {
      OnceOnly(s, u, |s| - 1);
    }
    if Subseq(b, s) {
      SubseqTrans([m, last], b, s);
      var u, v := SubseqPair(m, last, s);
      assert false;
    }
  }

  // A clarification middleware among the leading ones is what gets moved.
  lemma LeadingIsMoved(lead: seq<Middleware>, last: Middleware, extras: seq<Middleware>, t: seq<Middleware>)
    requires Distinct(lead + [last]) && NoClarificationIn(extras) && !NoClarificationIn(lead)
    requires IsInstance(last, CLARIFICATION) && HasMatch(t, CLARIFICATION)
    requires Subseq(lead + [last], t) && multiset(t) == multiset(lead + [last]) + multiset(extras)
    ensures Moved(t) in lead && Moved(t) != last && multiset(t)[Moved(t)] <= 1
  {
    var b := lead + [last];
    DistinctMultiset(b);
    var p :| 0 <= p < |lead| && IsInstance(lead[p], CLARIFICATION);
    assert b[p] == lead[p] && b[|lead|] == last;
    PairSubseq(b, p, |lead|);
    SubseqTrans([lead[p], last], b, t);
    var i, j := SubseqPair(lead[p], last, t);
    var k := FirstMatch(t, CLARIFICATION);
    assert k <= i < j;
    assert multiset(t)[last] <= 1 by {
      assert last !in multiset(extras);
    }
    OnceOnly(t, k, j);
    assert Moved(t) in multiset(t);
    assert Moved(t) in b;
    assert Moved(t) !in multiset(extras);
  }

  lemma FinishedOrderExactly(lead: seq<Middleware>, last: Middleware, extras: seq<Middleware>)
    requires IsInstance(last, CLARIFICATION) && Finished(lead, last, extras).Some? && extras != []
    requires Distinct(lead + [last]) && NoClarificationIn(extras)
    ensures Subseq(lead + [last], Finished(lead, last, extras).value) <==> NoClarificationIn(lead)
  {
    if NoClarificationIn(lead) {
      FinishedKeepsOrder(lead, last, extras);
    } else {
      var b := lead + [last];
      EndsMatch(lead, last);
      var t := Insertion(b, extras).value;
      ExtrasConserved(b, extras);
      InsertionKeepsMatch(b, extras, CLARIFICATION);
      InsertionOrder(b, extras);
      LeadingIsMoved(lead, last, extras, t);
      var q :| 0 <= q < |lead| && lead[q] == Moved(t);
      assert b[q] == lead[q] && b[|lead|] == last;
      PairSubseq(b, q, |lead|);
      SubseqTrans([lead[q], last], b, t);
      RepairBreaks(b, t, lead[q], last);
    }
  }

  // --- the same, for the assembled chain ---

  lemma AssembledContents(f: Features, planMode: bool, extras: seq<Middleware>)
    requires Assembled(f, planMode, extras).Some?
    ensures var s := Assembled(f, planMode, extras).value;
            && multiset(s) == multiset(Builtins(f, planMode)) + multiset(extras)
            && s != [] && IsInstance(s[|s|-1], CLARIFICATION)
  {
    BuiltinsEnd(f, planMode);
    FinishedContents(Leading(f, planMode), Builtin(CLARIFICATION), extras);
  }

  lemma AssembledIsDocumented(f: Features, planMode: bool, extras: seq<Middleware>)
    ensures Assembled(f, planMode, extras).Some? ==>
              var s := Assembled(f, planMode, extras).value;
              HoldsDocumented(f, planMode, extras, s) && (extras == [] ==> Documented(f, planMode, s))
  {
    if Assembled(f, planMode, extras).Some? {
      var s, b := Assembled(f, planMode, extras).value, Builtins(f, planMode);
      BuiltinsEnd(f, planMode);
      BuiltinsDocumented(f, planMode);
      AssembledContents(f, planMode, extras);
      hide Documented, Builtins;
      assert b[..|b|-1] == Leading(f, planMode);
      if NoClarificationIn(Leading(f, planMode)) && NoClarificationIn(extras) {
        FinishedKeepsOrder(Leading(f, planMode), Builtin(CLARIFICATION), extras);
      }
      hide Leading;
      assert DocumentedIn(f, planMode, extras, s, b);
    }
  }

  // The built-ins keep their documented relative order, and every anchored extra
  // stands on the side it asked for.
  lemma AssembledOrder(f: Features, planMode: bool, extras: seq<Middleware>)
    requires Assembled(f, planMode, extras).Some?
    requires NoClarificationIn(Leading(f, planMode)) && NoClarificationIn(extras)
    ensures var s := Assembled(f, planMode, extras).value;
            && Subseq(Builtins(f, planMode), s) && Subseq(UnanchoredOf(extras), s)
            && forall x :: x in AnchoredOf(extras) ==>
                             SideKeptIn(Builtins(f, planMode), s, x, Builtin(CLARIFICATION))
  {
    BuiltinsEnd(f, planMode);
    var lead, last := Leading(f, planMode), Builtin(CLARIFICATION);
    FinishedKeepsOrder(lead, last, extras);
    forall x | x in AnchoredOf(extras)
      ensures SideKeptIn(Builtins(f, planMode), Assembled(f, planMode, extras).value, x, last)
    {
      FinishedKeepsSides(lead, last, extras, x);
    }
  }

  // Said of the marks: an extra marked @Next or @Prev stands on that side.
  lemma MarksAreKept(f: Features, planMode: bool, extras: seq<Middleware>, m: Middleware)
    requires Assembled(f, planMode, extras).Some? && m in extras
    requires NoClarificationIn(Leading(f, planMode)) && NoClarificationIn(extras)
    ensures var s, last := Assembled(f, planMode, extras).value, Builtin(CLARIFICATION);
            && (m.cls.nextAnchor.Some? ==>
                  SideKeptIn(Builtins(f, planMode), s, Anchored(m, After, m.cls.nextAnchor.value), last))
            && (m.cls.prevAnchor.Some? ==>
                  SideKeptIn(Builtins(f, planMode), s, Anchored(m, Before, m.cls.prevAnchor.value), last))
  {
    AssembledOrder(f, planMode, extras);
    assert !WantsBoth(m) by {
      assert extras != [];
    }
    hide SideKeptIn, Assembled, Builtins, Leading, AnchoredOf;
    if m.cls.nextAnchor.Some? {
      AnchoredExactly(extras, Anchored(m, After, m.cls.nextAnchor.value));
    } else if m.cls.prevAnchor.Some? {
      AnchoredExactly(extras, Anchored(m, Before, m.cls.prevAnchor.value));
    }
  }

  // The documented order survives extras if and only if no custom feature is
  // itself a clarification middleware: the tail repair moves the first one.
  lemma OrderKeptExactly(f: Features, planMode: bool, extras: seq<Middleware>)
    requires Assembled(f, planMode, extras).Some? && extras != []
    requires Distinct(Builtins(f, planMode)) && NoClarificationIn(extras)
    ensures Subseq(Builtins(f, planMode), Assembled(f, planMode, extras).value)
            <==> NoClarificationIn(Leading(f, planMode))
  {
    BuiltinsEnd(f, planMode);
    FinishedOrderExactly(Leading(f, planMode), Builtin(CLARIFICATION), extras);
  }
}
