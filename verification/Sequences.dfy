// Facts about sequences and sets that several components need: order-preserving
// embedding, absence of repetition, and counting.
module Sequences {

  // Every element of s occurs once.
  ghost predicate Distinct<T(!new)>(s: seq<T>) {
    forall i, j :: 0 <= i < j < |s| ==> s[i] != s[j]
  }

  // a can be read off b from left to right, skipping elements of b.
  ghost predicate Subseq<T>(a: seq<T>, b: seq<T>)
    decreases |b|
  {
    if a == [] then true
    else if b == [] then false
    else if a[0] == b[0] then Subseq(a[1..], b[1..])
    else Subseq(a, b[1..])
  }

  lemma {:induction false} SubseqSkip<T>(a: seq<T>, b: seq<T>)
    requires a != [] && Subseq(a, b)
    ensures Subseq(a[1..], b)
    decreases |b|
  {
    if a[0] == b[0] {
      if |a| > 1 {
        if a[1] == b[0] {
          SubseqSkip(a[1..], b[1..]);
        }
      }
    } else {
      SubseqSkip(a, b[1..]);
      if |a| > 1 && a[1] == b[0] {
        SubseqSkip(a[1..], b[1..]);
      }
    }
  }

  // One more element in front of b cannot hurt.
  lemma {:induction false} SubseqCons<T>(a: seq<T>, x: T, b: seq<T>)
    requires Subseq(a, b)
    ensures Subseq(a, [x] + b)
  {
    assert ([x] + b)[1..] == b;
    if a != [] {
      SubseqSkip(a, b);
    }
  }

  lemma {:induction false} SubseqRefl<T>(a: seq<T>)
    ensures Subseq(a, a)
    decreases |a|
  {
    if a != [] {
      SubseqRefl(a[1..]);
    }
  }

  lemma {:induction false} SubseqTrans<T>(a: seq<T>, b: seq<T>, c: seq<T>)
    requires Subseq(a, b) && Subseq(b, c)
    ensures Subseq(a, c)
    decreases |c|
  {
    if a != [] {
      if b[0] == c[0] {
        if a[0] == b[0] {
          SubseqTrans(a[1..], b[1..], c[1..]);
        } else {
          SubseqTrans(a, b[1..], c[1..]);
        }
      } else {
        SubseqTrans(a, b, c[1..]);
        assert [c[0]] + c[1..] == c;
        SubseqCons(a, c[0], c[1..]);
      }
    }
  }

  // Embeddings can be placed side by side.
  lemma {:induction false} SubseqAppend<T>(a: seq<T>, b: seq<T>, c: seq<T>, d: seq<T>)
    requires Subseq(a, b) && Subseq(c, d)
    ensures Subseq(a + c, b + d)
    decreases |b|
  {
    if b == [] {
      assert a + c == c && b + d == d;
    } else {
      assert (b + d)[1..] == b[1..] + d;
      assert b + d == [b[0]] + (b[1..] + d);
      if a != [] && a[0] == b[0] {
        assert (a + c)[1..] == a[1..] + c;
        SubseqAppend(a[1..], b[1..], c, d);
      } else {
        SubseqAppend(a, b[1..], c, d);
        SubseqCons(a + c, b[0], b[1..] + d);
      }
    }
  }

  lemma SubseqInsert<T>(s: seq<T>, i: nat, x: T)
    requires i <= |s|
    ensures Subseq(s, s[..i] + [x] + s[i..])
  {
    hide Subseq;
    var a, b := s[..i], s[i..];
    SubseqRefl(a);
    SubseqRefl(b);
    SubseqCons(b, x, b);
    SubseqAppend(a, a, b, [x] + b);
    assert a + b == s;
    assert a + ([x] + b) == a + [x] + b;
  }

  lemma InsertedContents<T>(s: seq<T>, i: nat, x: T)
    requires i <= |s|
    ensures multiset(s[..i] + [x] + s[i..]) == multiset(s) + multiset{x}
    ensures forall y :: y in s[..i] + [x] + s[i..] <==> y in s || y == x
  {
    var a, b := s[..i], s[i..];
    assert s == a + b;
  }

  lemma InsertedIndices<T>(s: seq<T>, i: nat, x: T)
    requires i <= |s|
    ensures var t := s[..i] + [x] + s[i..];
            && |t| == |s| + 1 && t[i] == x
            && (forall k :: 0 <= k < i ==> t[k] == s[k])
            && (forall k :: i < k < |t| ==> t[k] == s[k-1])
  {}

  // Dropping an element of b that a does not use keeps the embedding.
  lemma {:induction false} SubseqDrop<T>(a: seq<T>, b: seq<T>, k: nat)
    requires k < |b| && Subseq(a, b) && b[k] !in a
    ensures Subseq(a, b[..k] + b[k+1..])
    decreases |b|
  {
    if a != [] {
      var rest := b[..k] + b[k+1..];
      if k == 0 {
        assert rest == b[1..];
      } else {
        assert rest[0] == b[0] && rest[1..] == b[1..][..k-1] + b[1..][k..];
        if a[0] == b[0] {
          SubseqDrop(a[1..], b[1..], k - 1);
        } else {
          SubseqDrop(a, b[1..], k - 1);
        }
      }
    }
  }

  lemma {:induction false} SubseqMember<T>(a: seq<T>, b: seq<T>, x: T)
    requires Subseq(a, b) && x in a
    ensures x in b
    decreases |b|
  {
    if a[0] == b[0] {
      if x != a[0] {
        assert x in a[1..];
        SubseqMember(a[1..], b[1..], x);
      }
    } else {
      SubseqMember(a, b[1..], x);
    }
  }

  // An embedding of a pair pins down two positions in order.
  lemma {:induction false} SubseqPair<T>(x: T, y: T, b: seq<T>) returns (i: nat, j: nat)
    requires Subseq([x, y], b)
    ensures i < j < |b| && b[i] == x && b[j] == y
    decreases |b|
  {
    if b[0] == x {
      i := 0;
      assert [x, y][1..] == [y];
      SubseqMember([y], b[1..], y);
      j :| 0 < j < |b| && b[j] == y;
    } else {
      i, j := SubseqPair(x, y, b[1..]);
      i, j := i + 1, j + 1;
    }
  }

  lemma PairSubseq<T>(b: seq<T>, i: nat, j: nat)
    requires i < j < |b|
    ensures Subseq([b[i], b[j]], b)
  {
    hide Subseq;
    var x, y := b[i], b[j];
    SubseqRefl([x]);
    SubseqRefl([y]);
    SubseqEmpty(b[..i]);
    SubseqEmpty(b[i+1..j]);
    SubseqEmpty(b[j+1..]);
    SubseqAppend([], b[..i], [x], [x]);
    SubseqAppend([] + [x], b[..i] + [x], [], b[i+1..j]);
    SubseqAppend([] + [x] + [], b[..i] + [x] + b[i+1..j], [y], [y]);
    SubseqAppend([] + [x] + [] + [y], b[..i] + [x] + b[i+1..j] + [y], [], b[j+1..]);
    assert [] + [x] + [] + [y] + [] == [x, y];
    assert b[..i] + [x] + b[i+1..j] + [y] + b[j+1..] == b;
  }

  lemma SubseqEmpty<T>(b: seq<T>)
    ensures Subseq([], b)
  {}

  // Distinctness, said with multiplicities.
  lemma DistinctMultiset<T(!new)>(s: seq<T>)
    ensures Distinct(s) <==> forall x :: multiset(s)[x] <= 1
  {
    if Distinct(s) {
      forall x ensures multiset(s)[x] <= 1 {
        DistinctOnce(s, x);
      }
    }
    if forall x :: multiset(s)[x] <= 1 {
      forall i, j | 0 <= i < j < |s| ensures s[i] != s[j] {
        assert s == s[..j] + s[j..];
        assert s[i] in s[..j];
        assert s[j] in s[j..];
        assert multiset(s) == multiset(s[..j]) + multiset(s[j..]);
        assert multiset(s)[s[i]] <= 1;
      }
    }
  }

  lemma {:induction false} DistinctOnce<T(!new)>(s: seq<T>, x: T)
    requires Distinct(s)
    ensures multiset(s)[x] <= 1
  {
    if s != [] {
      DistinctOnce(s[1..], x);
      assert s == [s[0]] + s[1..];
      if s[0] == x {
        assert x !in s[1..];
      }
    }
  }

  // A subset has no more elements.
  lemma SubsetCount<T>(a: set<T>, b: set<T>)
    requires a <= b
    ensures |a| <= |b|
  {
    assert b == a + (b - a);
  }

  // Strings put together in order.
  function Concat(parts: seq<string>): string {
    if parts == [] then "" else Concat(parts[..|parts|-1]) + parts[|parts|-1]
  }

  lemma ConcatSnoc(parts: seq<string>, more: string)
    ensures Concat(parts + [more]) == Concat(parts) + more
  {
    assert (parts + [more])[..|parts|] == parts;
  }

  lemma {:induction false} ConcatFront(parts: seq<string>)
    requires parts != []
    ensures Concat(parts) == parts[0] + Concat(parts[1..])
    decreases |parts|
  {
    var n := |parts| - 1;
    var init, rest := parts[..n], parts[1..];
    if n > 0 {
      assert Concat(parts) == Concat(init) + parts[n];
      hide Concat;
      ConcatFront(init);
      assert rest == init[1..] + [parts[n]];
      ConcatSnoc(init[1..], parts[n]);
    }
  }

  // --- reading off a list element by element ---

  ghost function Gather<A(!new), B(!new)>(f: A -> seq<B>, s: seq<A>): seq<B> {
    if s == [] then [] else f(s[0]) + Gather(f, s[1..])
  }

  lemma {:induction false} GatherConcat<A(!new), B(!new)>(f: A -> seq<B>, a: seq<A>, b: seq<A>)
    ensures Gather(f, a + b) == Gather(f, a) + Gather(f, b)
    decreases |a|
  {
    if a == [] {
      assert a + b == b;
    } else {
      assert (a + b)[1..] == a[1..] + b;
      GatherConcat(f, a[1..], b);
    }
  }

  // One element taken out of each of two listings of the same things.
  lemma TakeOut<A>(x: A, rest: seq<A>, front: seq<A>, back: seq<A>)
    requires multiset([x] + rest) == multiset(front + ([x] + back))
    ensures multiset(rest) == multiset(front + back)
  {
    assert multiset([x] + rest) == multiset{x} + multiset(rest);
    assert multiset(front + ([x] + back)) == multiset(front) + (multiset{x} + multiset(back));
    assert multiset(rest) == multiset([x] + rest) - multiset{x};
  }

  lemma GatherTaken<A(!new), B(!new)>(f: A -> seq<B>, x: A, front: seq<A>, back: seq<A>)
    ensures multiset(Gather(f, front + ([x] + back))) == multiset(f(x)) + multiset(Gather(f, front + back))
  {
    GatherConcat(f, front, back);
    GatherConcat(f, front, [x] + back);
    assert ([x] + back)[1..] == back;
  }

  // Reordering a list reorders what is read off it.
  lemma {:induction false} GatherPermuted<A(!new), B(!new)>(f: A -> seq<B>, a: seq<A>, b: seq<A>)
    requires multiset(a) == multiset(b)
    ensures multiset(Gather(f, a)) == multiset(Gather(f, b))
    decreases |a|
  {
    if a == [] {
      assert |multiset(b)| == 0;
    } else {
      var x, rest := a[0], a[1..];
      assert a == [x] + rest;
      assert x in multiset(b);
      var i :| 0 <= i < |b| && b[i] == x;
      var front, back := b[..i], b[i+1..];
      assert b == front + ([x] + back);
      TakeOut(x, rest, front, back);
      GatherPermuted(f, rest, front + back);
      GatherTaken(f, x, front, back);
      assert Gather(f, a) == f(x) + Gather(f, rest);
      hide Gather;
    }
  }
}
