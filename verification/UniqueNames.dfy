// File names made unique within one request by numbering.
module UniqueNames {
  import opened Sequences

  function Digit(d: nat): char
    requires d < 10
  {
    '0' + d as char
  }

  // Decimal notation.
  function Decimal(n: nat): string {
    if n < 10 then [Digit(n)] else Decimal(n / 10) + [Digit(n % 10)]
  }

  ghost function ValueOf(s: string): int {
    if s == [] then 0 else 10 * ValueOf(s[..|s|-1]) + (s[|s|-1] as int - '0' as int)
  }

  lemma {:induction false} DecimalValue(n: nat)
    ensures ValueOf(Decimal(n)) == n
  {
    if n >= 10 {
      DecimalValue(n / 10);
      assert Decimal(n)[..|Decimal(n)|-1] == Decimal(n / 10);
    }
  }

  // --- the parts of a name ---

  // Position of the last dot that has a character on both sides.
  function SplitAt(name: string): (i: nat)
    ensures i <= |name|
  {
    var i := LastDot(name);
    if 0 < i < |name| - 1 then i else |name|
  }

  function LastDot(name: string): (i: int)
    ensures -1 <= i < |name|
  {
    if name == "" then -1
    else if name[|name|-1] == '.' then |name| - 1
    else LastDot(name[..|name|-1])
  }

  function Stem(name: string): string {
    name[..SplitAt(name)]
  }

  function Suffix(name: string): string {
    name[SplitAt(name)..]
  }

  function Candidate(name: string, n: nat): string {
    Stem(name) + "_" + Decimal(n) + Suffix(name)
  }

  lemma SplitSame(a: string, b: string, x: string, y: string)
    requires a + x + b == a + y + b
    ensures x == y
  {
    var s, t := a + x + b, a + y + b;
    assert |x| == |y|;
    assert x == s[|a|..|a| + |x|];
    assert y == t[|a|..|a| + |y|];
  }

  lemma CandidatesDiffer(name: string, m: nat, n: nat)
    requires Candidate(name, m) == Candidate(name, n)
    ensures m == n
  {
    SplitSame(Stem(name) + "_", Suffix(name), Decimal(m), Decimal(n));
    DecimalValue(m);
    DecimalValue(n);
  }

  // --- claiming a name ---

  // The name itself if it is free, or else the first numbered variant that is.
  ghost predicate IsClaim(name: string, seen: set<string>, r: string) {
    && r !in seen
    && if name !in seen then r == name
       else exists k :: Numbered(name, seen, k, r)
  }

  ghost predicate Numbered(name: string, seen: set<string>, k: nat, r: string) {
    k >= 1 && r == Candidate(name, k) && forall i :: 1 <= i < k ==> Candidate(name, i) in seen
  }

  lemma ClaimUnique(name: string, seen: set<string>, r: string, q: string)
    requires IsClaim(name, seen, r) && IsClaim(name, seen, q)
    ensures r == q
  {
    if name in seen {
      var k :| Numbered(name, seen, k, r);
      var l :| Numbered(name, seen, l, q);
      assert k == l;
    }
  }

  // The candidates below n, all different.
  ghost function Tried(name: string, n: nat): set<string> {
    set i | 1 <= i < n :: Candidate(name, i)
  }

  lemma {:induction false} TriedSize(name: string, n: nat)
    ensures |Tried(name, n)| == if n == 0 then 0 else n - 1
    decreases n
  {
    if n >= 2 {
      TriedSize(name, n - 1);
      assert Tried(name, n) == Tried(name, n - 1) + {Candidate(name, n - 1)};
      forall i | 1 <= i < n - 1 ensures Candidate(name, i) != Candidate(name, n - 1) {
        if Candidate(name, i) == Candidate(name, n - 1) {
          CandidatesDiffer(name, i, n - 1);
        }
      }
    } else {
      assert Tried(name, n) == {};
    }
  }

  // Counting up ends: only as many candidates can be taken as names were claimed.
  method ClaimUniqueFilename(name: string, seen: set<string>) returns (r: string, claimed: set<string>)
    ensures IsClaim(name, seen, r)
    ensures claimed == seen + {r}
  {
    if name !in seen {
      return name, seen + {name};
    }
    var counter := 1;
    r := Candidate(name, counter);
    while r in seen
      invariant counter >= 1 && r == Candidate(name, counter)
      invariant forall i :: 1 <= i < counter ==> Candidate(name, i) in seen
      decreases |seen| - counter
    {
      assert Tried(name, counter + 1) <= seen;
      TriedSize(name, counter + 1);
      SubsetCount(Tried(name, counter + 1), seen);
      counter := counter + 1;
      r := Candidate(name, counter);
    }
    assert Numbered(name, seen, counter, r);
    claimed := seen + {r};
  }

  lemma {:induction false} FreeFrom(name: string, seen: set<string>, k: nat) returns (r: string)
    requires name in seen && k >= 1 && forall i :: 1 <= i < k ==> Candidate(name, i) in seen
    ensures IsClaim(name, seen, r)
    decreases |seen| + 1 - k
  {
    assert Tried(name, k) <= seen;
    TriedSize(name, k);
    SubsetCount(Tried(name, k), seen);
    r := Candidate(name, k);
    if r in seen {
      r := FreeFrom(name, seen, k + 1);
    } else {
      assert Numbered(name, seen, k, r);
    }
  }

  lemma ClaimExists(name: string, seen: set<string>)
    ensures exists r :: IsClaim(name, seen, r)
  {
    if name in seen {
      var r := FreeFrom(name, seen, 1);
    } else {
      assert IsClaim(name, seen, name);
    }
  }

  ghost function Claimed(name: string, seen: set<string>): (r: string)
    ensures IsClaim(name, seen, r)
  {
    ClaimExists(name, seen);
    var r :| IsClaim(name, seen, r);
    r
  }

  // --- what a numbered variant looks like ---

  // A decimal number without leading zeros.
  ghost predicate IsDecimal(s: string, n: nat) {
    && s != "" && (forall i :: 0 <= i < |s| ==> '0' <= s[i] <= '9') && (s[0] == '0' ==> s == "0")
    && ValueOf(s) == n
  }

  lemma {:induction false} DecimalExactly(n: nat)
    ensures IsDecimal(Decimal(n), n)
    decreases n
  {
    DecimalValue(n);
    if n >= 10 {
      DecimalExactly(n / 10);
      var d := Decimal(n);
      assert d[..|d|-1] == Decimal(n / 10) && d[0] == Decimal(n / 10)[0];
      ZeroIsZero();
    }
  }

  lemma ZeroIsZero()
    ensures ValueOf("0") == 0
  {
    assert "0"[..0] == "";
  }

  lemma {:induction false} LastDotExactly(name: string)
    ensures var i := LastDot(name); i >= 0 ==> name[i] == '.'
    ensures forall j :: LastDot(name) < j < |name| ==> name[j] != '.'
    decreases |name|
  {
    if name != "" && name[|name|-1] != '.' {
      LastDotExactly(name[..|name|-1]);
    }
  }

  // A name in two parts: the second is empty, or starts with the last dot of the name,
  // has something behind it, and something in front of it.
  ghost predicate Parts(name: string, stem: string, suffix: string) {
    && name == stem + suffix
    && if suffix == "" then (name != "" && name[|name|-1] == '.') || forall i :: 0 < i < |name| ==> name[i] != '.'
       else stem != "" && |suffix| > 1 && suffix[0] == '.' && '.' !in suffix[1..]
  }

  // The number stands between the parts, behind an underscore.
  lemma CandidateExactly(name: string, n: nat)
    ensures Parts(name, Stem(name), Suffix(name)) && IsDecimal(Decimal(n), n)
    ensures Candidate(name, n) == Stem(name) + "_" + Decimal(n) + Suffix(name)
  {
    DecimalExactly(n);
    PartsExactly(name);
    hide Decimal, IsDecimal, Parts, Stem, Suffix;
  }

  lemma PartsExactly(name: string)
    ensures Parts(name, Stem(name), Suffix(name))
  {
    LastDotExactly(name);
    hide LastDot;
    var i := SplitAt(name);
    assert name[..i] + name[i..] == name;
    if i < |name| {
      SuffixHasOneDot(name, i);
    } else {
      assert name[i..] == "" && (LastDot(name) <= 0 || LastDot(name) == |name| - 1);
    }
  }

  lemma SuffixHasOneDot(name: string, i: nat)
    requires i < |name| && forall j :: i < j < |name| ==> name[j] != '.'
    ensures '.' !in name[i..][1..]
  {
    assert forall k :: 0 <= k < |name[i..][1..]| ==> name[i..][1..][k] == name[i + 1 + k];
  }

  // For one: a name with an extension keeps it, and a hidden file is all stem.
  lemma CandidateExamples()
    ensures Candidate("a.tar.gz", 2) == "a.tar_2.gz"
    ensures Candidate(".env", 1) == ".env_1"
  {
    assert LastDot("a.tar.gz") == 5 by {
      LastDotExactly("a.tar.gz");
      assert "a.tar.gz"[5] == '.' && "a.tar.gz"[6] == 'g' && "a.tar.gz"[7] == 'z';
    }
    assert LastDot(".env") == 0 by {
      LastDotExactly(".env");
      assert ".env"[0] == '.' && ".env"[1] == 'e' && ".env"[2] == 'n' && ".env"[3] == 'v';
    }
    assert Decimal(2) == "2" && Decimal(1) == "1";
    assert "a.tar.gz"[..5] == "a.tar" && "a.tar.gz"[5..] == ".gz";
    assert "a.tar" + "_" + "2" + ".gz" == "a.tar_2.gz" && ".env" + "_" + "1" + "" == ".env_1";
    assert ".env"[..4] == ".env" && ".env"[4..] == "";
  }
}
