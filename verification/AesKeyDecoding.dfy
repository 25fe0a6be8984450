// The base64 decoders themselves: what they read as which bytes, what they refuse, and
// what the tolerant one overlooks; and what the parser makes of any value.
module AesKeyDecoding {
  import opened Wrappers
  import opened AesKeyCodec
  import opened AesKeyText
  import opened AesKeyRoundTrip

  // --- groups of characters as numbers ---

  // The value of an alphabet character: its place in the alphabet.
  ghost predicate HasValue(c: char, v: int) {
    0 <= v < |ALPHABET| && c == ALPHABET[v]
  }

  predicate IsLetter(c: char) {
    c in ALPHABET
  }

  ghost predicate AllLetters(s: string) {
    forall i :: 0 <= i < |s| ==> IsLetter(s[i])
  }

  function ValueOf(c: char): (v: int)
    requires IsLetter(c)
    ensures HasValue(c, v) && 0 <= v < 64
  {
    InAlphabet(c);
    Sextet(c).value
  }

  lemma InAlphabet(c: char)
    ensures |ALPHABET| == 64 && (IsLetter(c) <==> Sextet(c).Some?)
    ensures Sextet(c).Some? ==> HasValue(c, Sextet(c).value) && SextetChar(Sextet(c).value) == c
  {
    SextetExactly(c, if Sextet(c).Some? then Sextet(c).value else 0);
    SextetBack(c);
    if c in ALPHABET {
      var v :| 0 <= v < |ALPHABET| && ALPHABET[v] == c;
      SextetExactly(c, v);
    }
    hide Sextet, SextetChar;
  }

  // The number that alphabet characters are in base 64.
  ghost function Number(s: string): int
    requires AllLetters(s)
  {
    if s == "" then 0 else Number(s[..|s|-1]) * 64 + ValueOf(s[|s|-1])
  }

  // n as so many digits in base 256.
  ghost function Digits(n: int, count: nat): seq<Byte>
    decreases count
  {
    if count == 0 then [] else Digits(n / 256, count - 1) + [n % 256]
  }

  // What alphabet characters stand for: every four of them are a number in base 64
  // whose three bytes are its digits in base 256; two or three left over are the same
  // with the surplus bits cut off.
  ghost function BytesOf(s: string): seq<Byte>
    requires AllLetters(s)
    decreases |s|
  {
    if |s| >= 4 then Digits(Number(s[..4]), 3) + BytesOf(s[4..])
    else if |s| == 3 then Digits(Number(s) / 4, 2)
    else if |s| == 2 then Digits(Number(s) / 16, 1)
    else []
  }

  lemma NumberSnoc(s: string, c: char)
    requires AllLetters(s) && IsLetter(c)
    ensures AllLetters(s + [c]) && Number(s + [c]) == Number(s) * 64 + ValueOf(c)
  {
    hide IsLetter, ValueOf;
    assert (s + [c])[..|s|] == s;
  }

  lemma NumberOfOne(s: string)
    requires |s| == 1 && AllLetters(s)
    ensures Number(s) == ValueOf(s[0])
  {
    hide IsLetter, ValueOf;
    NumberSnoc("", s[0]);
    assert "" + [s[0]] == s;
  }

  lemma NumberOfTwo(s: string)
    requires |s| == 2 && AllLetters(s)
    ensures Number(s) == ValueOf(s[0]) * 64 + ValueOf(s[1])
  {
    hide IsLetter, ValueOf, Number;
    NumberOfOne(s[..1]);
    NumberSnoc(s[..1], s[1]);
    assert s[..1] + [s[1]] == s;
  }

  lemma NumberOfThree(s: string)
    requires |s| == 3 && AllLetters(s)
    ensures Number(s) == (ValueOf(s[0]) * 64 + ValueOf(s[1])) * 64 + ValueOf(s[2])
  {
    hide IsLetter, ValueOf, Number;
    NumberOfTwo(s[..2]);
    NumberSnoc(s[..2], s[2]);
    assert s[..2] + [s[2]] == s;
  }

  lemma NumberOfFour(s: string)
    requires |s| == 4 && AllLetters(s)
    ensures Number(s) == ((ValueOf(s[0]) * 64 + ValueOf(s[1])) * 64 + ValueOf(s[2])) * 64 + ValueOf(s[3])
  {
    hide IsLetter, ValueOf, Number;
    NumberOfThree(s[..3]);
    NumberSnoc(s[..3], s[3]);
    assert s[..3] + [s[3]] == s;
  }

  lemma DigitsAre(n: int)
    ensures Digits(n, 1) == [n % 256] && Digits(n, 2) == [n / 256 % 256, n % 256]
    ensures Digits(n, 3) == [n / 0x10000 % 256, n / 256 % 256, n % 256]
  {
    assert n / 256 / 256 == n / 0x10000;
    assert Digits(n, 1) == Digits(n / 256, 0) + [n % 256];
    assert Digits(n / 256, 1) == Digits(n / 0x10000, 0) + [n / 256 % 256];
    assert Digits(n / 0x10000, 1) == Digits(n / 0x10000 / 256, 0) + [n / 0x10000 % 256];
    assert Digits(n, 2) == Digits(n / 256, 1) + [n % 256];
    assert Digits(n / 256, 2) == Digits(n / 0x10000, 1) + [n / 256 % 256];
    assert Digits(n, 3) == Digits(n / 256, 2) + [n % 256];
  }

  lemma FourValues(v0: int, v1: int, v2: int, v3: int)
    requires 0 <= v0 < 64 && 0 <= v1 < 64 && 0 <= v2 < 64 && 0 <= v3 < 64
    ensures Digits(((v0 * 64 + v1) * 64 + v2) * 64 + v3, 3) == [v0 * 4 + v1 / 16, v1 % 16 * 16 + v2 / 4, v2 % 4 * 64 + v3]
  {
    hide Digits;
    var a, b, c := v0 * 4 + v1 / 16, v1 % 16 * 16 + v2 / 4, v2 % 4 * 64 + v3;
    ThreeDigits(a, b, c);
    assert ((v0 * 64 + v1) * 64 + v2) * 64 + v3 == a * 0x10000 + b * 0x100 + c;
  }

  lemma ThreeDigits(a: Byte, b: Byte, c: Byte)
    ensures Digits(a * 0x10000 + b * 0x100 + c, 3) == [a, b, c]
  {
    var n := a * 0x10000 + b * 0x100 + c;
    DigitsAre(n);
    hide Digits;
    assert n / 0x100 == a * 0x100 + b;
    assert n / 0x10000 == a;
  }

  lemma ThreeValues(v0: int, v1: int, v2: int)
    requires 0 <= v0 < 64 && 0 <= v1 < 64 && 0 <= v2 < 64
    ensures Digits(((v0 * 64 + v1) * 64 + v2) / 4, 2) == [v0 * 4 + v1 / 16, v1 % 16 * 16 + v2 / 4]
  {
    hide Digits;
    var a, b := v0 * 4 + v1 / 16, v1 % 16 * 16 + v2 / 4;
    assert (v0 * 64 + v1) * 64 + v2 == (a * 0x100 + b) * 4 + v2 % 4;
    Quarter(a * 0x100 + b, v2 % 4);
    TwoDigits(a, b);
  }

  lemma Quarter(x: int, r: int)
    requires 0 <= r < 4
    ensures (x * 4 + r) / 4 == x
  {}

  lemma TwoDigits(a: Byte, b: Byte)
    ensures Digits(a * 0x100 + b, 2) == [a, b]
  {
    DigitsAre(a * 0x100 + b);
    hide Digits;
  }

  lemma TwoValues(v0: int, v1: int)
    requires 0 <= v0 < 64 && 0 <= v1 < 64
    ensures Digits((v0 * 64 + v1) / 16, 1) == [v0 * 4 + v1 / 16]
  {
    DigitsAre((v0 * 64 + v1) / 16);
    assert (v0 * 64 + v1) / 16 == v0 * 4 + v1 / 16;
  }

  // One character moves either decoder on by one sextet.
  lemma ScanChar(c: char, s: string, quad: int, left: int, pads: nat, strict: bool)
    requires IsLetter(c) && LeftOver(quad, left)
    ensures var t, v := [c] + s, ValueOf(c);
            && (quad == 0 ==> Scan(t, quad, left, pads, false, strict) == Scan(s, 1, v, 0, false, strict))
            && (quad == 1 ==> Scan(t, quad, left, pads, false, strict)
                              == Prepend(left * 4 + v / 16, Scan(s, 2, v % 16, 0, false, strict)))
            && (quad == 2 ==> Scan(t, quad, left, pads, false, strict)
                              == Prepend(left * 16 + v / 4, Scan(s, 3, v % 4, 0, false, strict)))
            && (quad == 3 ==> Scan(t, quad, left, pads, false, strict)
                              == Prepend(left * 64 + v, Scan(s, 0, 0, 0, false, strict)))
  {
    hide Scan, SextetChar, IsLetter, HasValue, ValueOf;
    CharOf(c);
    ScanSextet(ValueOf(c), s, quad, left, pads, strict);
  }

  lemma CharOf(c: char)
    requires IsLetter(c)
    ensures SextetChar(ValueOf(c)) == c
  {
    InAlphabet(c);
    hide Sextet, SextetChar, IsLetter, HasValue;
  }

  function PrependAll(b: seq<Byte>, rest: Option<seq<Byte>>): Option<seq<Byte>> {
    if rest.None? then None else Some(b + rest.value)
  }

  lemma PrependThree(a: Byte, b: Byte, c: Byte, rest: Option<seq<Byte>>)
    ensures Prepend(a, Prepend(b, Prepend(c, rest))) == PrependAll([a, b, c], rest)
  {
    if rest.Some? {
      assert [a] + ([b] + ([c] + rest.value)) == [a, b, c] + rest.value;
    }
  }

  // The bytes of a full group, in terms of its characters.
  lemma GroupBytes(s: string)
    requires |s| == 4 && AllLetters(s)
    ensures var v0, v1, v2, v3 := ValueOf(s[0]), ValueOf(s[1]), ValueOf(s[2]), ValueOf(s[3]);
            Digits(Number(s), 3) == [v0 * 4 + v1 / 16, v1 % 16 * 16 + v2 / 4, v2 % 4 * 64 + v3]
  {
    hide IsLetter, ValueOf, Number, Digits, HasValue;
    NumberOfFour(s);
    FourValues(ValueOf(s[0]), ValueOf(s[1]), ValueOf(s[2]), ValueOf(s[3]));
  }

  lemma ScanFour(s: string, rest: string, strict: bool)
    requires |s| == 4 && AllLetters(s)
    ensures Scan(s + rest, 0, 0, 0, false, strict) == PrependAll(Digits(Number(s), 3), Scan(rest, 0, 0, 0, false, strict))
  {
    hide Scan, ValueOf, Number, Digits, HasValue, IsLetter;
    GroupBytes(s);
    var v0, v1, v2, v3 := ValueOf(s[0]), ValueOf(s[1]), ValueOf(s[2]), ValueOf(s[3]);
    var t3 := [s[3]] + rest;
    var t2 := [s[2]] + t3;
    var t1 := [s[1]] + t2;
    assert s + rest == [s[0]] + t1;
    ScanChar(s[0], t1, 0, 0, 0, strict);
    ScanChar(s[1], t2, 1, v0, 0, strict);
    ScanChar(s[2], t3, 2, v1 % 16, 0, strict);
    ScanChar(s[3], rest, 3, v2 % 4, 0, strict);
    PrependThree(v0 * 4 + v1 / 16, v1 % 16 * 16 + v2 / 4, v2 % 4 * 64 + v3, Scan(rest, 0, 0, 0, false, strict));
  }

  // --- what is accepted ---

  ghost predicate AllPads(s: string) {
    forall i :: 0 <= i < |s| ==> s[i] == '='
  }

  // Padding that completes n alphabet characters: the strict decoder wants exactly what
  // is missing, the tolerant one at least that; none is missing after a full group.
  ghost predicate Completes(n: nat, pads: nat, strict: bool) {
    || n % 4 == 0
    || (n % 4 == 2 && if strict then pads == 2 else pads >= 2)
    || (n % 4 == 3 && if strict then pads == 1 else pads >= 1)
  }

  lemma {:induction false} PadsAfterOne(p: string, left: int, pads: nat, padded: bool, strict: bool)
    requires AllPads(p) && 0 <= left < 64
    ensures Scan(p, 1, left, pads, padded, strict) == None
    decreases |p|
  {
    if p != "" {
      PadsAfterOne(p[1..], left, pads, true, strict);
    }
  }

  lemma PadsAfter(p: string, quad: int, left: int, strict: bool)
    requires AllPads(p) && LeftOver(quad, left)
    ensures Scan(p, quad, left, 0, false, strict) == if Completes(quad, |p|, strict) then Some([]) else None
  {
    if quad == 0 {
      ScanPadding(p, 0, false, strict);
    } else if quad == 1 {
      PadsAfterOne(p, left, 0, false, strict);
    } else if quad == 2 {
      if |p| >= 2 {
        assert p[1..][0] == '=' && p[1..][1..] == p[2..];
        assert Scan(p, quad, left, 0, false, strict) == Scan(p[1..], quad, left, 1, true, strict);
      }
    }
  }

  lemma ScanNone(p: string, strict: bool)
    requires AllPads(p)
    ensures Scan("" + p, 0, 0, 0, false, strict) == Some(BytesOf(""))
  {
    assert "" + p == p;
    PadsAfter(p, 0, 0, strict);
    hide Scan;
  }

  lemma ScanOne(s: string, p: string, strict: bool)
    requires |s| == 1 && AllLetters(s) && AllPads(p)
    ensures Scan(s + p, 0, 0, 0, false, strict) == None
  {
    hide Scan, ValueOf, HasValue, AllPads, IsLetter;
    assert s + p == [s[0]] + p;
    ScanChar(s[0], p, 0, 0, 0, strict);
    PadsAfter(p, 1, ValueOf(s[0]), strict);
  }

  lemma ScanTwo(s: string, p: string, strict: bool)
    requires |s| == 2 && AllLetters(s) && AllPads(p)
    ensures Scan(s + p, 0, 0, 0, false, strict) == if Completes(2, |p|, strict) then Some(BytesOf(s)) else None
  {
    hide Scan, ValueOf, HasValue, AllPads, IsLetter, Number, Digits;
    var v0, v1 := ValueOf(s[0]), ValueOf(s[1]);
    var t1 := [s[1]] + p;
    assert s + p == [s[0]] + t1;
    ScanChar(s[0], t1, 0, 0, 0, strict);
    ScanChar(s[1], p, 1, v0, 0, strict);
    PadsAfter(p, 2, v1 % 16, strict);
    NumberOfTwo(s);
    TwoValues(v0, v1);
    assert BytesOf(s) == [v0 * 4 + v1 / 16] && [v0 * 4 + v1 / 16] + [] == [v0 * 4 + v1 / 16];
  }

  lemma ScanThree(s: string, p: string, strict: bool)
    requires |s| == 3 && AllLetters(s) && AllPads(p)
    ensures Scan(s + p, 0, 0, 0, false, strict) == if Completes(3, |p|, strict) then Some(BytesOf(s)) else None
  {
    hide Scan, ValueOf, HasValue, AllPads, IsLetter, Number, Digits;
    var v0, v1, v2 := ValueOf(s[0]), ValueOf(s[1]), ValueOf(s[2]);
    var t2 := [s[2]] + p;
    var t1 := [s[1]] + t2;
    assert s + p == [s[0]] + t1;
    ScanChar(s[0], t1, 0, 0, 0, strict);
    ScanChar(s[1], t2, 1, v0, 0, strict);
    ScanChar(s[2], p, 2, v1 % 16, 0, strict);
    PadsAfter(p, 3, v2 % 4, strict);
    NumberOfThree(s);
    ThreeValues(v0, v1, v2);
    var a, b := v0 * 4 + v1 / 16, v1 % 16 * 16 + v2 / 4;
    assert BytesOf(s) == [a, b] && [a] + ([b] + []) == [a, b];
  }

  lemma {:induction false} ScanData(s: string, p: string, strict: bool)
    requires AllLetters(s) && AllPads(p)
    ensures Scan(s + p, 0, 0, 0, false, strict) == if Completes(|s|, |p|, strict) then Some(BytesOf(s)) else None
    decreases |s|
  {
    hide Scan, AllPads, ValueOf, IsLetter, Number, Digits;
    if s == "" {
      ScanNone(p, strict);
    } else if |s| == 1 {
      ScanOne(s, p, strict);
    } else if |s| == 2 {
      ScanTwo(s, p, strict);
    } else if |s| == 3 {
      ScanThree(s, p, strict);
    } else {
      ScanData(s[4..], p, strict);
      ScanGroupThen(s, p, strict);
    }
  }

  lemma ScanGroupThen(s: string, p: string, strict: bool)
    requires |s| >= 4 && AllLetters(s)
    requires Scan(s[4..] + p, 0, 0, 0, false, strict) == if Completes(|s| - 4, |p|, strict) then Some(BytesOf(s[4..])) else None
    ensures Scan(s + p, 0, 0, 0, false, strict) == if Completes(|s|, |p|, strict) then Some(BytesOf(s)) else None
  {
    hide Scan, ValueOf, IsLetter, Number, Digits;
    ScanFour(s[..4], s[4..] + p, strict);
    assert s + p == s[..4] + (s[4..] + p);
    assert BytesOf(s) == Digits(Number(s[..4]), 3) + BytesOf(s[4..]);
    hide BytesOf;
  }

  // After padding the strict decoder takes nothing but padding.
  lemma {:induction false} DataAfterPads(s: string, i: nat, quad: int, left: int, pads: nat)
    requires LeftOver(quad, left) && i < |s| && s[i] != '='
    ensures Scan(s, quad, left, pads, true, true) == None
    decreases |s|
  {
    if s[0] == '=' && !(quad >= 2 && quad + pads + 1 >= 4) {
      assert s[1..][i-1] == s[i];
      DataAfterPads(s[1..], i - 1, quad, left, if quad >= 2 then pads + 1 else pads);
    }
  }

  lemma {:induction false} PadsThenData(s: string, n: nat, i: nat, quad: int, left: int, pads: nat)
    requires LeftOver(quad, left) && n < i < |s| && s[n] == '=' && s[i] != '='
    ensures Scan(s, quad, left, pads, false, true) == None
    decreases |s|, n
  {
    if n == 0 {
      if !(quad >= 2 && quad + pads + 1 >= 4) {
        assert s[1..][i-1] == s[i];
        DataAfterPads(s[1..], i - 1, quad, left, if quad >= 2 then pads + 1 else pads);
      }
    } else if s[0] == '=' {
      PadsThenData(s, 0, i, quad, left, pads);
    } else if Sextet(s[0]).Some? {
      assert s[1..][n-1] == s[n] && s[1..][i-1] == s[i];
      var v := Sextet(s[0]).value;
      var (q, l) := if quad == 0 then (1, v) else if quad == 1 then (2, v % 16) else if quad == 2 then (3, v % 4) else (0, 0);
      PadsThenData(s[1..], n - 1, i - 1, q, l, 0);
    }
  }

  lemma AlphabetIsAscii(c: char)
    requires IsLetter(c)
    ensures c < '\U{80}' && c != '='
  {
    InAlphabet(c);
    AsciiSextet(c);
    hide Sextet;
  }

  lemma AsciiSextet(c: char)
    requires Sextet(c).Some?
    ensures c < '\U{80}' && c != '='
  {}

  // The strict decoder accepts alphabet characters with exactly the padding they call
  // for, and reads them as numbers; it refuses everything else.
  lemma StrictExactly(s: string, n: nat)
    requires n <= |s| && AllLetters(s[..n]) && (n < |s| ==> !IsLetter(s[n]))
    ensures StrictDecode(s)
         == if AllPads(s[n..]) && (n > 0 || s == "") && Completes(n, |s| - n, true) then Some(BytesOf(s[..n])) else None
  {
    hide Scan, BytesOf, IsLetter, Completes;
    assert s == s[..n] + s[n..];
    if AllPads(s[n..]) {
      ScanData(s[..n], s[n..], true);
      assert IsAscii(s) by {
        forall i | 0 <= i < |s| ensures s[i] < '\U{80}' {
          if i < n {
            AlphabetIsAscii(s[..n][i]);
          } else {
            assert s[i] == s[n..][i-n];
          }
        }
      }
      if n > 0 {
        AlphabetIsAscii(s[..n][0]);
      } else if s != "" {
        assert s[0] == s[n..][0];
      }
    } else {
      var i :| 0 <= i < |s| - n && s[n..][i] != '=';
      InAlphabet(s[n]);
      if s[n] == '=' {
        PadsThenData(s, n, n + i, 0, 0, 0);
      } else {
        StrictRefuses(s, n, 0, 0, 0, false);
      }
      hide Sextet;
    }
  }

  // --- what the tolerant decoder overlooks ---

  // A character outside both alphabets makes no difference to it.
  lemma {:induction false} JunkSkipped(a: string, c: char, t: string, quad: int, left: int, pads: nat, padded: bool)
    requires LeftOver(quad, left) && Sextet(c).None? && c != '='
    ensures Scan(a + [c] + t, quad, left, pads, padded, false) == Scan(a + t, quad, left, pads, padded, false)
    decreases |a|
  {
    var s := a + [c] + t;
    if a == "" {
      assert s[0] == c && s[1..] == t && a + t == t;
    } else {
      var b := a[1..];
      assert s[0] == a[0] && s[1..] == b + [c] + t && (a + t)[0] == a[0] && (a + t)[1..] == b + t;
      if a[0] == '=' {
        JunkSkipped(b, c, t, quad, left, if quad >= 2 then pads + 1 else pads, true);
      } else if Sextet(a[0]).None? {
        JunkSkipped(b, c, t, quad, left, pads, padded);
      } else {
        var v := Sextet(a[0]).value;
        var (q, l) := if quad == 0 then (1, v) else if quad == 1 then (2, v % 16) else if quad == 2 then (3, v % 4) else (0, 0);
        JunkSkipped(b, c, t, q, l, 0, padded);
      }
    }
  }

  lemma JunkIgnored(a: string, c: char, t: string)
    requires c < '\U{80}' && !IsLetter(c) && c !in URL_ALPHABET && c != '='
    ensures UrlDecode(a + [c] + t) == UrlDecode(a + t)
  {
    var s, r := a + [c] + t, a + t;
    assert FromUrl(c) == c by {
      UrlEnds();
    }
    InAlphabet(c);
    var a', t' := Translate(a, FromUrl), Translate(t, FromUrl);
    assert Translate(s, FromUrl) == a' + [c] + t' && Translate(r, FromUrl) == a' + t';
    JunkSkipped(a', c, t', 0, 0, 0, false);
    JunkIsAscii(a', c, t');
    hide Scan, Sextet;
  }

  lemma UrlEnds()
    ensures '-' in URL_ALPHABET && '_' in URL_ALPHABET
  {
    AlphabetExactly(62);
    AlphabetExactly(63);
    assert URL_ALPHABET[62] == '-' && URL_ALPHABET[63] == '_';
  }

  lemma JunkIsAscii(a: string, c: char, t: string)
    requires c < '\U{80}'
    ensures IsAscii(a + [c] + t) <==> IsAscii(a + t)
  {
    var s, r := a + [c] + t, a + t;
    assert forall i :: 0 <= i < |s| ==> s[i] == if i < |a| then a[i] else if i == |a| then c else t[i - |a| - 1];
    assert forall i :: 0 <= i < |r| ==> r[i] == if i < |a| then a[i] else t[i - |a|];
    if IsAscii(r) {
      forall i | 0 <= i < |s| ensures s[i] < '\U{80}' {
        assert i > |a| ==> s[i] == r[i-1];
        assert i < |a| ==> s[i] == r[i];
      }
    }
    if IsAscii(s) {
      forall i | 0 <= i < |r| ensures r[i] < '\U{80}' {
        assert i >= |a| ==> r[i] == s[i+1];
        assert i < |a| ==> r[i] == s[i];
      }
    }
  }

  // What the strict decoder reads the tolerant one reads the same.
  lemma {:induction false} TolerantScansToo(s: string, quad: int, left: int, pads: nat, padded: bool)
    requires LeftOver(quad, left) && Scan(s, quad, left, pads, padded, true).Some?
    ensures Scan(s, quad, left, pads, padded, false) == Scan(s, quad, left, pads, padded, true)
    decreases |s|
  {
    if s != "" {
      if s[0] == '=' {
        if !(quad >= 2 && quad + pads + 1 >= 4) {
          TolerantScansToo(s[1..], quad, left, if quad >= 2 then pads + 1 else pads, true);
        }
      } else {
        var v := Sextet(s[0]).value;
        var (q, l) := if quad == 0 then (1, v) else if quad == 1 then (2, v % 16) else if quad == 2 then (3, v % 4) else (0, 0);
        TolerantScansToo(s[1..], q, l, 0, padded);
      }
    }
  }

  lemma TolerantReadsToo(s: string)
    requires StrictDecode(s).Some?
    ensures UrlDecode(s) == StrictDecode(s)
  {
    TolerantScansToo(s, 0, 0, 0, false);
    assert Translate(s, FromUrl) == s by {
      forall i | 0 <= i < |s| ensures FromUrl(s[i]) == s[i] {
        if s[i] == '-' || s[i] == '_' {
          StrictRefuses(s, i, 0, 0, 0, false);
        }
      }
    }
    hide Scan;
  }

  // --- the parser, for any value ---

  // The strict attempt never changes the outcome: base64 text yields the key that the
  // tolerant reading of it carries, if any.
  lemma Base64KeyExactly(value: string, key: seq<Byte>)
    ensures DecodeBase64Key(value) == Some(key)
       <==> Strip(value) != "" && var read := UrlDecode(Strip(value) + Padding(|Strip(value)|));
                                  read.Some? && Normalize(read.value) == Some(key)
  {
    var padded := Strip(value) + Padding(|Strip(value)|);
    if StrictDecode(padded).Some? {
      TolerantReadsToo(padded);
    }
    hide StrictDecode, UrlDecode, Normalize, Strip;
  }

  // Bytes are a key or nothing; text is hex text of a key, or base64 that carries one;
  // no other value is.
  ghost predicate IsFor(value: Value, key: seq<Byte>) {
    match value
    case Bytes(b) => b == key && |b| == 16
    case ByteArray(b) => b == key && |b| == 16
    case Str(text) => (|key| == 16 && HexText(Strip(text), key)) || DecodeBase64Key(Strip(text)) == Some(key)
    case OtherValue => false
  }

  lemma ParsesExactly(value: Value, preferHex: bool, key: seq<Byte>)
    ensures ParseCandidate(value, preferHex) == Some(key) <==> IsFor(value, key)
  {
    if value.Str? {
      var raw := Strip(value.text);
      PreferenceIsIrrelevant(value);
      HexTextExactly(raw, key);
      EmptyHexText(key);
      if KeyFromHex(raw).Some? {
        HexIsNoBase64Key(raw);
      }
      assert raw == "" ==> Strip(raw) == "";
      hide HexText, FromHex, Strip;
    }
  }

  lemma EmptyHexText(key: seq<Byte>)
    ensures HexText("", key) ==> key == []
  {}

  // What is left of a text without white space, double quotes and single quotes around.
  ghost predicate Unwraps(text: string, inner: string) {
    inner == StripBoth(StripBoth(Strip(text), c => c == '"'), c => c == '\'')
  }

  ghost predicate HoldsHexText(decoded: seq<Byte>, text: string, inner: string, key: seq<Byte>) {
    decoded == TextBytes(text) && Unwraps(text, inner) && HexText(inner, key)
  }

  // What decoded bytes carry: the key itself, or hex text within white space and quotes,
  // in UTF-8.
  lemma NormalizesExactly(decoded: seq<Byte>, key: seq<Byte>)
    ensures Normalize(decoded) == Some(key)
       <==> |key| == 16 && if |decoded| == 16 then decoded == key
                           else exists text, inner :: HoldsHexText(decoded, text, inner, key)
  {
    if |decoded| != 16 {
      if Normalize(decoded) == Some(key) {
        var text := Utf8Decode(decoded).value;
        var inner := StripBoth(StripBoth(Strip(text), c => c == '"'), c => c == '\'');
        Utf8Exactly(decoded, text);
        HexTextExactly(inner, key);
        assert HoldsHexText(decoded, text, inner, key);
      }
      if text, inner :| HoldsHexText(decoded, text, inner, key) && |key| == 16 {
        Utf8Exactly(decoded, text);
        HexTextExactly(inner, key);
        EmptyHexText(key);
      }
    }
  }

  // --- what the sender prints ---

  lemma {:induction false} PrintedDigits(b: seq<Byte>, i: nat)
    requires i < |b|
    ensures |ToHex(b)| == 2 * |b|
    ensures ToHex(b)[2 * i] == "0123456789abcdef"[b[i] / 16] && ToHex(b)[2 * i + 1] == "0123456789abcdef"[b[i] % 16]
    decreases |b|
  {
    DigitPrinted(b[0] / 16);
    DigitPrinted(b[0] % 16);
    hide HexDigit;
    if |b| > 1 {
      PrintedDigits(b[1..], if i > 0 then i - 1 else 0);
    } else {
      assert ToHex(b[1..]) == "";
    }
  }

  lemma DigitPrinted(v: int)
    requires 0 <= v < 16
    ensures HexDigit(v) == "0123456789abcdef"[v]
  {}

  // The wire form of a key is base64 of the text of its lower-case hex digits.
  lemma OutboundIsHexText(key: seq<Byte>)
    requires |key| == 16
    ensures IsAscii(ToHex(key)) && |ToHex(key)| == 32
    ensures StrictDecode(EncodeOutboundKey(key)) == Some(TextBytes(ToHex(key)))
    ensures forall i :: 0 <= i < 16 ==>
              ToHex(key)[2 * i] == "0123456789abcdef"[key[i] / 16] && ToHex(key)[2 * i + 1] == "0123456789abcdef"[key[i] % 16]
  {
    hide ToHex, Scan, Encode;
    ToHexAscii(key);
    AsciiText(ToHex(key));
    DecodeEncoded(AsciiBytes(ToHex(key)));
    forall i | 0 <= i < 16
      ensures ToHex(key)[2 * i] == "0123456789abcdef"[key[i] / 16] && ToHex(key)[2 * i + 1] == "0123456789abcdef"[key[i] % 16]
    {
      PrintedDigits(key, i);
    }
  }

  // Of one or two bytes left over, the encoder fills up the last character with zeros.
  lemma TailsAreFilled(a: Byte, b: Byte)
    ensures |Encode([a])| == 4 && AllLetters(Encode([a])[..2]) && Number(Encode([a])[..2]) == a * 16
    ensures |Encode([a, b])| == 4 && AllLetters(Encode([a, b])[..3]) && Number(Encode([a, b])[..3]) == (a * 256 + b) * 4
  {
    EncodeOne(a);
    EncodeTwo(a, b);
    SextetsHoldBytes(a, b, 0);
    SextetsHoldBytes(a, 0, 0);
    var x0, x1, y1, y2 := Sextet0(a), Sextet1(a, 0), Sextet1(a, b), Sextet2(b, 0);
    assert x0 * 64 + x1 == a * 16 && (x0 * 64 + y1) * 64 + y2 == (a * 256 + b) * 4;
    hide Encode, Sextet0, Sextet1, Sextet2, SextetChar, Number, ValueOf, IsLetter;
    CharValue(x0);
    CharValue(x1);
    CharValue(y1);
    CharValue(y2);
    var s, t := Encode([a])[..2], Encode([a, b])[..3];
    assert s == [SextetChar(x0), SextetChar(x1)] && t == [SextetChar(x0), SextetChar(y1), SextetChar(y2)];
    NumberOfTwo(s);
    NumberOfThree(t);
  }

  lemma CharValue(v: int)
    requires 0 <= v < 64
    ensures IsLetter(SextetChar(v)) && ValueOf(SextetChar(v)) == v
  {
    InAlphabet(SextetChar(v));
    hide SextetChar, IsLetter;
  }
}
