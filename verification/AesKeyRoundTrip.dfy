// Round trips of the key codec, and why the order in which the parser tries its
// decoders never matters.
module AesKeyRoundTrip {
  import opened Wrappers
  import opened AesKeyCodec
  import opened AesKeyText

  // --- base64 decodes what it encodes, in either mode ---

  // A number below 64 * 64 * 64 * 64 is cut into the sextets it was put together from.
  lemma Sextets(v0: int, v1: int, v2: int, v3: int)
    requires 0 <= v0 < 64 && 0 <= v1 < 64 && 0 <= v2 < 64 && 0 <= v3 < 64
    ensures var n := v0 * 0x40000 + v1 * 0x1000 + v2 * 64 + v3;
            n / 0x40000 == v0 && n / 0x1000 % 64 == v1 && n / 64 % 64 == v2 && n % 64 == v3
  {
    var n := v0 * 0x40000 + v1 * 0x1000 + v2 * 64 + v3;
    assert n / 64 == v0 * 0x1000 + v1 * 64 + v2;
    assert n / 0x1000 == v0 * 64 + v1;
  }

  // The sextets of a group, and how they hold its bytes.
  lemma GroupBits(a: Byte, b: Byte, c: Byte)
    ensures var n := Group(a, b, c);
            && 0 <= n < 0x1000000
            && n / 0x40000 == a / 4 && n / 0x1000 % 64 == a % 4 * 16 + b / 16
            && n / 64 % 64 == b % 16 * 4 + c / 64 && n % 64 == c % 64
  {
    Sextets(a / 4, a % 4 * 16 + b / 16, b % 16 * 4 + c / 64, c % 64);
  }

  // One sextet character moves the decoder by one step.
  lemma ScanSextet(v: int, s: string, quad: int, left: int, pads: nat, strict: bool)
    requires 0 <= v < 64 && LeftOver(quad, left)
    ensures var t := [SextetChar(v)] + s;
            && (quad == 0 ==> Scan(t, quad, left, pads, false, strict) == Scan(s, 1, v, 0, false, strict))
            && (quad == 1 ==> Scan(t, quad, left, pads, false, strict)
                              == Prepend(left * 4 + v / 16, Scan(s, 2, v % 16, 0, false, strict)))
            && (quad == 2 ==> Scan(t, quad, left, pads, false, strict)
                              == Prepend(left * 16 + v / 4, Scan(s, 3, v % 4, 0, false, strict)))
            && (quad == 3 ==> Scan(t, quad, left, pads, false, strict)
                              == Prepend(left * 64 + v, Scan(s, 0, 0, 0, false, strict)))
  {
    assert ([SextetChar(v)] + s)[1..] == s;
  }

  // The sextets of three bytes.
  function Sextet0(a: Byte): int { a / 4 }
  function Sextet1(a: Byte, b: Byte): int { a % 4 * 16 + b / 16 }
  function Sextet2(b: Byte, c: Byte): int { b % 16 * 4 + c / 64 }
  function Sextet3(c: Byte): int { c % 64 }

  lemma SextetsHoldBytes(a: Byte, b: Byte, c: Byte)
    ensures 0 <= Sextet0(a) < 64 && 0 <= Sextet1(a, b) < 64 && 0 <= Sextet2(b, c) < 64 && 0 <= Sextet3(c) < 64
    ensures Sextet0(a) * 4 + Sextet1(a, b) / 16 == a
    ensures Sextet1(a, b) % 16 * 16 + Sextet2(b, c) / 4 == b
    ensures Sextet2(b, c) % 4 * 64 + Sextet3(c) == c
  {}

  // The group's characters, one by one.
  lemma GroupFront(a: Byte, b: Byte, c: Byte)
    ensures 0 <= Group(a, b, c) < 0x1000000
    ensures 0 <= Sextet0(a) < 64 && 0 <= Sextet1(a, b) < 64 && 0 <= Sextet2(b, c) < 64 && 0 <= Sextet3(c) < 64
    ensures GroupChars(Group(a, b, c))
            == [SextetChar(Sextet0(a)), SextetChar(Sextet1(a, b)), SextetChar(Sextet2(b, c)), SextetChar(Sextet3(c))]
  {
    GroupBits(a, b, c);
  }

  lemma ScanGroup(a: Byte, b: Byte, c: Byte, rest: string, strict: bool)
    ensures 0 <= Group(a, b, c) < 0x1000000
    ensures Scan(GroupChars(Group(a, b, c)) + rest, 0, 0, 0, false, strict)
            == Prepend(a, Prepend(b, Prepend(c, Scan(rest, 0, 0, 0, false, strict))))
  {
    GroupFront(a, b, c);
    SextetsHoldBytes(a, b, c);
    hide Scan, SextetChar, Sextet0, Sextet1, Sextet2, Sextet3, GroupChars, Group;
    var v0, v1, v2, v3 := Sextet0(a), Sextet1(a, b), Sextet2(b, c), Sextet3(c);
    var t3 := [SextetChar(v3)] + rest;
    var t2 := [SextetChar(v2)] + t3;
    var t1 := [SextetChar(v1)] + t2;
    assert GroupChars(Group(a, b, c)) + rest == [SextetChar(v0)] + t1;
    ScanSextet(v0, t1, 0, 0, 0, strict);
    ScanSextet(v1, t2, 1, v0, 0, strict);
    ScanSextet(v2, t3, 2, v1 % 16, 0, strict);
    ScanSextet(v3, rest, 3, v2 % 4, 0, strict);
  }

  // A padded last group of one byte, and of two.
  lemma EncodeOne(a: Byte)
    ensures 0 <= Sextet0(a) < 64 && 0 <= Sextet1(a, 0) < 64
    ensures Encode([a]) == [SextetChar(Sextet0(a))] + ([SextetChar(Sextet1(a, 0))] + "==")
  {
    GroupFront(a, 0, 0);
    hide SextetChar, Group, GroupChars;
    assert Encode([a]) == GroupChars(Group(a, 0, 0))[..2] + "==";
  }

  lemma EncodeTwo(a: Byte, b: Byte)
    ensures 0 <= Sextet0(a) < 64 && 0 <= Sextet1(a, b) < 64 && 0 <= Sextet2(b, 0) < 64
    ensures Encode([a, b])
            == [SextetChar(Sextet0(a))] + ([SextetChar(Sextet1(a, b))] + ([SextetChar(Sextet2(b, 0))] + "="))
  {
    GroupFront(a, b, 0);
    hide SextetChar, Group, GroupChars;
    assert Encode([a, b]) == GroupChars(Group(a, b, 0))[..3] + "=";
  }

  lemma ScanLast(a: Byte, strict: bool)
    ensures Scan(Encode([a]), 0, 0, 0, false, strict) == Some([a])
  {
    hide Scan, SextetChar, Sextet0, Sextet1, Encode;
    EncodeOne(a);
    SextetsHoldBytes(a, 0, 0);
    var v0, v1 := Sextet0(a), Sextet1(a, 0);
    ScanSextet(v0, [SextetChar(v1)] + "==", 0, 0, 0, strict);
    ScanSextet(v1, "==", 1, v0, 0, strict);
    ScanPaddingEnds(v1 % 16, strict);
    assert [a] + [] == [a];
  }

  lemma ScanPaddingEnds(left: int, strict: bool)
    ensures 0 <= left < 16 ==> Scan("==", 2, left, 0, false, strict) == Some([])
    ensures 0 <= left < 4 ==> Scan("=", 3, left, 0, false, strict) == Some([])
  {
    assert "=="[1..] == "=";
    if 0 <= left < 16 {
      assert Scan("==", 2, left, 0, false, strict) == Scan("=", 2, left, 1, true, strict);
    }
  }

  lemma ScanLastTwo(a: Byte, b: Byte, strict: bool)
    ensures Scan(Encode([a, b]), 0, 0, 0, false, strict) == Some([a, b])
  {
    hide Scan, SextetChar, Sextet0, Sextet1, Sextet2, Encode;
    EncodeTwo(a, b);
    SextetsHoldBytes(a, b, 0);
    var v0, v1, v2 := Sextet0(a), Sextet1(a, b), Sextet2(b, 0);
    var t2 := [SextetChar(v2)] + "=";
    ScanSextet(v0, [SextetChar(v1)] + t2, 0, 0, 0, strict);
    ScanSextet(v1, t2, 1, v0, 0, strict);
    ScanSextet(v2, "=", 2, v1 % 16, 0, strict);
    ScanPaddingEnds(v2 % 4, strict);
    assert [a] + ([b] + []) == [a, b];
  }

  lemma {:induction false} ScanEncoded(b: seq<Byte>, strict: bool)
    ensures Scan(Encode(b), 0, 0, 0, false, strict) == Some(b)
    decreases |b|
  {
    if |b| == 0 {
    } else if |b| == 1 {
      assert b == [b[0]];
      ScanLast(b[0], strict);
    } else if |b| == 2 {
      assert b == [b[0], b[1]];
      ScanLastTwo(b[0], b[1], strict);
    } else {
      ScanEncoded(b[3..], strict);
      ScanGroup(b[0], b[1], b[2], Encode(b[3..]), strict);
      assert b == [b[0]] + ([b[1]] + ([b[2]] + b[3..]));
    }
  }

  // --- the shape of encoded text ---

  predicate IsBase64Char(c: char) {
    Sextet(c).Some?
  }

  // Alphabet characters followed by the padding the length calls for.
  ghost predicate Encoded(s: string, n: nat) {
    && n <= |s|
    && (forall i :: 0 <= i < n ==> IsBase64Char(s[i]))
    && s[n..] == Padding(n) && |s| % 4 == 0
  }

  // The number of alphabet characters in the encoding of n bytes.
  function Length(n: nat): nat {
    n / 3 * 4 + if n % 3 == 0 then 0 else n % 3 + 1
  }

  lemma GroupCharsShape(a: Byte, b: Byte, c: Byte)
    ensures 0 <= Group(a, b, c) < 0x1000000
    ensures forall i :: 0 <= i < 4 ==> IsBase64Char(GroupChars(Group(a, b, c))[i])
  {}

  lemma EncodedCons(g: string, t: string, n: nat)
    requires |g| == 4 && (forall i :: 0 <= i < 4 ==> IsBase64Char(g[i])) && Encoded(t, n)
    ensures Encoded(g + t, 4 + n)
  {
    var s := g + t;
    forall i | 0 <= i < 4 + n ensures IsBase64Char(s[i]) {
      assert s[i] == if i < 4 then g[i] else t[i-4];
    }
    assert s[4 + n..] == t[n..];
  }

  lemma EncodedEnd(g: string, n: nat)
    requires |g| == 4 && (forall i :: 0 <= i < 4 ==> IsBase64Char(g[i])) && 2 <= n < 4
    ensures Encoded(g[..n] + Padding(n), n)
  {
    assert (g[..n] + Padding(n))[n..] == Padding(n);
  }

  lemma LengthStep(n: nat)
    requires n >= 3
    ensures Length(n) == 4 + Length(n - 3)
  {}

  lemma EncodeShapeLast(b: seq<Byte>)
    requires 1 <= |b| <= 2
    ensures Encoded(Encode(b), Length(|b|))
  {
    hide Encoded, GroupChars, Group, Padding;
    var c: Byte := if |b| == 2 then b[1] else 0;
    GroupCharsShape(b[0], c, 0);
    PaddingOf();
    EncodedEnd(GroupChars(Group(b[0], c, 0)), |b| + 1);
  }

  lemma PaddingOf()
    ensures Padding(2) == "==" && Padding(3) == "="
  {}

  lemma EncodeCons(b: seq<Byte>)
    requires |b| > 2
    ensures Encode(b) == GroupChars(Group(b[0], b[1], b[2])) + Encode(b[3..])
  {
    hide GroupChars, Group;
  }

  lemma EncodeShapeStep(b: seq<Byte>)
    requires |b| > 2 && Encoded(Encode(b[3..]), Length(|b| - 3))
    ensures Encoded(Encode(b), Length(|b|))
  {
    hide Encoded, GroupChars, Group, Length, Encode, IsBase64Char;
    GroupCharsShape(b[0], b[1], b[2]);
    var g := GroupChars(Group(b[0], b[1], b[2]));
    EncodeCons(b);
    EncodedCons(g, Encode(b[3..]), Length(|b| - 3));
    LengthStep(|b|);
  }

  lemma EncodeShapeNone()
    ensures Encoded(Encode([]), Length(0))
  {}

  lemma {:induction false} EncodeShape(b: seq<Byte>)
    ensures Encoded(Encode(b), Length(|b|))
    decreases |b|
  {
    hide Encoded, Encode, Length;
    if b == [] {
      EncodeShapeNone();
    } else if |b| <= 2 {
      EncodeShapeLast(b);
    } else {
      EncodeShape(b[3..]);
      EncodeShapeStep(b);
    }
  }

  // Both modes decode an encoding; what was unpadded gets its padding back.
  lemma EncodedAscii(s: string, n: nat)
    requires Encoded(s, n)
    ensures IsAscii(s) && (s != "" ==> n > 0 && s[0] != '=')
    ensures s == s[..n] + Padding(n)
  {
    assert s == s[..n] + s[n..];
    forall i | 0 <= i < |s| ensures s[i] < '\U{80}' {
      assert i >= n ==> s[i] == s[n..][i-n];
    }
  }

  lemma UrlAndBack(s: string, n: nat)
    requires Encoded(s, n)
    ensures Translate(Translate(s, ToUrl), FromUrl) == s
  {
    var back := Translate(Translate(s, ToUrl), FromUrl);
    forall i | 0 <= i < |s| ensures back[i] == s[i] {
      assert back[i] == FromUrl(ToUrl(s[i]));
      if i >= n {
        assert s[i] == s[n..][i-n] && s[i] == '=';
      }
    }
  }

  lemma DecodeEncoded(b: seq<Byte>)
    ensures StrictDecode(Encode(b)) == Some(b) && UrlDecode(UrlEncode(b)) == Some(b)
  {
    hide Encode, Encoded, Scan;
    EncodeShape(b);
    EncodedAscii(Encode(b), Length(|b|));
    ScanEncoded(b, true);
    ScanEncoded(b, false);
    UrlAndBack(Encode(b), Length(|b|));
  }

  // --- hexadecimal text ---

  predicate IsHexText(s: string) {
    forall i :: 0 <= i < |s| ==> HexValue(s[i]).Some? || IsAsciiSpace(s[i])
  }

  function DigitCount(s: string): nat {
    if s == "" then 0 else (if IsAsciiSpace(s[0]) then 0 else 1) + DigitCount(s[1..])
  }

  lemma {:induction false} HexShape(s: string)
    requires FromHex(s).Some?
    ensures IsHexText(s) && DigitCount(s) == 2 * |FromHex(s).value|
    decreases |s|
  {
    if s != "" {
      if IsAsciiSpace(s[0]) {
        HexShape(s[1..]);
        assert forall i :: 0 < i < |s| ==> s[i] == s[1..][i-1];
      } else {
        HexShape(s[2..]);
        assert forall i :: 1 < i < |s| ==> s[i] == s[2..][i-2];
        assert s[1..][1..] == s[2..];
      }
    }
  }

  lemma {:induction false} DigitBounds(s: string)
    ensures DigitCount(s) <= |s|
    ensures (forall i :: 0 <= i < |s| ==> !IsAsciiSpace(s[i])) ==> DigitCount(s) == |s|
    decreases |s|
  {
    if s != "" {
      DigitBounds(s[1..]);
      assert forall i :: 0 < i < |s| ==> s[i] == s[1..][i-1];
    }
  }

  lemma {:induction false} HexPrints(b: seq<Byte>)
    ensures FromHex(ToHex(b)) == Some(b)
    decreases |b|
  {
    if b != [] {
      HexPrints(b[1..]);
      var s := ToHex(b);
      assert s[2..] == ToHex(b[1..]);
      assert HexByte(s[0], s[1]) == b[0] && !IsAsciiSpace(s[0]);
      assert b == [b[0]] + b[1..];
    }
  }

  // --- hexadecimal text misread as base64 ---

  lemma {:induction false} ScanPadding(s: string, pads: nat, padded: bool, strict: bool)
    requires forall i :: 0 <= i < |s| ==> s[i] == '='
    ensures Scan(s, 0, 0, pads, padded, strict) == Some([])
    decreases |s|
  {
    if s != "" {
      assert forall i :: 0 <= i < |s[1..]| ==> s[1..][i] == s[i+1];
      ScanPadding(s[1..], pads, true, strict);
    }
  }

  // Bytes written so far within a group of quad sextets.
  function Written(quad: int): int {
    if quad <= 1 then 0 else quad - 1
  }

  // Reading digits as sextets, a decoder that succeeds writes three bytes for
  // every four of them.
  lemma {:induction false} ScanHexText(s: string, tail: string, quad: int, left: int, pads: nat, strict: bool)
    requires IsHexText(s) && LeftOver(quad, left) && (quad + DigitCount(s)) % 4 == 0
    requires forall i :: 0 <= i < |tail| ==> tail[i] == '='
    ensures var r := Scan(s + tail, quad, left, pads, false, strict);
            r.None? || |r.value| == (quad + DigitCount(s)) / 4 * 3 - Written(quad)
    decreases |s|
  {
    if s == "" {
      assert s + tail == tail;
      ScanPadding(tail, pads, false, strict);
    } else {
      var t := s[1..];
      assert (s + tail)[1..] == t + tail && (s + tail)[0] == s[0];
      assert forall i :: 0 <= i < |t| ==> t[i] == s[i+1];
      if IsAsciiSpace(s[0]) {
        ScanHexText(t, tail, quad, left, pads, strict);
      } else {
        var v := Sextet(s[0]).value;
        if quad == 0 {
          ScanHexText(t, tail, 1, v, 0, strict);
        } else if quad == 1 {
          ScanHexText(t, tail, 2, v % 16, 0, strict);
        } else if quad == 2 {
          ScanHexText(t, tail, 3, v % 4, 0, strict);
        } else {
          ScanHexText(t, tail, 0, 0, 0, strict);
        }
      }
    }
  }

  lemma {:induction false} Utf8Length(b: seq<Byte>)
    requires Utf8Decode(b).Some?
    ensures |Utf8Decode(b).value| <= |b|
    decreases |b|
  {
    if b != [] {
      Utf8Length(b[FrontCodePoint(b).value.1..]);
    }
  }

  lemma {:induction false} StripLeftLength(s: string, drop: char -> bool)
    ensures |StripLeft(s, drop)| <= |s|
    decreases |s|
  {
    if s != "" && drop(s[0]) {
      StripLeftLength(s[1..], drop);
    }
  }

  lemma {:induction false} StripRightLength(s: string, drop: char -> bool)
    ensures |StripRight(s, drop)| <= |s|
    decreases |s|
  {
    if s != "" && drop(s[|s|-1]) {
      StripRightLength(s[..|s|-1], drop);
    }
  }

  lemma StripLength(s: string, drop: char -> bool)
    ensures |StripBoth(s, drop)| <= |s|
  {
    StripLeftLength(s, drop);
    StripRightLength(StripLeft(s, drop), drop);
  }

  // Fewer than 32 bytes that are not a key cannot be the hex form of one.
  lemma ShortIsNoKey(decoded: seq<Byte>)
    requires !IsKey(decoded) && |decoded| < 2 * KEY_LENGTH
    ensures Normalize(decoded) == None
  {
    var text := Utf8Decode(decoded);
    if text.Some? {
      Utf8Length(decoded);
      var t0 := Strip(text.value);
      StripLength(text.value, IsSpace);
      var t1 := StripBoth(t0, c => c == '"');
      StripLength(t0, c => c == '"');
      var t2 := StripBoth(t1, c => c == '\'');
      StripLength(t1, c => c == '\'');
      if FromHex(t2).Some? {
        HexShape(t2);
        DigitBounds(t2);
      }
    }
  }

  // The hard case: text that is the hex form of a key never yields a key when it
  // is read as base64, whichever decoder reads it.
  lemma HexIsNoBase64Key(raw: string)
    requires KeyFromHex(raw).Some?
    ensures DecodeBase64Key(raw) == None
  {
    HexShape(raw);
    var candidate := Strip(raw);
    StripKeepsDigits(raw);
    var padded := candidate + Padding(|candidate|);
    assert Translate(padded, FromUrl) == padded by {
      forall i | 0 <= i < |padded| ensures FromUrl(padded[i]) == padded[i] {
        if i < |candidate| {
          assert padded[i] == candidate[i];
        }
      }
    }
    ScanHexText(candidate, Padding(|candidate|), 0, 0, 0, true);
    ScanHexText(candidate, Padding(|candidate|), 0, 0, 0, false);
    if StrictDecode(padded).Some? {
      ShortIsNoKey(StrictDecode(padded).value);
    }
    if UrlDecode(padded).Some? {
      ShortIsNoKey(UrlDecode(padded).value);
    }
  }

  lemma {:induction false} StripLeftKeepsDigits(s: string)
    requires IsHexText(s)
    ensures IsHexText(StripLeft(s, IsSpace)) && DigitCount(StripLeft(s, IsSpace)) == DigitCount(s)
    decreases |s|
  {
    if s != "" && IsSpace(s[0]) {
      assert forall i :: 0 <= i < |s[1..]| ==> s[1..][i] == s[i+1];
      StripLeftKeepsDigits(s[1..]);
    }
  }

  lemma {:induction false} DigitsSnoc(s: string, c: char)
    ensures DigitCount(s + [c]) == DigitCount(s) + if IsAsciiSpace(c) then 0 else 1
    decreases |s|
  {
    if s == "" {
      assert s + [c] == [c] && [c][1..] == "";
    } else {
      assert (s + [c])[1..] == s[1..] + [c];
      DigitsSnoc(s[1..], c);
    }
  }

  lemma {:induction false} StripRightKeepsDigits(s: string)
    requires IsHexText(s)
    ensures IsHexText(StripRight(s, IsSpace)) && DigitCount(StripRight(s, IsSpace)) == DigitCount(s)
    decreases |s|
  {
    if s != "" && IsSpace(s[|s|-1]) {
      var init := s[..|s|-1];
      assert s == init + [s[|s|-1]];
      DigitsSnoc(init, s[|s|-1]);
      StripRightKeepsDigits(init);
    }
  }

  lemma StripKeepsDigits(s: string)
    requires IsHexText(s)
    ensures IsHexText(Strip(s)) && DigitCount(Strip(s)) == DigitCount(s)
  {
    StripLeftKeepsDigits(s);
    StripRightKeepsDigits(StripLeft(s, IsSpace));
  }

  // Whether hex or base64 is tried first makes no difference, for any value.
  lemma PreferenceIsIrrelevant(value: Value)
    ensures ParseCandidate(value, true) == ParseCandidate(value, false)
  {
    if value.Str? && KeyFromHex(Strip(value.text)).Some? {
      HexIsNoBase64Key(Strip(value.text));
    }
  }

  // --- every printed form parses to its key ---

  lemma {:induction false} StripNothing(s: string, drop: char -> bool)
    requires s != "" ==> !drop(s[0]) && !drop(s[|s|-1])
    ensures StripBoth(s, drop) == s
  {
    assert StripLeft(s, drop) == s;
  }

  // Strict reading refuses any foreign character.
  lemma {:induction false} StrictRefuses(s: string, i: nat, quad: int, left: int, pads: nat, padded: bool)
    requires LeftOver(quad, left) && i < |s| && Sextet(s[i]).None? && s[i] != '='
    ensures Scan(s, quad, left, pads, padded, true) == None
    decreases |s|
  {
    if i > 0 {
      assert s[1..][i-1] == s[i];
      if s[0] == '=' {
        StrictRefuses(s[1..], i - 1, quad, left, if quad >= 2 then pads + 1 else pads, true);
      } else if Sextet(s[0]).Some? && !padded {
        var v := Sextet(s[0]).value;
        var (q, l) := if quad == 0 then (1, v) else if quad == 1 then (2, v % 16) else if quad == 2 then (3, v % 4) else (0, 0);
        StrictRefuses(s[1..], i - 1, q, l, 0, padded);
      }
    }
  }

  // The four base64 forms of some bytes: either alphabet, padded or not.
  ghost predicate Base64Form(form: string, b: seq<Byte>) {
    var n := Length(|b|);
    && n <= |Encode(b)|
    && (form == Encode(b) || form == Encode(b)[..n] || form == UrlEncode(b) || form == UrlEncode(b)[..n])
  }

  lemma EncodingIsForm(b: seq<Byte>)
    ensures Base64Form(Encode(b), b)
  {
    EncodeShape(b);
    hide Encode;
  }

  lemma FormPadded(form: string, b: seq<Byte>)
    requires Base64Form(form, b)
    ensures form + Padding(|form|) == Encode(b) || form + Padding(|form|) == UrlEncode(b)
  {
    hide Encode, Encoded;
    EncodeShape(b);
    EncodedPadding(Encode(b), Length(|b|));
    assert form + "" == form;
  }

  // Padding what was cut off gives back the encoding, in either alphabet.
  lemma EncodedPadding(s: string, n: nat)
    requires Encoded(s, n)
    ensures var u := Translate(s, ToUrl);
            && s[..n] + Padding(n) == s && u[..n] + Padding(n) == u
            && Padding(|s|) == "" && Padding(|u|) == ""
  {
    var u := Translate(s, ToUrl);
    assert s[..n] + s[n..] == s && u[..n] + u[n..] == u;
    forall i | n <= i < |s| ensures u[i] == s[i] {
      assert s[i] == s[n..][i-n] && s[i] == '=';
    }
    assert u[n..] == s[n..];
  }

  // Both decoders in turn give back the bytes of either alphabet's encoding.
  lemma PaddedNormalizes(padded: string, b: seq<Byte>)
    requires padded == Encode(b) || padded == UrlEncode(b)
    requires Normalize(b).Some?
    ensures var first := StrictDecode(padded);
            if first.Some? then Normalize(first.value) == Normalize(b)
            else UrlDecode(padded) == Some(b)
  {
    var s, u := Encode(b), UrlEncode(b);
    DecodeEncoded(b);
    if padded != s {
      var i :| 0 <= i < |u| && u[i] != s[i];
      StrictRefuses(u, i, 0, 0, 0, false);
    }
  }

  lemma EncodedHasNoSpace(s: string, n: nat)
    requires Encoded(s, n)
    ensures forall i :: 0 <= i < |s| ==> !IsSpace(s[i]) && !IsSpace(ToUrl(s[i]))
  {
    forall i | 0 <= i < |s| ensures !IsSpace(s[i]) && !IsSpace(ToUrl(s[i])) {
      if i >= n {
        assert s[i] == s[n..][i-n];
      }
    }
  }

  lemma FormHasNoSpace(form: string, b: seq<Byte>)
    requires Base64Form(form, b) && b != []
    ensures form != "" && forall i :: 0 <= i < |form| ==> !IsSpace(form[i])
    ensures |form| == Length(|b|) || |form| == |Encode(b)|
  {
    hide Encode, Encoded, IsSpace;
    EncodeShape(b);
    EncodedHasNoSpace(Encode(b), Length(|b|));
  }

  // Base64 of anything that counts as a key parses to it: that text is no hex text.
  lemma Base64FormParses(form: string, b: seq<Byte>, text: string, preferHex: bool)
    requires Base64Form(form, b) && b != []
    requires Normalize(b).Some? && Strip(text) == form
    ensures ParseCandidate(Str(text), preferHex) == Normalize(b)
  {
    hide Encode, UrlEncode, Scan, A2B, Normalize, Base64Form, KeyFromHex;
    FormHasNoSpace(form, b);
    StripNothing(form, IsSpace);
    FormPadded(form, b);
    PaddedNormalizes(form + Padding(|form|), b);
    assert DecodeBase64Key(form) == Normalize(b);
    if KeyFromHex(form).Some? {
      HexIsNoBase64Key(form);
    }
  }

  lemma AsciiText(s: string)
    requires IsAscii(s)
    ensures AsciiBytes(s) == TextBytes(s)
    decreases |s|
  {
    if s != "" {
      AsciiText(s[1..]);
      assert AsciiBytes(s) == [s[0] as int] + AsciiBytes(s[1..]);
    }
  }

  // Printed hex is hex text.
  lemma PrintedIsHexText(key: seq<Byte>)
    ensures HexText(ToHex(key), key)
  {
    HexPrints(key);
    HexTextExactly(ToHex(key), key);
  }

  // Bytes that carry a key: its own, or those of its hex text, however it is wrapped.
  ghost predicate CarriesKey(b: seq<Byte>, key: seq<Byte>) {
    b == key || exists w :: GoodWrapping(w, key) && b == TextBytes(Wrapped(w))
  }

  lemma CarriedNormalizes(b: seq<Byte>, key: seq<Byte>)
    requires |key| == 16 && CarriesKey(b, key)
    ensures Normalize(b) == Some(key) && b != []
  {
    if b != key {
      var w :| GoodWrapping(w, key) && b == TextBytes(Wrapped(w));
      WrappedNormalizes(w, key);
      hide TextBytes, Wrapped, GoodWrapping;
    }
  }

  // All the ways a key may arrive: as hex text (either case, white space between
  // the bytes), or as base64 of bytes that carry it.
  ghost predicate KeyForm(form: string, key: seq<Byte>) {
    HexText(form, key) || exists b :: CarriesKey(b, key) && Base64Form(form, b)
  }

  // Every form of every key parses to that key, for either preference and with
  // white space around it.
  lemma EveryFormParses(form: string, key: seq<Byte>, text: string, preferHex: bool)
    requires |key| == 16 && KeyForm(form, key) && Strip(text) == form
    ensures ParseCandidate(Str(text), preferHex) == Some(key)
  {
    hide HexText, CarriesKey, Base64Form, Strip;
    if HexText(form, key) {
      HexTextExactly(form, key);
      PreferenceIsIrrelevant(Str(text));
      hide FromHex;
    } else {
      var b :| CarriesKey(b, key) && Base64Form(form, b);
      CarriedNormalizes(b, key);
      Base64FormParses(form, b, text, preferHex);
    }
  }

  // The hex text of a key, with nothing around it, is one way of wrapping it.
  lemma PrintedCarries(key: seq<Byte>)
    requires |key| == 16
    ensures IsAscii(ToHex(key)) && CarriesKey(AsciiBytes(ToHex(key)), key)
  {
    hide ToHex, HexText, IsBlank, HexValue;
    ToHexAscii(key);
    PrintedIsHexText(key);
    var s := ToHex(key);
    AsciiText(s);
    var w := Wrapping("", "", "", s, "", "", "");
    assert Wrapped(w) == s;
    DigitEnds(s);
    assert GoodWrapping(w, key);
  }

  lemma DigitEnds(s: string)
    requires s != "" && HexValue(s[0]).Some? && HexValue(s[|s|-1]).Some?
    ensures !IsBlank(s[0]) && !IsBlank(s[|s|-1])
  {
    DigitExactly(s[0], HexValue(s[0]).value);
    DigitExactly(s[|s|-1], HexValue(s[|s|-1]).value);
  }

  // What the sender prints is one of these forms, as is the plain hex form.
  lemma OutboundKeyParses(key: seq<Byte>, preferHex: bool)
    requires |key| == 16
    ensures ParseCandidate(Str(EncodeOutboundKey(key)), preferHex) == Some(key)
    ensures ParseCandidate(Str(ToHex(key)), preferHex) == Some(key)
  {
    hide ParseCandidate, Encode, Encoded, CarriesKey, HexText, ToHex, UrlEncode;
    ToHexAscii(key);
    PrintedCarries(key);
    PrintedIsHexText(key);
    var b := AsciiBytes(ToHex(key));
    var form := EncodeOutboundKey(key);
    EncodingIsForm(b);
    FormHasNoSpace(form, b);
    StripNothing(form, IsSpace);
    EveryFormParses(form, key, form, preferHex);
    DigitIsPlain(ToHex(key)[0]);
    DigitIsPlain(ToHex(key)[|ToHex(key)|-1]);
    StripNothing(ToHex(key), IsSpace);
    EveryFormParses(ToHex(key), key, ToHex(key), preferHex);
  }
}
