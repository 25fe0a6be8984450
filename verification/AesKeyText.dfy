// The texts and byte strings a media key may arrive in, said character by character:
// hex digits, the base64 alphabets, white space and UTF-8.
module AesKeyText {
  import opened Wrappers
  import opened AesKeyCodec

  // --- hex text ---

  // c is a digit of value v, in either case.
  ghost predicate IsDigit(c: char, v: int) {
    0 <= v < 16 && (c == "0123456789abcdef"[v] || c == "0123456789ABCDEF"[v])
  }

  ghost predicate IsBlank(c: char) {
    c in " \t\n\U{0B}\U{0C}\r"
  }

  // The text of some bytes: two digits each, white space in front of each and at the end.
  ghost predicate HexText(s: string, b: seq<Byte>)
    decreases |s|
  {
    if s == "" then b == []
    else if IsBlank(s[0]) then HexText(s[1..], b)
    else |s| >= 2 && b != [] && IsDigit(s[0], b[0] / 16) && IsDigit(s[1], b[0] % 16) && HexText(s[2..], b[1..])
  }

  lemma DigitExactly(c: char, v: int)
    ensures HexValue(c) == Some(v) <==> IsDigit(c, v)
    ensures HexValue(c) == Some(v) ==> !IsBlank(c)
  {}

  lemma BlankExactly(c: char)
    ensures IsAsciiSpace(c) <==> IsBlank(c)
  {
    assert " \t\n\U{0B}\U{0C}\r" == [' ', '\t', '\n', '\U{0B}', '\U{0C}', '\r'];
  }

  // Hex text is read as the bytes it is the text of, and nothing else is.
  lemma {:induction false} HexTextExactly(s: string, b: seq<Byte>)
    ensures FromHex(s) == Some(b) <==> HexText(s, b)
    decreases |s|
  {
    if s != "" {
      BlankExactly(s[0]);
      if IsBlank(s[0]) {
        hide IsBlank;
        HexTextExactly(s[1..], b);
      } else if |s| >= 2 {
        PairExactly(s[0], s[1], if b != [] then b[0] else 0);
        hide IsDigit, IsBlank, HexValue, HexByte;
        if b != [] {
          HexTextExactly(s[2..], b[1..]);
          assert b == [b[0]] + b[1..];
        }
      }
    }
  }

  lemma PairExactly(c: char, d: char, x: Byte)
    ensures HexValue(c).Some? && HexValue(d).Some? && HexByte(c, d) == x <==> IsDigit(c, x / 16) && IsDigit(d, x % 16)
  {
    DigitExactly(c, x / 16);
    DigitExactly(d, x % 16);
    HexRange(c);
    HexRange(d);
    hide IsDigit, HexValue;
  }

  lemma HexRange(c: char)
    ensures HexValue(c).Some? ==> 0 <= HexValue(c).value < 16
  {}

  // --- base64 alphabets: sections 4 and 5 of RFC 4648 ---

  const LETTERS := "ABCDEFGHIJKLMNOPQRSTUVWXYZ" + "abcdefghijklmnopqrstuvwxyz"
  const ALPHABET := LETTERS + "0123456789" + "+/"
  const URL_ALPHABET := LETTERS + "0123456789" + "-_"

  lemma UpperAt(v: int)
    requires 0 <= v < 26
    ensures "ABCDEFGHIJKLMNOPQRSTUVWXYZ"[v] == (v + 'A' as int) as char
  {}

  lemma LowerAt(v: int)
    requires 0 <= v < 26
    ensures "abcdefghijklmnopqrstuvwxyz"[v] == (v + 'a' as int) as char
  {}

  lemma DigitAt(v: int)
    requires 0 <= v < 10
    ensures "0123456789"[v] == (v + '0' as int) as char
  {}

  lemma AlphabetExactly(v: int)
    requires 0 <= v < 64
    ensures |ALPHABET| == |URL_ALPHABET| == 64
    ensures SextetChar(v) == ALPHABET[v] && ToUrl(SextetChar(v)) == URL_ALPHABET[v]
    ensures FromUrl(URL_ALPHABET[v]) == ALPHABET[v] && FromUrl(ALPHABET[v]) == ALPHABET[v]
  {
    LetterAt(v);
    if v < 52 {
      LettersFirst(v);
    } else if v < 62 {
      DigitAt(v - 52);
    }
    hide LETTERS;
  }

  lemma LetterAt(v: int)
    ensures |LETTERS| == 52 && (0 <= v < 52 ==> LETTERS[v] == SextetChar(v))
  {
    if 0 <= v < 26 {
      UpperAt(v);
    } else if 26 <= v < 52 {
      LowerAt(v - 26);
    }
  }

  lemma LettersFirst(v: int)
    requires 0 <= v < 52
    ensures |LETTERS| == 52 && ALPHABET[v] == LETTERS[v] && URL_ALPHABET[v] == LETTERS[v]
  {
    LetterAt(v);
    hide LETTERS;
  }

  // A character stands for a sextet exactly if it is at that place in the alphabet.
  lemma SextetExactly(c: char, v: int)
    ensures |ALPHABET| == 64
    ensures Sextet(c) == Some(v) <==> 0 <= v < 64 && c == ALPHABET[v]
  {
    if 0 <= v < 64 {
      AlphabetExactly(v);
      SextetBack(c);
    }
  }

  lemma SextetBack(c: char)
    ensures Sextet(c).Some? ==> SextetChar(Sextet(c).value) == c
  {}

  // --- white space that Python strips ---

  const SPACES := "\t\n\U{0B}\U{0C}\r\U{1C}\U{1D}\U{1E}\U{1F} \U{85}\U{A0}\U{1680}\U{2000}\U{2001}\U{2002}\U{2003}\U{2004}\U{2005}\U{2006}\U{2007}\U{2008}\U{2009}\U{200A}\U{2028}\U{2029}\U{202F}\U{205F}\U{3000}"

  lemma SpaceExactly(c: char)
    ensures IsSpace(c) <==> c in SPACES
  {}

  // --- stripping ---

  ghost predicate AllDropped(s: string, drop: char -> bool) {
    forall i :: 0 <= i < |s| ==> drop(s[i])
  }

  lemma {:induction false} StripLeftExactly(s: string, drop: char -> bool) returns (a: string)
    ensures s == a + StripLeft(s, drop) && AllDropped(a, drop)
    ensures StripLeft(s, drop) != "" ==> !drop(StripLeft(s, drop)[0])
    decreases |s|
  {
    if s != "" && drop(s[0]) {
      var rest := StripLeftExactly(s[1..], drop);
      a := [s[0]] + rest;
    } else {
      a := "";
    }
  }

  lemma {:induction false} StripRightExactly(s: string, drop: char -> bool) returns (c: string)
    ensures s == StripRight(s, drop) + c && AllDropped(c, drop)
    ensures StripRight(s, drop) != "" ==> !drop(StripRight(s, drop)[|StripRight(s, drop)|-1])
    decreases |s|
  {
    if s != "" && drop(s[|s|-1]) {
      var rest := StripRightExactly(s[..|s|-1], drop);
      c := rest + [s[|s|-1]];
    } else {
      c := "";
    }
  }

  // Stripping takes away characters to be dropped at both ends, and all of them.
  lemma StripExactly(s: string, drop: char -> bool) returns (a: string, c: string)
    ensures var m := StripBoth(s, drop);
            && s == a + m + c && AllDropped(a, drop) && AllDropped(c, drop)
            && (m != "" ==> !drop(m[0]) && !drop(m[|m|-1]))
  {
    a := StripLeftExactly(s, drop);
    c := StripRightExactly(StripLeft(s, drop), drop);
    var m := StripBoth(s, drop);
    if m != "" {
      assert m[0] == StripLeft(s, drop)[0];
    }
  }

  lemma {:induction false} StripWhole(a: string, m: string, c: string, drop: char -> bool)
    requires AllDropped(a, drop) && AllDropped(c, drop) && m != "" && !drop(m[0]) && !drop(m[|m|-1])
    ensures StripBoth(a + m + c, drop) == m
    decreases |a| + |c|
  {
    if a != "" {
      assert (a + m + c)[1..] == a[1..] + m + c && (a + m + c)[0] == a[0];
      assert AllDropped(a[1..], drop);
      StripWhole(a[1..], m, c, drop);
    } else if c != "" {
      var n := |c| - 1;
      var s := a + m + c;
      assert s[0] == m[0] && s[..|s|-1] == a + m + c[..n] && s[|s|-1] == c[n];
      assert (a + m + c[..n])[0] == m[0];
      assert AllDropped(c[..n], drop);
      StripWhole(a, m, c[..n], drop);
    } else {
      assert a + m + c == m;
    }
  }

  // --- UTF-8: section 3 of RFC 3629 ---

  ghost function CharBytes(c: char): seq<Byte> {
    var n := c as int;
    if n < 0x80 then [n]
    else if n < 0x800 then [0xC0 + n / 0x40, 0x80 + n % 0x40]
    else if n < 0x10000 then [0xE0 + n / 0x1000, 0x80 + n / 0x40 % 0x40, 0x80 + n % 0x40]
    else [0xF0 + n / 0x40000, 0x80 + n / 0x1000 % 0x40, 0x80 + n / 0x40 % 0x40, 0x80 + n % 0x40]
  }

  ghost function TextBytes(s: string): seq<Byte> {
    if s == "" then [] else CharBytes(s[0]) + TextBytes(s[1..])
  }

  lemma TwoBytes(x: int, y: int)
    requires 0xC2 <= x < 0xE0 && 0x80 <= y < 0xC0
    ensures var n := (x - 0xC0) * 0x40 + (y - 0x80); 0x80 <= n < 0x800 && n / 0x40 == x - 0xC0 && n % 0x40 == y - 0x80
  {}

  lemma ThreeBytes(x: int, y: int, z: int)
    requires 0xE0 <= x < 0xF0 && 0x80 <= y < 0xC0 && 0x80 <= z < 0xC0 && (x == 0xE0 ==> y >= 0xA0)
    ensures var n := (x - 0xE0) * 0x1000 + (y - 0x80) * 0x40 + (z - 0x80);
            && 0x800 <= n < 0x10000 && n / 0x1000 == x - 0xE0 && n / 0x40 % 0x40 == y - 0x80 && n % 0x40 == z - 0x80
  {
    var n := (x - 0xE0) * 0x1000 + (y - 0x80) * 0x40 + (z - 0x80);
    assert n / 0x40 == (x - 0xE0) * 0x40 + (y - 0x80);
  }

  lemma FourBytes(x: int, y: int, z: int, w: int)
    requires 0xF0 <= x < 0xF5 && 0x80 <= y < 0xC0 && 0x80 <= z < 0xC0 && 0x80 <= w < 0xC0 && (x == 0xF0 ==> y >= 0x90)
    ensures var n := (x - 0xF0) * 0x40000 + (y - 0x80) * 0x1000 + (z - 0x80) * 0x40 + (w - 0x80);
            && 0x10000 <= n && n / 0x40000 == x - 0xF0 && n / 0x1000 % 0x40 == y - 0x80
            && n / 0x40 % 0x40 == z - 0x80 && n % 0x40 == w - 0x80
  {
    var n := (x - 0xF0) * 0x40000 + (y - 0x80) * 0x1000 + (z - 0x80) * 0x40 + (w - 0x80);
    assert n / 0x40 == (x - 0xF0) * 0x1000 + (y - 0x80) * 0x40 + (z - 0x80);
    assert n / 0x1000 == (x - 0xF0) * 0x40 + (y - 0x80);
  }

  lemma FrontIsChar(b: seq<Byte>)
    requires b != [] && FrontCodePoint(b).Some?
    ensures CharBytes(FrontCodePoint(b).value.0) == b[..FrontCodePoint(b).value.1]
  {
    var x: int := b[0];
    if x < 0x80 {
      assert b[..1] == [b[0]];
    } else if x < 0xE0 {
      TwoBytes(x, b[1]);
      assert b[..2] == [b[0], b[1]];
    } else if x < 0xF0 {
      ThreeBytes(x, b[1], b[2]);
      assert b[..3] == [b[0], b[1], b[2]];
    } else {
      FourBytes(x, b[1], b[2], b[3]);
      assert b[..4] == [b[0], b[1], b[2], b[3]];
    }
  }

  // A code point from its parts, and the ranges of the parts.
  lemma PartsOfTwo(n: int)
    requires 0x80 <= n < 0x800
    ensures 2 <= n / 0x40 < 0x20 && 0 <= n % 0x40 < 0x40 && n / 0x40 * 0x40 + n % 0x40 == n
  {}

  lemma PartsOfThree(n: int)
    requires 0x800 <= n < 0x10000
    ensures var x, y, z := n / 0x1000, n / 0x40 % 0x40, n % 0x40;
            && 0 <= x < 0x10 && 0 <= y < 0x40 && 0 <= z < 0x40 && x * 0x1000 + y * 0x40 + z == n
            && (x == 0 ==> y >= 0x20) && (x == 0xD && n < 0xD800 ==> y < 0x20) && (x == 0xD ==> n < 0xE000)
  {
    assert n / 0x40 == n / 0x1000 * 0x40 + n / 0x40 % 0x40;
  }

  lemma PartsOfFour(n: int)
    requires 0x10000 <= n < 0x110000
    ensures var x, y, z, w := n / 0x40000, n / 0x1000 % 0x40, n / 0x40 % 0x40, n % 0x40;
            && 0 <= x < 5 && 0 <= y < 0x40 && 0 <= z < 0x40 && 0 <= w < 0x40
            && x * 0x40000 + y * 0x1000 + z * 0x40 + w == n && (x == 0 ==> y >= 0x10) && (x == 4 ==> y < 0x10)
  {
    assert n / 0x1000 == n / 0x40000 * 0x40 + n / 0x1000 % 0x40;
    assert n / 0x40 == n / 0x1000 * 0x40 + n / 0x40 % 0x40;
  }

  lemma CharIsFront(c: char, rest: seq<Byte>)
    ensures FrontCodePoint(CharBytes(c) + rest) == Some((c, |CharBytes(c)|))
  {
    var n := c as int;
    if 0x80 <= n < 0x800 {
      PartsOfTwo(n);
    } else if 0x800 <= n < 0x10000 {
      PartsOfThree(n);
    } else if n >= 0x10000 {
      PartsOfFour(n);
    }
    var b := CharBytes(c) + rest;
    assert forall i :: 0 <= i < |CharBytes(c)| ==> b[i] == CharBytes(c)[i];
  }

  // Decoding accepts exactly the encoded texts, and gives back the text.
  lemma {:induction false} Utf8Exactly(b: seq<Byte>, s: string)
    ensures Utf8Decode(b) == Some(s) <==> b == TextBytes(s)
    decreases |b| + |s|
  {
    if b == [] {
      if s != "" {
        assert CharBytes(s[0]) != [];
      }
    } else {
      var front := FrontCodePoint(b);
      if front.Some? {
        var (c, n) := front.value;
        FrontIsChar(b);
        assert b == b[..n] + b[n..];
        if s != "" {
          hide FrontCodePoint, CharBytes;
          CharIsFront(s[0], TextBytes(s[1..]));
          Utf8Exactly(b[n..], s[1..]);
          assert s == [s[0]] + s[1..];
        }
      } else if s != "" {
        CharIsFront(s[0], TextBytes(s[1..]));
      }
    }
  }

  // --- what may carry a key besides its own bytes: its hex text, quoted or not ---

  ghost predicate AllSpaces(s: string) {
    forall i :: 0 <= i < |s| ==> s[i] in SPACES
  }

  ghost predicate AllOf(s: string, c: char) {
    forall i :: 0 <= i < |s| ==> s[i] == c
  }

  // h in single quotes, in double quotes, in white space, as many of each as may be.
  datatype Wrapping = Wrapping(a: string, q: string, p: string, h: string, p': string, q': string, c: string)

  ghost function Wrapped(w: Wrapping): string {
    w.a + (w.q + (w.p + w.h + w.p') + w.q') + w.c
  }

  ghost predicate GoodWrapping(w: Wrapping, key: seq<Byte>) {
    && AllSpaces(w.a) && AllSpaces(w.c) && AllOf(w.q, '"') && AllOf(w.q', '"') && AllOf(w.p, '\'') && AllOf(w.p', '\'')
    && HexText(w.h, key) && w.h != "" && !IsBlank(w.h[0]) && !IsBlank(w.h[|w.h|-1])
  }

  // Characters of hex text.
  lemma {:induction false} HexTextChars(s: string, b: seq<Byte>)
    requires HexText(s, b)
    ensures forall i :: 0 <= i < |s| ==> IsBlank(s[i]) || HexValue(s[i]).Some?
    ensures |s| >= 2 * |b|
    decreases |s|
  {
    if s != "" {
      if IsBlank(s[0]) {
        HexTextChars(s[1..], b);
        assert forall i :: 0 < i < |s| ==> s[i] == s[1..][i-1];
        hide IsBlank;
      } else {
        DigitExactly(s[0], b[0] / 16);
        DigitExactly(s[1], b[0] % 16);
        HexTextChars(s[2..], b[1..]);
        assert forall i :: 1 < i < |s| ==> s[i] == s[2..][i-2];
        hide IsBlank, HexValue, IsDigit;
      }
    }
  }

  lemma DigitIsPlain(c: char)
    requires HexValue(c).Some?
    ensures !IsSpace(c) && c != '"' && c != '\''
  {}

  lemma QuotesAreNoSpace()
    ensures !IsSpace('"') && !IsSpace('\'')
  {}

  lemma {:induction false} BytesAtLeast(s: string)
    ensures |TextBytes(s)| >= |s|
    decreases |s|
  {
    if s != "" {
      BytesAtLeast(s[1..]);
    }
  }

  lemma SpacesDrop(s: string)
    requires AllSpaces(s)
    ensures AllDropped(s, IsSpace)
  {
    forall i | 0 <= i < |s| ensures IsSpace(s[i]) {
      SpaceExactly(s[i]);
    }
  }

  lemma QuotesStrip(q: string, m: string, q': string, quote: char)
    requires AllOf(q, quote) && AllOf(q', quote) && m != "" && m[0] != quote && m[|m|-1] != quote
    ensures StripBoth(q + m + q', c => c == quote) == m
  {
    StripWhole(q, m, q', c => c == quote);
  }

  // What stands between quotes starts and ends with one of them, or with its content.
  lemma Ends(q: string, m: string, q': string, quote: char)
    requires AllOf(q, quote) && AllOf(q', quote) && m != ""
    ensures var s := q + m + q';
            s != "" && (s[0] == quote || s[0] == m[0]) && (s[|s|-1] == quote || s[|s|-1] == m[|m|-1])
  {}

  lemma WrappedStrips(w: Wrapping, key: seq<Byte>)
    requires GoodWrapping(w, key)
    ensures StripBoth(StripBoth(Strip(Wrapped(w)), c => c == '"'), c => c == '\'') == w.h
  {
    hide HexText, IsSpace, IsBlank, HexValue, AllSpaces, AllOf, AllDropped, StripBoth, SPACES;
    HexTextChars(w.h, key);
    DigitIsPlain(w.h[0]);
    DigitIsPlain(w.h[|w.h|-1]);
    QuotesAreNoSpace();
    var inner := w.p + w.h + w.p';
    var outer := w.q + inner + w.q';
    Ends(w.p, w.h, w.p', '\'');
    Ends(w.q, inner, w.q', '"');
    SpacesDrop(w.a);
    SpacesDrop(w.c);
    StripWhole(w.a, outer, w.c, IsSpace);
    QuotesStrip(w.q, inner, w.q', '"');
    QuotesStrip(w.p, w.h, w.p', '\'');
  }

  // The bytes of such a text count as the key.
  lemma WrappedNormalizes(w: Wrapping, key: seq<Byte>)
    requires |key| == 16 && GoodWrapping(w, key)
    ensures Normalize(TextBytes(Wrapped(w))) == Some(key)
  {
    var text := Wrapped(w);
    HexTextChars(w.h, key);
    BytesAtLeast(text);
    WrappedStrips(w, key);
    HexTextExactly(w.h, key);
    Utf8Exactly(TextBytes(text), text);
    hide TextBytes, Utf8Decode, HexText, FromHex, GoodWrapping;
  }
}
