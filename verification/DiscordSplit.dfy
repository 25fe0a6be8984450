// Splitting a text into messages of at most 2000 characters, at line ends where
// possible.
module DiscordSplit {
  import opened Sequences

  const MAX_LEN := 2000

  ghost predicate OnlyNewlines(s: string) {
    forall i :: 0 <= i < |s| ==> s[i] == '\n'
  }

  // Where a text that is too long is to be cut: at its last line end that leaves
  // something in front and still fits, or else after 2000 characters.
  ghost predicate BestCut(text: string, at: nat) {
    && MAX_LEN < |text| && 0 < at <= MAX_LEN
    && (at < MAX_LEN ==> text[at] == '\n' && forall k :: at < k < MAX_LEN ==> text[k] != '\n')
    && (at == MAX_LEN ==> forall k :: 0 < k < MAX_LEN ==> text[k] != '\n')
  }

  // The first piece, and the run of newlines dropped after it.
  ghost predicate FirstPiece(text: string, chunk: string, gap: string) {
    && |chunk| + |gap| <= |text| && text[..|chunk| + |gap|] == chunk + gap
    && BestCut(text, |chunk|) && OnlyNewlines(gap)
    && (|chunk| + |gap| < |text| ==> text[|chunk| + |gap|] != '\n')
  }

  function After(text: string, chunk: string, gap: string): string
    requires |chunk| + |gap| <= |text|
  {
    text[|chunk| + |gap|..]
  }

  ghost predicate GoodSplit(text: string, chunks: seq<string>, gaps: seq<string>)
    decreases |chunks|
  {
    && |chunks| == |gaps| && chunks != []
    && if |text| <= MAX_LEN then text != "" && chunks == [text] && gaps == [""]
       else
         && FirstPiece(text, chunks[0], gaps[0])
         && var rest := After(text, chunks[0], gaps[0]);
            if rest == "" then |chunks| == 1 else GoodSplit(rest, chunks[1..], gaps[1..])
  }

  // --- the loop ---

  // Position of the last newline before n, or -1.
  function LastNewline(s: string, n: nat): (i: int)
    requires n <= |s|
    ensures -1 <= i < n && (i >= 0 ==> s[i] == '\n')
    ensures forall k :: i < k < n ==> s[k] != '\n'
  {
    if n == 0 then -1 else if s[n-1] == '\n' then n - 1 else LastNewline(s, n - 1)
  }

  // How many newlines the text starts with.
  function Leading(s: string): (n: nat)
    ensures n <= |s| && OnlyNewlines(s[..n]) && (n < |s| ==> s[n] != '\n')
  {
    if s == "" || s[0] != '\n' then 0
    else
      assert s == [s[0]] + s[1..];
      var n := Leading(s[1..]);
      assert s[..n+1] == [s[0]] + s[1..][..n];
      n + 1
  }

  // Pieces cut off so far, and what remains.
  ghost predicate SplitSoFar(text: string, chunks: seq<string>, gaps: seq<string>, remaining: string)
    decreases |chunks|
  {
    && |chunks| == |gaps|
    && if chunks == [] then remaining == text
       else
         && FirstPiece(text, chunks[0], gaps[0])
         && SplitSoFar(After(text, chunks[0], gaps[0]), chunks[1..], gaps[1..], remaining)
  }

  lemma {:induction false} OneMoreCut(text: string, chunks: seq<string>, gaps: seq<string>, remaining: string,
                                      chunk: string, gap: string)
    requires SplitSoFar(text, chunks, gaps, remaining) && FirstPiece(remaining, chunk, gap)
    ensures SplitSoFar(text, chunks + [chunk], gaps + [gap], After(remaining, chunk, gap))
    decreases |chunks|
  {
    if chunks == [] {
      hide FirstPiece;
      assert [chunk][1..] == [] && [gap][1..] == [];
      assert chunks + [chunk] == [chunk] && gaps + [gap] == [gap];
    } else {
      OneMoreCut(After(text, chunks[0], gaps[0]), chunks[1..], gaps[1..], remaining, chunk, gap);
      hide FirstPiece;
      assert (chunks + [chunk])[1..] == chunks[1..] + [chunk] && (gaps + [gap])[1..] == gaps[1..] + [gap];
    }
  }

  lemma {:induction false} LastPiece(text: string, chunks: seq<string>, gaps: seq<string>, remaining: string)
    requires SplitSoFar(text, chunks, gaps, remaining) && text != "" && |remaining| <= MAX_LEN
    ensures remaining != "" ==> GoodSplit(text, chunks + [remaining], gaps + [""])
    ensures remaining == "" ==> GoodSplit(text, chunks, gaps)
    decreases |chunks|
  {
    if chunks == [] {
      assert chunks + [remaining] == [remaining] && gaps + [""] == [""];
    } else {
      var rest := After(text, chunks[0], gaps[0]);
      assert |text| > MAX_LEN;
      assert (chunks + [remaining])[1..] == chunks[1..] + [remaining] && (gaps + [""])[1..] == gaps[1..] + [""];
      if rest == "" {
        NothingFollows(chunks[1..], gaps[1..], remaining);
      } else {
        hide FirstPiece;
        LastPiece(rest, chunks[1..], gaps[1..], remaining);
      }
    }
  }

  lemma NothingFollows(chunks: seq<string>, gaps: seq<string>, remaining: string)
    requires SplitSoFar("", chunks, gaps, remaining)
    ensures chunks == [] && remaining == ""
  {}

  lemma CutFound(remaining: string)
    requires |remaining| > MAX_LEN
    ensures var at := LastNewline(remaining, MAX_LEN);
            var chunk := remaining[..if at <= 0 then MAX_LEN else at];
            var rest := remaining[|chunk|..];
            && FirstPiece(remaining, chunk, rest[..Leading(rest)])
            && After(remaining, chunk, rest[..Leading(rest)]) == rest[Leading(rest)..]
            && |rest| < |remaining|
  {
    var at := LastNewline(remaining, MAX_LEN);
    var chunk := remaining[..if at <= 0 then MAX_LEN else at];
    var rest := remaining[|chunk|..];
    var n := Leading(rest);
    assert remaining[..|chunk| + n] == chunk + rest[..n];
  }

  method SplitText(text: string) returns (chunks: seq<string>, ghost gaps: seq<string>)
    ensures text == "" ==> chunks == [""]
    ensures text != "" ==> GoodSplit(text, chunks, gaps)
  {
    if text == "" {
      return [""], [""];
    }
    chunks, gaps := [], [];
    var remaining := text;
    assert SplitSoFar(text, chunks, gaps, remaining);
    hide *;
    while |remaining| > MAX_LEN
      invariant SplitSoFar(text, chunks, gaps, remaining)
      decreases |remaining|
    {
      var at := LastNewline(remaining, MAX_LEN);
      if at <= 0 {
        at := MAX_LEN;
      }
      CutFound(remaining);
      var chunk, rest := remaining[..at], remaining[at..];
      var n := Leading(rest);
      OneMoreCut(text, chunks, gaps, remaining, chunk, rest[..n]);
      chunks, gaps, remaining := chunks + [chunk], gaps + [rest[..n]], rest[n..];
    }
    LastPiece(text, chunks, gaps, remaining);
    if remaining != "" {
      chunks, gaps := chunks + [remaining], gaps + [""];
    }
  }

  // --- what that means for the text ---

  // The pieces in order, each followed by its gap.
  ghost function Weave(chunks: seq<string>, gaps: seq<string>): string
    requires |chunks| == |gaps|
  {
    if chunks == [] then "" else chunks[0] + gaps[0] + Weave(chunks[1..], gaps[1..])
  }

  // Every piece can be sent, the gaps are runs of newlines, and together they are
  // the text.
  lemma {:induction false} SplitIsSound(text: string, chunks: seq<string>, gaps: seq<string>)
    requires GoodSplit(text, chunks, gaps)
    ensures Weave(chunks, gaps) == text
    ensures forall i :: 0 <= i < |chunks| ==> 0 < |chunks[i]| <= 2000 && OnlyNewlines(gaps[i])
    decreases |chunks|
  {
    if |text| <= MAX_LEN {
      assert Weave([], []) == "" && text + "" + "" == text;
    } else {
      var rest := After(text, chunks[0], gaps[0]);
      assert text == chunks[0] + gaps[0] + rest;
      if rest == "" {
        assert chunks[1..] == [] && gaps[1..] == [];
      } else {
        hide FirstPiece;
        SplitIsSound(rest, chunks[1..], gaps[1..]);
        assert forall i :: 1 <= i < |chunks| ==> chunks[i] == chunks[1..][i-1] && gaps[i] == gaps[1..][i-1];
      }
    }
  }

  // A line is cut apart only where it has to be: when nothing is dropped between two
  // pieces, the first is full and has no line end after its first character.
  lemma {:induction false} LinesStayWhole(text: string, chunks: seq<string>, gaps: seq<string>, i: nat)
    requires GoodSplit(text, chunks, gaps) && i + 1 < |chunks| && gaps[i] == ""
    ensures |chunks[i]| == 2000 && '\n' !in chunks[i][1..]
    decreases |chunks|
  {
    if i == 0 {
      forall k | 0 <= k < |chunks[0][1..]| ensures chunks[0][1..][k] != '\n' {
        assert chunks[0][1..][k] == text[..|chunks[0]| + |gaps[0]|][k + 1];
      }
    } else {
      LinesStayWhole(After(text, chunks[0], gaps[0]), chunks[1..], gaps[1..], i - 1);
    }
  }

  lemma GapIsWhole(text: string, chunk: string, gap: string, gap': string)
    requires FirstPiece(text, chunk, gap) && FirstPiece(text, chunk, gap')
    ensures |gap'| <= |gap|
  {
    var all := chunk + gap';
    assert forall i :: 0 <= i < |all| ==> text[i] == text[..|all|][i] == all[i];
    assert forall i :: |chunk| <= i < |all| ==> all[i] == gap'[i - |chunk|];
  }

  lemma SameCut(text: string, chunk: string, gap: string, chunk': string, gap': string)
    requires FirstPiece(text, chunk, gap) && FirstPiece(text, chunk', gap')
    ensures chunk == chunk' && gap == gap'
  {
    assert |chunk| == |chunk'|;
    assert chunk == text[..|chunk| + |gap|][..|chunk|];
    assert chunk' == text[..|chunk'| + |gap'|][..|chunk'|];
    GapIsWhole(text, chunk, gap, gap');
    GapIsWhole(text, chunk, gap', gap);
    assert gap == text[..|chunk| + |gap|][|chunk|..] && gap' == text[..|chunk| + |gap'|][|chunk|..];
  }

  // There is only one such way to split a text.
  lemma {:induction false} SplitIsUnique(text: string, chunks: seq<string>, gaps: seq<string>,
                                         chunks': seq<string>, gaps': seq<string>)
    requires GoodSplit(text, chunks, gaps) && GoodSplit(text, chunks', gaps')
    ensures chunks == chunks' && gaps == gaps'
    decreases |chunks|
  {
    if |text| > MAX_LEN {
      SameCut(text, chunks[0], gaps[0], chunks'[0], gaps'[0]);
      hide FirstPiece;
      if After(text, chunks[0], gaps[0]) != "" {
        SplitIsUnique(After(text, chunks[0], gaps[0]), chunks[1..], gaps[1..], chunks'[1..], gaps'[1..]);
      }
      assert chunks == [chunks[0]] + chunks[1..] && chunks' == [chunks'[0]] + chunks'[1..];
      assert gaps == [gaps[0]] + gaps[1..] && gaps' == [gaps'[0]] + gaps'[1..];
    }
  }

  ghost function WithoutNewlines(s: string): string {
    if s == "" then "" else (if s[0] == '\n' then "" else [s[0]]) + WithoutNewlines(s[1..])
  }

  lemma {:induction false} WithoutNewlinesAdds(a: string, b: string)
    ensures WithoutNewlines(a + b) == WithoutNewlines(a) + WithoutNewlines(b)
    decreases |a|
  {
    if a == "" {
      assert a + b == b;
    } else {
      assert (a + b)[1..] == a[1..] + b;
      WithoutNewlinesAdds(a[1..], b);
    }
  }

  lemma {:induction false} NewlinesVanish(s: string)
    requires OnlyNewlines(s)
    ensures WithoutNewlines(s) == ""
    decreases |s|
  {
    if s != "" {
      NewlinesVanish(s[1..]);
    }
  }

  lemma {:induction false} WeaveWithoutNewlines(chunks: seq<string>, gaps: seq<string>)
    requires |chunks| == |gaps| && forall i :: 0 <= i < |gaps| ==> OnlyNewlines(gaps[i])
    ensures WithoutNewlines(Weave(chunks, gaps)) == WithoutNewlines(Concat(chunks))
    decreases |chunks|
  {
    if chunks != [] {
      hide OnlyNewlines;
      ConcatFront(chunks);
      WeaveWithoutNewlines(chunks[1..], gaps[1..]);
      NewlinesVanish(gaps[0]);
      var rest := Weave(chunks[1..], gaps[1..]);
      assert chunks[0] + gaps[0] + rest == chunks[0] + (gaps[0] + rest);
      WithoutNewlinesAdds(chunks[0], gaps[0] + rest);
      WithoutNewlinesAdds(gaps[0], rest);
      WithoutNewlinesAdds(chunks[0], Concat(chunks[1..]));
    }
  }

  // Sending the pieces loses nothing but newlines, and keeps the order.
  lemma OnlyNewlinesAreLost(text: string, chunks: seq<string>, gaps: seq<string>)
    requires GoodSplit(text, chunks, gaps)
    ensures WithoutNewlines(Concat(chunks)) == WithoutNewlines(text)
  {
    SplitIsSound(text, chunks, gaps);
    WeaveWithoutNewlines(chunks, gaps);
  }

  // Nothing is cut off earlier than need be: what is left at a cut is too long for one
  // message, and has no line end behind the cut that would still fit.
  lemma {:induction false} CutsAreLatest(text: string, chunks: seq<string>, gaps: seq<string>, i: nat)
    requires GoodSplit(text, chunks, gaps) && i < |chunks| - 1
    ensures var left := Weave(chunks[i..], gaps[i..]);
            && |left| > 2000 && forall k :: |chunks[i]| < k < 2000 ==> left[k] != '\n'
    decreases |chunks|
  {
    if i == 0 {
      SplitIsSound(text, chunks, gaps);
      assert chunks[0..] == chunks && gaps[0..] == gaps;
      hide Weave;
    } else {
      assert chunks[1..][i-1..] == chunks[i..] && gaps[1..][i-1..] == gaps[i..];
      hide FirstPiece, Weave;
      CutsAreLatest(After(text, chunks[0], gaps[0]), chunks[1..], gaps[1..], i - 1);
    }
  }
}
