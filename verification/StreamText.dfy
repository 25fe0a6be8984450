// Folding streamed chunks - deltas, redeliveries or cumulative snapshots - into
// one text per message.
module StreamText {
  import opened Wrappers
  import opened Sequences

  predicate EndsWith(s: string, t: string) {
    |t| <= |s| && s[|s| - |t|..] == t
  }

  function Merge(existing: string, chunk: string): string {
    if chunk == "" then existing
    else if existing == "" || chunk == existing then chunk
    else if existing <= chunk then chunk
    else if EndsWith(existing, chunk) then existing
    else existing + chunk
  }

  // Folding only ever extends: the old text in front, the chunk at the end.
  lemma MergeExtends(existing: string, chunk: string)
    ensures existing <= Merge(existing, chunk) && EndsWith(Merge(existing, chunk), chunk)
  {}

  // A redelivered chunk changes nothing.
  lemma MergeTwice(existing: string, chunk: string)
    ensures Merge(Merge(existing, chunk), chunk) == Merge(existing, chunk)
  {
    MergeExtends(existing, chunk);
    var m := Merge(existing, chunk);
    if chunk != "" && m <= chunk {
      assert m == chunk;
    }
  }

  // A delta is appended as it is unless it repeats the end of the text or starts
  // with all of it - then it is taken for a redelivery or a snapshot.
  lemma DeltaAppendedExactly(existing: string, delta: string)
    ensures Merge(existing, delta) == existing + delta
            <==> existing == "" || delta == "" || (!(existing <= delta) && !EndsWith(existing, delta))
  {
    assert |existing + delta| == |existing| + |delta|;
    if existing == "" {
      assert existing + delta == delta;
    }
    if delta == "" {
      assert existing + delta == existing;
    }
  }

  function Fold(existing: string, chunks: seq<string>): string
    decreases |chunks|
  {
    if chunks == [] then existing else Fold(Merge(existing, chunks[0]), chunks[1..])
  }

  // Two equal deltas in a row are read as one.
  lemma RepeatedDeltaIsLost()
    ensures Fold("", ["he", "l", "l", "o"]) != "hello" && Fold("", ["he", "l", "l", "o"]) == "helo"
  {
    assert ["he", "l", "l", "o"][1..] == ["l", "l", "o"] && ["l", "l", "o"][1..] == ["l", "o"];
    assert ["l", "o"][1..] == ["o"] && ["o"][1..] == [];
    assert Merge("", "he") == "he";
    assert Merge("he", "l") == "hel" by {
      assert !EndsWith("he", "l") by { assert "he"[1..] == "e"; }
    }
    assert Merge("hel", "l") == "hel" by {
      assert "hel"[2..] == "l";
    }
    assert Merge("hel", "o") == "helo" by {
      assert !EndsWith("hel", "o") by { assert "hel"[2..] == "l"; }
    }
  }

  // Each snapshot begins with the one before.
  ghost predicate Cumulative(existing: string, snapshots: seq<string>)
    decreases |snapshots|
  {
    snapshots == [] || (existing <= snapshots[0] && Cumulative(snapshots[0], snapshots[1..]))
  }

  lemma {:induction false} SnapshotsEndAsLast(existing: string, snapshots: seq<string>)
    requires Cumulative(existing, snapshots) && snapshots != []
    ensures Fold(existing, snapshots) == snapshots[|snapshots|-1]
    decreases |snapshots|
  {
    var s := snapshots[0];
    assert Merge(existing, s) == s by {
      if s == "" {
        assert existing == "";
      }
    }
    if |snapshots| > 1 {
      SnapshotsEndAsLast(s, snapshots[1..]);
    }
  }

  // Deltas of which none is mistaken for anything else add up to the whole text.
  ghost predicate Unmistakable(existing: string, deltas: seq<string>)
    decreases |deltas|
  {
    deltas == []
    || ((existing == "" || deltas[0] == "" || (!(existing <= deltas[0]) && !EndsWith(existing, deltas[0])))
        && Unmistakable(existing + deltas[0], deltas[1..]))
  }

  lemma {:induction false} FoldLength(existing: string, chunks: seq<string>)
    ensures existing <= Fold(existing, chunks) && |Fold(existing, chunks)| <= |existing + Concat(chunks)|
    decreases |chunks|
  {
    if chunks != [] {
      ConcatFront(chunks);
      MergeExtends(existing, chunks[0]);
      FoldLength(Merge(existing, chunks[0]), chunks[1..]);
    }
  }

  // A stream of deltas is put together again exactly when none is mistaken.
  lemma {:induction false} DeltasRebuiltExactly(existing: string, deltas: seq<string>)
    ensures Fold(existing, deltas) == existing + Concat(deltas) <==> Unmistakable(existing, deltas)
    decreases |deltas|
  {
    if deltas == [] {
      assert existing + "" == existing;
    } else {
      var d, rest := deltas[0], deltas[1..];
      ConcatFront(deltas);
      DeltaAppendedExactly(existing, d);
      assert (existing + d) + Concat(rest) == existing + Concat(deltas);
      if Merge(existing, d) == existing + d {
        DeltasRebuiltExactly(existing + d, rest);
      } else {
        FoldLength(Merge(existing, d), rest);
        assert |Merge(existing, d)| < |existing + d|;
      }
    }
  }

  // --- buffers per message ---

  const DEFAULT_ID := "__default__"

  // The payload of a streamed event: plain text, or a mapping with the ids found
  // in it, in order of preference ("" where there is none).
  datatype EventData =
    | Plain(text: string)
    | Mapping(isTool: bool, content: string, kwargsContent: string, ids: seq<string>)
    | Unusable

  function FirstNonEmpty(ids: seq<string>): string {
    if ids == [] then "" else if ids[0] != "" then ids[0] else FirstNonEmpty(ids[1..])
  }

  // The text an event contributes, if any.
  function TextIn(data: EventData): Option<string> {
    match data
    case Plain(text) => Some(text)
    case Mapping(isTool, content, kwargsContent, _) =>
      var text := if content != "" then content else kwargsContent;
      if isTool || text == "" then None else Some(text)
    case Unusable => None
  }

  // The message an event belongs to.
  function Target(data: EventData, current: string): string {
    var explicit := if data.Mapping? then FirstNonEmpty(data.ids) else "";
    if explicit != "" then explicit else if current != "" then current else DEFAULT_ID
  }

  function BufferOf(buffers: map<string, string>, id: string): string {
    if id in buffers then buffers[id] else ""
  }

  // The buffers and the message last written to.
  datatype Progress = Progress(texts: map<string, string>, current: string)

  function Feed(p: Progress, data: EventData): Progress {
    match TextIn(data)
    case None => p
    case Some(text) =>
      var id := Target(data, p.current);
      Progress(p.texts[id := Merge(BufferOf(p.texts, id), text)], id)
  }

  ghost function FeedAll(datas: seq<EventData>): Progress {
    if datas == [] then Progress(map[], "") else Feed(FeedAll(datas[..|datas|-1]), datas[|datas|-1])
  }

  // --- whose text an event carries, said of the ids in the events ---

  // The event carries this text.
  ghost predicate Says(data: EventData, text: string) {
    || data == Plain(text)
    || (data.Mapping? && !data.isTool && text != "" && text == if data.content != "" then data.content else data.kwargsContent)
  }

  ghost predicate Speaks(data: EventData) {
    exists text :: Says(data, text)
  }

  ghost predicate FirstId(ids: seq<string>, i: int, id: string) {
    0 <= i < |ids| && ids[i] == id && id != "" && forall j :: 0 <= j < i ==> ids[j] == ""
  }

  // id is the first one found in the event, or there is none.
  ghost predicate Names(data: EventData, id: string) {
    data.Mapping? && exists i :: FirstId(data.ids, i, id)
  }

  ghost predicate NamesNobody(data: EventData) {
    data.Mapping? ==> forall i :: 0 <= i < |data.ids| ==> data.ids[i] == ""
  }

  // Event j names id, and no event with a text has named any since.
  ghost predicate NamedLast(datas: seq<EventData>, j: int, id: string) {
    && 0 <= j < |datas| && Speaks(datas[j]) && Names(datas[j], id)
    && forall m :: j < m < |datas| && Speaks(datas[m]) ==> NamesNobody(datas[m])
  }

  // The message under way: the last one named, or the default one if none was named.
  ghost predicate UnderWay(datas: seq<EventData>, id: string) {
    || (exists j :: NamedLast(datas, j, id))
    || (id == "__default__" && forall m :: 0 <= m < |datas| && Speaks(datas[m]) ==> NamesNobody(datas[m]))
  }

  lemma SaysOnce(data: EventData, text: string)
    ensures Says(data, text) <==> TextIn(data) == Some(text)
  {}

  lemma SpeaksWhen(data: EventData)
    ensures Speaks(data) <==> TextIn(data).Some?
  {
    if TextIn(data).Some? {
      SaysOnce(data, TextIn(data).value);
    }
    if text :| Says(data, text) {
      SaysOnce(data, text);
    }
  }

  lemma {:induction false} FirstIdFound(ids: seq<string>, id: string)
    ensures (exists i :: FirstId(ids, i, id)) <==> id != "" && FirstNonEmpty(ids) == id
    ensures (forall i :: 0 <= i < |ids| ==> ids[i] == "") <==> FirstNonEmpty(ids) == ""
    decreases |ids|
  {
    if ids != [] {
      FirstIdFound(ids[1..], id);
      assert forall i :: 0 <= i < |ids| - 1 ==> ids[1..][i] == ids[i+1];
      if i :| FirstId(ids, i, id) {
        if i > 0 {
          var k := i - 1;
          assert FirstId(ids[1..], k, id);
        }
      }
      if ids[0] == "" {
        if k :| FirstId(ids[1..], k, id) {
          var i := k + 1;
          assert FirstId(ids, i, id);
        }
      } else if ids[0] == id {
        assert FirstId(ids, 0, id);
      }
    }
  }

  // An event with a text goes to the message it names, whatever the current one; or to
  // the current one, or to the default one.
  lemma TargetExactly(data: EventData, current: string, id: string)
    ensures Names(data, id) ==> Target(data, current) == id
    ensures NamesNobody(data) ==> Target(data, current) == if current != "" then current else "__default__"
    ensures Names(data, id) ==> !NamesNobody(data)
    ensures NamesNobody(data) || Names(data, Target(data, current))
  {
    if data.Mapping? {
      FirstIdFound(data.ids, id);
      FirstIdFound(data.ids, FirstNonEmpty(data.ids));
      hide FirstNonEmpty;
    }
  }

  // What is known of the current message after some events.
  ghost function CurrentOr(p: Progress): string {
    if p.current != "" then p.current else "__default__"
  }

  lemma NamedSnoc(datas: seq<EventData>, last: EventData, j: int, id: string)
    ensures NamedLast(datas + [last], j, id)
       <==> if j == |datas| then Speaks(last) && Names(last, id)
            else NamedLast(datas, j, id) && (Speaks(last) ==> NamesNobody(last))
  {
    hide Speaks, Names, NamesNobody;
    var all := datas + [last];
    assert all[|datas|] == last && forall m :: 0 <= m < |datas| ==> all[m] == datas[m];
  }

  lemma UnderWaySnoc(datas: seq<EventData>, last: EventData, id: string)
    ensures UnderWay(datas + [last], id)
       <==> if Speaks(last) && !NamesNobody(last) then Names(last, id) else UnderWay(datas, id)
  {
    var all, n := datas + [last], |datas|;
    assert all[n] == last && forall m :: 0 <= m < n ==> all[m] == datas[m];
    TargetExactly(last, "", id);
    forall j {:trigger NamedLast(all, j, id)}
      ensures NamedLast(all, j, id) <==> if j == n then Speaks(last) && Names(last, id)
                                         else NamedLast(datas, j, id) && (Speaks(last) ==> NamesNobody(last))
    {
      NamedSnoc(datas, last, j, id);
    }
    assert !NamedLast(datas, n, id);
    hide Speaks, Names, NamesNobody, NamedLast;
    if Speaks(last) && !NamesNobody(last) && Names(last, id) {
      assert NamedLast(all, n, id);
    }
    if j :| NamedLast(datas, j, id) {
      assert !(Speaks(last) && !NamesNobody(last)) ==> NamedLast(all, j, id);
    }
  }

  // Exactly one message is under way: the one the next event goes to if it names none.
  lemma {:induction false} UnderWayExactly(datas: seq<EventData>, id: string)
    ensures UnderWay(datas, id) <==> id == CurrentOr(FeedAll(datas))
    decreases |datas|
  {
    if datas == [] {
    } else {
      var init, last := datas[..|datas|-1], datas[|datas|-1];
      assert datas == init + [last];
      UnderWayExactly(init, id);
      UnderWaySnoc(init, last, id);
      SpeaksWhen(last);
      var current := FeedAll(init).current;
      TargetExactly(last, current, id);
      TargetExactly(last, current, Target(last, current));
      hide UnderWay, NamedLast, Names, NamesNobody, Speaks, Target, TextIn, Merge;
      assert FeedAll(datas) == Feed(FeedAll(init), last);
      NamedTarget(last, current);
    }
  }

  lemma NamedTarget(data: EventData, current: string)
    ensures Target(data, current) != ""
  {}

  // The texts that belong to one message, in order of arrival: those of events that
  // name it, and of events that name nobody while it is under way.
  ghost function TextsOf(datas: seq<EventData>, id: string): seq<string> {
    if datas == [] then []
    else
      var last := datas[|datas|-1];
      TextsOf(datas[..|datas|-1], id) + if Speaks(last) && UnderWay(datas, id) then [SaidIn(last)] else []
  }

  ghost function SaidIn(data: EventData): (text: string)
    requires Speaks(data)
    ensures Says(data, text)
  {
    var text :| Says(data, text); text
  }

  lemma {:induction false} FoldSnoc(existing: string, chunks: seq<string>, more: string)
    ensures Fold(existing, chunks + [more]) == Merge(Fold(existing, chunks), more)
    decreases |chunks|
  {
    if chunks == [] {
      assert [] + [more] == [more] && [more][1..] == [];
    } else {
      assert (chunks + [more])[1..] == chunks[1..] + [more];
      FoldSnoc(Merge(existing, chunks[0]), chunks[1..], more);
    }
  }

  // One event: the buffer it goes to takes up its text, the others stay as they are.
  lemma FeedExactly(p: Progress, data: EventData, id: string, text: string)
    ensures !Speaks(data) ==> Feed(p, data) == p
    ensures Says(data, text) && (Names(data, id) || (NamesNobody(data) && id == CurrentOr(p))) ==>
              Feed(p, data) == Progress(p.texts[id := Merge(BufferOf(p.texts, id), text)], id)
  {
    SpeaksWhen(data);
    SaysOnce(data, text);
    TargetExactly(data, p.current, id);
    hide Speaks, Says, Names, NamesNobody, Target, TextIn;
  }

  lemma EventExactly(p: Progress, data: EventData)
    ensures !Speaks(data) <==> TextIn(data).None?
    ensures forall text :: Says(data, text) ==> TextIn(data) == Some(text)
    ensures forall id :: Names(data, id) ==> Target(data, p.current) == id
    ensures NamesNobody(data) ==> Target(data, p.current) == CurrentOr(p)
  {
    SpeaksWhen(data);
    forall text | Says(data, text) ensures TextIn(data) == Some(text) {
      SaysOnce(data, text);
    }
    forall id ensures Names(data, id) ==> Target(data, p.current) == id {
      TargetExactly(data, p.current, id);
    }
    TargetExactly(data, p.current, "");
  }

  // However messages interleave, each buffer is the fold of its own texts.
  lemma {:induction false} BuffersAreIndependent(datas: seq<EventData>, id: string)
    ensures BufferOf(FeedAll(datas).texts, id) == Fold("", TextsOf(datas, id))
    decreases |datas|
  {
    if datas != [] {
      var init, last := datas[..|datas|-1], datas[|datas|-1];
      assert datas == init + [last];
      BuffersAreIndependent(init, id);
      UnderWayExactly(datas, id);
      SpeaksWhen(last);
      NamedTarget(last, FeedAll(init).current);
      var texts := TextsOf(init, id);
      hide UnderWay, Target, TextIn, Merge, Says;
      if Speaks(last) && UnderWay(datas, id) {
        SaysOnce(last, SaidIn(last));
        FoldSnoc("", texts, SaidIn(last));
      } else {
        assert texts + [] == texts;
      }
      hide Fold;
    }
  }

  class Buffers {
    var texts: map<string, string>

    constructor ()
      ensures texts == map[]
    {
      texts := map[];
    }

    // The displayable text after an event, if it carried any, and its message.
    method Accumulate(current: string, data: EventData) returns (text: Option<string>, id: string)
      modifies this
      ensures Progress(texts, id) == Feed(Progress(old(texts), current), data)
      ensures text == if TextIn(data).Some? then Some(BufferOf(texts, id)) else None
      // whatever the current message, a text goes to the message it names
      ensures forall said, named :: Says(data, said) && Names(data, named) ==>
                id == named && texts == old(texts)[named := Merge(BufferOf(old(texts), named), said)] && text == Some(texts[named])
      ensures forall said :: Says(data, said) && NamesNobody(data) ==>
                && id == (if current != "" then current else "__default__")
                && texts == old(texts)[id := Merge(BufferOf(old(texts), id), said)] && text == Some(texts[id])
      ensures !Speaks(data) ==> text == None && id == current && texts == old(texts)
    {
      EventExactly(Progress(texts, current), data);
      hide Speaks, Says, Names, NamesNobody, Merge;
      match data {
        case Plain(payload) =>
          id := if current != "" then current else DEFAULT_ID;
          texts := texts[id := Merge(BufferOf(texts, id), payload)];
          text := Some(texts[id]);
        case Mapping(isTool, content, kwargsContent, ids) =>
          if isTool {
            return None, current;
          }
          var payload := content;
          if payload == "" {
            payload := kwargsContent;
          }
          if payload == "" {
            return None, current;
          }
          id := FirstNonEmpty(ids);
          if id == "" {
            id := if current != "" then current else DEFAULT_ID;
          }
          texts := texts[id := Merge(BufferOf(texts, id), payload)];
          text := Some(texts[id]);
        case Unusable =>
          return None, current;
      }
    }
  }
}
