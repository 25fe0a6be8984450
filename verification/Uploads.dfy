// Upload of several files under size limits, with rollback of the whole request.
module Uploads {
  import opened Wrappers
  import opened Sequences
  import opened UniqueNames

  type Bytes = seq<bv8>
  type Disk = map<string, Bytes>

  datatype Limits = Limits(maxFiles: nat, maxFileSize: nat, maxTotalSize: nat)

  datatype Error = NoFiles | TooManyFiles | FileTooLarge | TotalTooLarge | Broken

  // What reading the next piece of a body gives, and whether writing it works.
  datatype Chunk = Data(bytes: Bytes, written: bool) | ReadFails

  datatype Opening = Opens | Unsafe | OpenFails

  // normalized is the base name, if it is a safe one.
  datatype Incoming = Incoming(filename: string, normalized: Option<string>, opening: Opening, chunks: seq<Chunk>)

  datatype Info = Info(name: string, original: string, size: nat)

  datatype Response = Response(files: seq<Info>, skipped: seq<string>)

  // --- one body ---

  predicate IsEnd(c: Chunk) {
    c.Data? && c.bytes == []
  }

  // The bytes that arrive up to the end of the body or the first read failure.
  ghost function Body(chunks: seq<Chunk>): Bytes {
    if chunks == [] || chunks[0].ReadFails? || IsEnd(chunks[0]) then [] else chunks[0].bytes + Body(chunks[1..])
  }

  // Nothing fails before the end of the body.
  ghost predicate Clean(chunks: seq<Chunk>) {
    chunks == [] || (chunks[0].Data? && (IsEnd(chunks[0]) || (chunks[0].written && Clean(chunks[1..]))))
  }

  ghost predicate Fits(size: nat, total: nat, limits: Limits) {
    size <= limits.maxFileSize && total <= limits.maxTotalSize
  }

  // What goes wrong with a piece, after size and total bytes; in the order in which
  // it is looked at.
  ghost function Problem(c: Chunk, size: nat, total: nat, limits: Limits): Option<Error> {
    if c.ReadFails? then Some(Broken)
    else if size + |c.bytes| > limits.maxFileSize then Some(FileTooLarge)
    else if total + |c.bytes| > limits.maxTotalSize then Some(TotalTooLarge)
    else if !c.written then Some(Broken)
    else None
  }

  // Piece j is the first to go wrong.
  ghost predicate FailsAt(chunks: seq<Chunk>, total: nat, limits: Limits, j: nat, e: Error) {
    && j < |chunks| && Clean(chunks[..j]) && (forall i :: 0 <= i <= j ==> !IsEnd(chunks[i]))
    && var got := |Body(chunks[..j])|;
       && Fits(got, total + got, limits)
       && Problem(chunks[j], got, total + got, limits) == Some(e)
  }

  lemma {:induction false} BodySnoc(init: seq<Chunk>, c: Chunk)
    requires Clean(init) && (forall i :: 0 <= i < |init| ==> !IsEnd(init[i])) && c.Data? && !IsEnd(c)
    ensures Body(init + [c]) == Body(init) + c.bytes
    ensures c.written ==> Clean(init + [c])
    decreases |init|
  {
    if init == [] {
      assert Body([c]) == c.bytes + Body([]);
    } else {
      assert (init + [c])[1..] == init[1..] + [c];
      BodySnoc(init[1..], c);
    }
  }

  lemma {:induction false} BodyEnds(chunks: seq<Chunk>, j: nat)
    requires j <= |chunks| && Clean(chunks[..j]) && (forall i :: 0 <= i < j ==> !IsEnd(chunks[i]))
    requires j == |chunks| || IsEnd(chunks[j])
    ensures Clean(chunks) && Body(chunks) == Body(chunks[..j])
    decreases j
  {
    if j > 0 {
      assert chunks[..j][1..] == chunks[1..][..j-1];
      BodyEnds(chunks[1..], j - 1);
    }
  }

  // A later piece only adds to what has arrived.
  lemma {:induction false} BodyGrows(chunks: seq<Chunk>, j: nat)
    requires j <= |chunks| && Clean(chunks[..j]) && (forall i :: 0 <= i < j ==> !IsEnd(chunks[i]))
    ensures |Body(chunks)| == |Body(chunks[..j])| + |Body(chunks[j..])|
    ensures Clean(chunks) <==> Clean(chunks[j..])
    decreases j
  {
    if j == 0 {
      assert chunks[0..] == chunks;
    } else {
      assert chunks[..j][1..] == chunks[1..][..j-1];
      assert chunks[1..][j-1..] == chunks[j..];
      BodyGrows(chunks[1..], j - 1);
    }
  }

  // A first failing piece is all that can go wrong: sizes only grow.
  lemma FailureIsFinal(chunks: seq<Chunk>, total: nat, limits: Limits, j: nat, e: Error)
    requires FailsAt(chunks, total, limits, j, e)
    ensures !(Clean(chunks) && Fits(|Body(chunks)|, total + |Body(chunks)|, limits))
  {
    BodyGrows(chunks, j);
    var rest := chunks[j..];
    if rest[0].Data? {
      assert |Body(rest)| >= |rest[0].bytes|;
    }
  }

  // --- the plan of a request ---

  // A file whose name could be claimed.
  datatype Claim = Claim(original: string, name: string, file: Incoming)

  predicate Named(f: Incoming) {
    f.filename != "" && f.normalized.Some?
  }

  // The names the files get, in order; files without a usable name get none.
  ghost function Claims(files: seq<Incoming>, seen: set<string>): seq<Claim> {
    if files == [] then []
    else if !Named(files[0]) then Claims(files[1..], seen)
    else
      var name := Claimed(files[0].normalized.value, seen);
      [Claim(files[0].normalized.value, name, files[0])] + Claims(files[1..], seen + {name})
  }

  lemma {:induction false} ClaimsDistinct(files: seq<Incoming>, seen: set<string>)
    ensures forall i :: 0 <= i < |Claims(files, seen)| ==> Claims(files, seen)[i].name !in seen
    ensures forall i, j :: 0 <= i < j < |Claims(files, seen)| ==> Claims(files, seen)[i].name != Claims(files, seen)[j].name
    decreases |files|
  {
    if files != [] {
      if Named(files[0]) {
        var name := Claimed(files[0].normalized.value, seen);
        ClaimsDistinct(files[1..], seen + {name});
        var rest, all := Claims(files[1..], seen + {name}), Claims(files, seen);
        assert forall i :: 1 <= i < |all| ==> all[i] == rest[i-1];
      } else {
        ClaimsDistinct(files[1..], seen);
      }
    }
  }

  // The claims whose destination is opened, in order.
  ghost function Opened(claims: seq<Claim>): seq<Claim> {
    if claims == [] then []
    else
      var last := claims[|claims|-1];
      if last.file.opening.Opens? then Opened(claims[..|claims|-1]) + [last] else Opened(claims[..|claims|-1])
  }

  ghost function Skipped(claims: seq<Claim>): seq<string> {
    if claims == [] then []
    else
      var last := claims[|claims|-1];
      if last.file.opening.Unsafe? then Skipped(claims[..|claims|-1]) + [last.name] else Skipped(claims[..|claims|-1])
  }

  ghost function Total(claims: seq<Claim>): nat {
    if claims == [] then 0 else Total(claims[..|claims|-1]) + |Body(claims[|claims|-1].file.chunks)|
  }

  ghost function Infos(claims: seq<Claim>): seq<Info> {
    if claims == [] then []
    else
      var last := claims[|claims|-1];
      Infos(claims[..|claims|-1]) + [Info(last.name, last.original, |Body(last.file.chunks)|)]
  }

  // The directory with the bodies of these files in place.
  ghost function Installed(disk: Disk, claims: seq<Claim>): Disk {
    if claims == [] then disk
    else
      var last := claims[|claims|-1];
      Installed(disk, claims[..|claims|-1])[last.name := Body(last.file.chunks)]
  }

  ghost function Names(claims: seq<Claim>): set<string> {
    set c | c in claims :: c.name
  }

  ghost predicate Sound(c: Claim, limits: Limits) {
    && !c.file.opening.OpenFails?
    && (c.file.opening.Opens? ==> Clean(c.file.chunks) && |Body(c.file.chunks)| <= limits.maxFileSize)
  }

  ghost predicate AllSound(claims: seq<Claim>, limits: Limits) {
    forall i :: 0 <= i < |claims| ==> Sound(claims[i], limits)
  }

  // Every destination can be opened or is skipped, every body arrives whole, and all
  // sizes are within the limits.
  ghost predicate Acceptable(claims: seq<Claim>, limits: Limits) {
    AllSound(claims, limits) && Total(Opened(claims)) <= limits.maxTotalSize
  }

  // Claim k is the first that cannot be accepted after the ones before it.
  ghost predicate FirstRefused(claims: seq<Claim>, limits: Limits, k: nat) {
    k < |claims| && Acceptable(claims[..k], limits) && !Acceptable(claims[..k+1], limits)
  }

  // --- what is kept while the request runs ---

  // Bytes held under these names.
  ghost function Kept(disk: Disk, names: seq<string>): nat {
    if names == [] then 0
    else Kept(disk, names[..|names|-1]) + if names[|names|-1] in disk then |disk[names[|names|-1]]| else 0
  }

  ghost predicate WithinLimits(disk: Disk, names: seq<string>, limits: Limits) {
    && (forall n :: n in names && n in disk ==> |disk[n]| <= limits.maxFileSize)
    && Kept(disk, names) <= limits.maxTotalSize
  }

  ghost function NameList(claims: seq<Claim>): seq<string> {
    seq(|claims|, i requires 0 <= i < |claims| => claims[i].name)
  }

  // The directory at some moment, and the names the request has opened by then.
  datatype Snapshot = Snapshot(disk: Disk, names: seq<string>)

  lemma {:induction false} KeptSame(a: Disk, b: Disk, names: seq<string>)
    requires forall n <- names :: (n in a <==> n in b) && (n in a ==> a[n] == b[n])
    ensures Kept(a, names) == Kept(b, names)
    decreases |names|
  {
    if names != [] {
      KeptSame(a, b, names[..|names|-1]);
      assert names[|names|-1] in names;
    }
  }

  lemma {:induction false} KeptLess(a: Disk, b: Disk, names: seq<string>)
    requires forall n <- names :: n in b ==> n in a && a[n] == b[n]
    ensures Kept(b, names) <= Kept(a, names)
    decreases |names|
  {
    if names != [] {
      KeptLess(a, b, names[..|names|-1]);
      assert names[|names|-1] in names;
    }
  }

  lemma KeptSnoc(disk: Disk, names: seq<string>, name: string)
    ensures Kept(disk, names + [name]) == Kept(disk, names) + if name in disk then |disk[name]| else 0
  {
    assert (names + [name])[..|names|] == names;
  }

  // A body under way adds its bytes to those of the files before it.
  lemma WritingWithin(disk: Disk, names: seq<string>, name: string, bytes: Bytes, total: nat, limits: Limits)
    requires name !in names && WithinLimits(disk, names, limits) && Kept(disk, names) == total
    requires Fits(|bytes|, total + |bytes|, limits)
    ensures WithinLimits(disk[name := bytes], names + [name], limits)
    ensures Kept(disk[name := bytes], names + [name]) == total + |bytes|
  {
    hide Kept;
    KeptSnoc(disk[name := bytes], names, name);
    KeptSame(disk, disk[name := bytes], names);
  }

  lemma RemovedWithin(disk: Disk, names: seq<string>, gone: set<string>, limits: Limits)
    requires WithinLimits(disk, names, limits)
    ensures WithinLimits(disk - gone, names, limits)
  {
    KeptLess(disk, disk - gone, names);
  }

  // --- one more file ---

  // What one more file adds to the plan.
  ghost function NextClaims(f: Incoming, seen: set<string>): seq<Claim> {
    if Named(f) then [Claim(f.normalized.value, Claimed(f.normalized.value, seen), f)] else []
  }

  lemma {:induction false} ClaimsSnoc(files: seq<Incoming>, f: Incoming, seen: set<string>)
    ensures Claims(files + [f], seen) == Claims(files, seen) + NextClaims(f, seen + Names(Claims(files, seen)))
    decreases |files|
  {
    var all := files + [f];
    if files == [] {
      assert all[1..] == [];
      assert seen + Names(Claims(files, seen)) == seen;
    } else {
      assert all[1..] == files[1..] + [f];
      if Named(files[0]) {
        var name := Claimed(files[0].normalized.value, seen);
        ClaimsSnoc(files[1..], f, seen + {name});
        var rest := Claims(files[1..], seen + {name});
        assert Claims(files, seen) == [Claim(files[0].normalized.value, name, files[0])] + rest;
        assert seen + Names(Claims(files, seen)) == seen + {name} + Names(rest);
      } else {
        ClaimsSnoc(files[1..], f, seen);
      }
    }
  }

  lemma {:induction false} ClaimsPrefix(files: seq<Incoming>, n: nat)
    requires n <= |files|
    ensures Claims(files[..n], {}) <= Claims(files, {})
    decreases |files| - n
  {
    if n == |files| {
      assert files[..n] == files;
    } else {
      assert files[..n+1] == files[..n] + [files[n]];
      ClaimsSnoc(files[..n], files[n], {});
      ClaimsPrefix(files, n + 1);
    }
  }

  lemma OpenedSnoc(claims: seq<Claim>, c: Claim)
    ensures Opened(claims + [c]) == if c.file.opening.Opens? then Opened(claims) + [c] else Opened(claims)
    ensures Skipped(claims + [c]) == if c.file.opening.Unsafe? then Skipped(claims) + [c.name] else Skipped(claims)
    ensures Total(claims + [c]) == Total(claims) + |Body(c.file.chunks)|
    ensures Infos(claims + [c]) == Infos(claims) + [Info(c.name, c.original, |Body(c.file.chunks)|)]
    ensures forall disk :: Installed(disk, claims + [c]) == Installed(disk, claims)[c.name := Body(c.file.chunks)]
    ensures Names(claims + [c]) == Names(claims) + {c.name}
    ensures NameList(claims + [c]) == NameList(claims) + [c.name]
  {
    assert (claims + [c])[..|claims|] == claims;
  }

  lemma SoundSnoc(claims: seq<Claim>, c: Claim, limits: Limits)
    ensures AllSound(claims + [c], limits) <==> AllSound(claims, limits) && Sound(c, limits)
  {
    hide Sound;
    var all := claims + [c];
    assert all[|claims|] == c;
    assert forall i :: 0 <= i < |claims| ==> all[i] == claims[i];
  }

  lemma TotalSnoc(claims: seq<Claim>, c: Claim)
    ensures Total(Opened(claims + [c]))
         == Total(Opened(claims)) + if c.file.opening.Opens? then |Body(c.file.chunks)| else 0
  {
    OpenedSnoc(claims, c);
    OpenedSnoc(Opened(claims), c);
  }

  lemma AcceptableSnoc(claims: seq<Claim>, c: Claim, limits: Limits)
    requires Acceptable(claims, limits)
    ensures Acceptable(claims + [c], limits)
       <==> !c.file.opening.OpenFails?
            && (c.file.opening.Opens? ==>
                  var size := |Body(c.file.chunks)|;
                  Clean(c.file.chunks) && Fits(size, Total(Opened(claims)) + size, limits))
  {
    hide Body, Clean, Opened, Total, AllSound;
    SoundSnoc(claims, c, limits);
    TotalSnoc(claims, c);
  }

  // What is refused stays refused, whatever follows.
  lemma {:induction false} AcceptablePrefix(claims: seq<Claim>, k: nat, limits: Limits)
    requires k <= |claims| && Acceptable(claims, limits)
    ensures Acceptable(claims[..k], limits)
    decreases |claims|
  {
    hide Opened, Total, AllSound;
    if k == |claims| {
      assert claims[..k] == claims;
    } else {
      var init, last := claims[..|claims|-1], claims[|claims|-1];
      assert claims == init + [last];
      SoundSnoc(init, last, limits);
      TotalSnoc(init, last);
      AcceptablePrefix(init, k, limits);
      assert init[..k] == claims[..k];
    }
  }

  lemma {:induction false} InstalledMinus(disk: Disk, claims: seq<Claim>, gone: set<string>)
    requires Names(claims) <= gone
    ensures Installed(disk, claims) - gone == disk - gone
    decreases |claims|
  {
    if claims != [] {
      var init, last := claims[..|claims|-1], claims[|claims|-1];
      assert last in claims && last.name in Names(claims);
      assert forall c :: c in init ==> c in claims;
      InstalledMinus(disk, init, gone);
    }
  }

  lemma {:induction false} OpenedNames(claims: seq<Claim>)
    ensures Names(Opened(claims)) <= Names(claims)
    ensures forall c :: c in Opened(claims) ==> c in claims && c.file.opening.Opens?
    decreases |claims|
  {
    if claims != [] {
      OpenedNames(claims[..|claims|-1]);
    }
  }

  lemma NameListNames(claims: seq<Claim>)
    ensures (set n | n in NameList(claims)) == Names(claims)
    ensures forall n :: n in NameList(claims) <==> n in Names(claims)
  {
    var list := NameList(claims);
    forall n ensures n in list <==> n in Names(claims) {
      if n in Names(claims) {
        var i :| 0 <= i < |claims| && claims[i].name == n;
        assert list[i] == n;
      }
    }
  }

  // What the rollback amounts to.
  lemma CleanedUp(before: Disk, stored: seq<Claim>, name: string)
    ensures Installed(before, stored) - (set p | p in NameList(stored)) == before - Names(stored)
    ensures Installed(before, stored)[name := []] - {name} - (set p | p in NameList(stored)) == before - (Names(stored) + {name})
    ensures Installed(before, stored) - {name} - (set p | p in NameList(stored)) == before - (Names(stored) + {name})
  {
    NameListNames(stored);
    InstalledMinus(before, stored, Names(stored));
    InstalledMinus(before, stored, Names(stored) + {name});
    var d, gone := Installed(before, stored), Names(stored);
    assert d - {name} - gone == d - (gone + {name});
    assert d[name := []] - {name} == d - {name};
  }

  // --- the totals of a request under way ---

  datatype Tally = Tally(total: nat, written: seq<string>, infos: seq<Info>, skipped: seq<string>)

  ghost predicate Tallied(t: Tally, claims: seq<Claim>) {
    && t.total == Total(Opened(claims)) && t.written == NameList(Opened(claims))
    && t.infos == Infos(Opened(claims)) && t.skipped == Skipped(claims)
  }

  ghost predicate InPlace(disk: Disk, before: Disk, t: Tally, claims: seq<Claim>, limits: Limits) {
    && disk == Installed(before, Opened(claims))
    && WithinLimits(disk, t.written, limits) && Kept(disk, t.written) == t.total <= limits.maxTotalSize
  }

  // Why a claim was refused after total bytes.
  ghost predicate CauseOf(c: Claim, total: nat, limits: Limits, e: Error) {
    if c.file.opening.OpenFails? then e == Broken
    else c.file.opening.Opens? && exists j :: FailsAt(c.file.chunks, total, limits, j, e)
  }

  ghost predicate Refused(all: seq<Claim>, limits: Limits, k: nat, e: Error) {
    FirstRefused(all, limits, k) && CauseOf(all[k], Total(Opened(all[..k])), limits, e)
  }

  lemma NothingYet(disk: Disk, limits: Limits)
    ensures Tallied(Tally(0, [], [], []), []) && InPlace(disk, disk, Tally(0, [], [], []), [], limits)
    ensures Acceptable([], limits) && Claims([], {}) == [] && Names([]) == {}
  {}

  lemma AllDone(t: Tally, claims: seq<Claim>, before: Disk, disk: Disk, limits: Limits)
    requires Tallied(t, claims) && InPlace(disk, before, t, claims, limits)
    ensures t.infos == Infos(Opened(claims)) && t.skipped == Skipped(claims) && disk == Installed(before, Opened(claims))
  {}

  lemma ClaimIsFree(name: string, seen: set<string>)
    ensures Claimed(name, seen) !in seen
  {}

  lemma FirstClaims(files: seq<Incoming>, f: Incoming)
    ensures Claims(files + [f], {}) == Claims(files, {}) + NextClaims(f, Names(Claims(files, {})))
  {
    hide Claims, Names;
    ClaimsSnoc(files, f, {});
    var seen := Names(Claims(files, {}));
    assert {} + seen == seen;
  }

  lemma NextFile(files: seq<Incoming>, n: nat)
    requires n < |files|
    ensures Claims(files[..n+1], {}) == Claims(files[..n], {}) + NextClaims(files[n], Names(Claims(files[..n], {})))
  {
    hide *;
    var init, f := files[..n], files[n];
    assert files[..n+1] == init + [f];
    FirstClaims(init, f);
  }

  lemma RefusedHere(all: seq<Claim>, claims: seq<Claim>, c: Claim, limits: Limits, t: Tally, e: Error)
    requires claims + [c] <= all && Acceptable(claims, limits) && !Acceptable(claims + [c], limits)
    requires Tallied(t, claims) && CauseOf(c, t.total, limits, e)
    ensures Refused(all, limits, |claims|, e) && all[..|claims|+1] == claims + [c]
    ensures !Acceptable(all, limits)
  {
    var k := |claims|;
    assert all[..k] == claims && all[..k+1] == claims + [c];
    if Acceptable(all, limits) {
      AcceptablePrefix(all, k + 1, limits);
    }
  }

  // --- what a request leaves behind ---

  lemma NamesSnoc(claims: seq<Claim>, c: Claim)
    ensures Names(claims + [c]) == Names(claims) + {c.name}
  {
    OpenedSnoc(claims, c);
  }

  lemma {:induction false} InstalledKeys(disk: Disk, stored: seq<Claim>)
    ensures Installed(disk, stored).Keys == disk.Keys + Names(stored)
    ensures forall n :: n in disk && n !in Names(stored) ==> Installed(disk, stored)[n] == disk[n]
    decreases |stored|
  {
    if stored != [] {
      var init, last := stored[..|stored|-1], stored[|stored|-1];
      hide Body, Names;
      InstalledKeys(disk, init);
      NamesSnoc(init, last);
      assert stored == init + [last];
    }
  }

  ghost predicate DistinctNames(claims: seq<Claim>) {
    forall i, j :: 0 <= i < j < |claims| ==> claims[i].name != claims[j].name
  }

  lemma {:induction false} InstalledBody(disk: Disk, stored: seq<Claim>, i: nat)
    requires DistinctNames(stored) && i < |stored|
    ensures stored[i].name in Installed(disk, stored)
    ensures Installed(disk, stored)[stored[i].name] == Body(stored[i].file.chunks)
    decreases |stored|
  {
    hide Body;
    if i < |stored| - 1 {
      assert stored[i].name != stored[|stored|-1].name;
      assert DistinctNames(stored[..|stored|-1]);
      InstalledBody(disk, stored[..|stored|-1], i);
    }
  }

  lemma {:induction false} OpenedDistinct(claims: seq<Claim>)
    requires DistinctNames(claims)
    ensures DistinctNames(Opened(claims))
    ensures forall c :: c in Opened(claims) ==> c in claims
    decreases |claims|
  {
    if claims != [] {
      var init, last := claims[..|claims|-1], claims[|claims|-1];
      assert forall i :: 0 <= i < |init| ==> init[i].name != last.name;
      assert forall c :: c in init ==> c.name != last.name;
      OpenedDistinct(init);
      assert forall i :: 0 <= i < |Opened(init)| ==> Opened(init)[i] in Opened(init);
    }
  }

  lemma {:induction false} InfosAt(claims: seq<Claim>, i: nat)
    requires i < |claims|
    ensures |Infos(claims)| == |claims|
    ensures Infos(claims)[i] == Info(claims[i].name, claims[i].original, |Body(claims[i].file.chunks)|)
    decreases |claims|
  {
    if |claims| > 1 {
      var init := claims[..|claims|-1];
      InfosAt(init, if i < |init| then i else 0);
    }
  }

  // After a successful request exactly the reported files have been added or
  // replaced, with the sizes reported.
  lemma StoredExactly(files: seq<Incoming>, before: Disk, i: nat)
    requires i < |Opened(Claims(files, {}))|
    ensures var stored := Opened(Claims(files, {}));
            var after, info := Installed(before, stored), Infos(stored);
            && after.Keys == before.Keys + Names(stored)
            && (forall n :: n in before && n !in Names(stored) ==> after[n] == before[n])
            && |info| == |stored| && info[i].name == stored[i].name && info[i].name in after
            && after[info[i].name] == Body(stored[i].file.chunks) && info[i].size == |after[info[i].name]|
  {
    ClaimsDistinct(files, {});
    OpenedDistinct(Claims(files, {}));
    var stored := Opened(Claims(files, {}));
    InstalledKeys(before, stored);
    InstalledBody(before, stored, i);
    InfosAt(stored, i);
  }

  // None of these names is in use.
  ghost predicate AllNew(claims: seq<Claim>, disk: Disk) {
    forall c :: c in claims ==> c.name !in disk
  }

  // These files are there already, with the same contents.
  ghost predicate AllThere(claims: seq<Claim>, disk: Disk) {
    forall c :: c in claims ==> c.name in disk && disk[c.name] == Body(c.file.chunks)
  }

  // What removing the touched files takes away.
  lemma RolledBackExactly(before: Disk, touched: seq<Claim>)
    ensures before - Names(touched) == before <==> AllNew(touched, before)
  {
    if c :| c in touched && c.name in before {
      assert c.name in Names(touched);
      assert c.name !in before - Names(touched);
    }
  }

  lemma StoredAgainExactly(files: seq<Incoming>, before: Disk)
    ensures var stored := Opened(Claims(files, {}));
            Installed(before, stored) == before <==> AllThere(stored, before)
  {
    var stored := Opened(Claims(files, {}));
    var after := Installed(before, stored);
    ClaimsDistinct(files, {});
    OpenedDistinct(Claims(files, {}));
    InstalledKeys(before, stored);
    forall i | 0 <= i < |stored|
      ensures stored[i].name in after && after[stored[i].name] == Body(stored[i].file.chunks)
    {
      InstalledBody(before, stored, i);
    }
    hide Body, Installed, Claims, Opened;
    if AllThere(stored, before) {
      assert forall c :: c in stored ==> c.name in before;
      assert Names(stored) <= before.Keys;
      forall n | n in before ensures after[n] == before[n] {
        if n in Names(stored) {
          var i :| 0 <= i < |stored| && stored[i].name == n;
          assert stored[i] in stored;
        }
      }
    }
  }

  // --- the directory ---

  lemma Nothing()
    ensures Clean([]) && Body([]) == []
  {}

  // The checks on one piece, before and while it is written.
  method Check(c: Chunk, size: nat, total: nat, limits: Limits) returns (problem: Option<Error>)
    ensures problem == Problem(c, size, total, limits)
  {
    if c.ReadFails? {
      return Some(Broken);
    }
    if size + |c.bytes| > limits.maxFileSize {
      return Some(FileTooLarge);
    }
    if total + |c.bytes| > limits.maxTotalSize {
      return Some(TotalTooLarge);
    }
    return if c.written then None else Some(Broken);
  }

  class UploadDir {
    var disk: Disk
    ghost var trail: seq<Snapshot>

    // Every state since then is within the limits.
    ghost predicate Watched(since: nat, limits: Limits)
      reads this
    {
      since <= |trail| && forall i :: since <= i < |trail| ==> WithinLimits(trail[i].disk, trail[i].names, limits)
    }

    method Put(d: Disk, ghost names: seq<string>, ghost since: nat, ghost limits: Limits)
      requires Watched(since, limits) && WithinLimits(d, names, limits)
      modifies this
      ensures disk == d && trail == old(trail) + [Snapshot(d, names)] && Watched(since, limits)
    {
      disk := d;
      trail := trail + [Snapshot(d, names)];
    }

    method WriteWithLimits(name: string, chunks: seq<Chunk>, limits: Limits, total: nat, ghost names: seq<string>)
      returns (r: Result<nat, Error>, ghost j: nat)
      requires name !in names && WithinLimits(disk, names, limits) && Kept(disk, names) == total <= limits.maxTotalSize
      modifies this
      ensures old(trail) <= trail && Watched(old(|trail|), limits)
      ensures r.Success? <==> Clean(chunks) && Fits(|Body(chunks)|, total + |Body(chunks)|, limits)
      ensures r.Success? ==> r.value == |Body(chunks)| && disk == old(disk)[name := Body(chunks)]
      ensures r.Failure? ==> FailsAt(chunks, total, limits, j, r.error) && disk == old(disk) - {name}
    {
      hide WithinLimits, Kept, Body, Clean;
      ghost var before, since := disk, |trail|;
      ghost var all := names + [name];
      var size, i := 0, 0;
      Nothing();
      WritingWithin(before, names, name, [], total, limits);
      Put(disk[name := []], all, since, limits);
      while i < |chunks|
        invariant i <= |chunks| && old(trail) <= trail && Watched(since, limits)
        invariant disk == before[name := Body(chunks[..i])] && size == |Body(chunks[..i])|
        invariant Clean(chunks[..i]) && Fits(size, total + size, limits)
        invariant forall k :: 0 <= k < i ==> !IsEnd(chunks[k])
      {
        if IsEnd(chunks[i]) {
          break;
        }
        var problem := Check(chunks[i], size, total + size, limits);
        if problem.Some? {
          r, j := Failure(problem.value), i;
          FailureIsFinal(chunks, total, limits, i, problem.value);
          WritingWithin(before, names, name, disk[name], total, limits);
          RemovedWithin(before[name := disk[name]], all, {name}, limits);
          Put(disk - {name}, all, since, limits);
          return;
        }
        BodySnoc(chunks[..i], chunks[i]);
        assert chunks[..i+1] == chunks[..i] + [chunks[i]];
        size := size + |chunks[i].bytes|;
        i := i + 1;
        WritingWithin(before, names, name, Body(chunks[..i]), total, limits);
        var more := disk[name := disk[name] + chunks[i-1].bytes];
        assert more == before[name := Body(chunks[..i])];
        Put(more, all, since, limits);
      }
      BodyEnds(chunks, i);
      r, j := Success(size), 0;
    }

    // Removes what was written, last first.
    method Cleanup(paths: seq<string>, limits: Limits, ghost names: seq<string>)
      requires WithinLimits(disk, names, limits)
      modifies this
      ensures old(trail) <= trail && Watched(old(|trail|), limits)
      ensures disk == old(disk) - (set p | p in paths)
    {
      hide WithinLimits;
      ghost var since := |trail|;
      var i := |paths|;
      while i > 0
        invariant 0 <= i <= |paths| && old(trail) <= trail && Watched(since, limits)
        invariant WithinLimits(disk, names, limits)
        invariant disk == old(disk) - (set p | p in paths[i..])
      {
        i := i - 1;
        assert paths[i..] == [paths[i]] + paths[i+1..];
        RemovedWithin(disk, names, {paths[i]}, limits);
        Put(disk - {paths[i]}, names, since, limits);
      }
      assert paths[0..] == paths;
    }

    // One file that has a name: opened and written, skipped, or the end of the request.
    method OneFile(c: Claim, t: Tally, limits: Limits, ghost claims: seq<Claim>, ghost before: Disk)
      returns (r: Result<Tally, Error>)
      requires Tallied(t, claims) && Acceptable(claims, limits) && c.name !in Names(claims)
      requires InPlace(disk, before, t, claims, limits)
      modifies this
      ensures old(trail) <= trail && Watched(old(|trail|), limits)
      ensures r.Success? <==> Acceptable(claims + [c], limits)
      ensures r.Success? ==> Tallied(r.value, claims + [c]) && InPlace(disk, before, r.value, claims + [c], limits)
      ensures r.Failure? ==>
                CauseOf(c, t.total, limits, r.error) && disk == before - Names(Opened(claims + [c]))
    {
      hide WithinLimits, Kept, Total, Opened, Infos, Installed, Skipped, NameList, Names, FailsAt, Body, Clean, Claims;
      AcceptableSnoc(claims, c, limits);
      OpenedSnoc(claims, c);
      OpenedSnoc(Opened(claims), c);
      NameListNames(Opened(claims));
      OpenedNames(claims);
      CleanedUp(before, Opened(claims), c.name);
      hide Acceptable;
      match c.file.opening
      case Unsafe =>
        r := Success(t.(skipped := t.skipped + [c.name]));
      case OpenFails =>
        Cleanup(t.written, limits, t.written);
        r := Failure(Broken);
      case Opens =>
        var size, j := WriteWithLimits(c.name, c.file.chunks, limits, t.total, t.written);
        if size.Success? {
          WritingWithin(Installed(before, Opened(claims)), t.written, c.name, Body(c.file.chunks), t.total, limits);
          r := Success(Tally(t.total + size.value, t.written + [c.name],
                             t.infos + [Info(c.name, c.original, size.value)], t.skipped));
        } else {
          RemovedWithin(Installed(before, Opened(claims)), t.written, {c.name}, limits);
          Cleanup(t.written, limits, t.written);
          r := Failure(size.error);
        }
    }

    // Puts every acceptable file in place, or none: at the first file that cannot be
    // accepted, everything this request has opened is removed.
    method UploadFiles(files: seq<Incoming>, limits: Limits) returns (r: Result<Response, Error>, ghost k: nat)
      modifies this
      ensures old(trail) <= trail && Watched(old(|trail|), limits)
      ensures r.Success? <==> 0 < |files| <= limits.maxFiles && Acceptable(Claims(files, {}), limits)
      ensures r.Success? ==>
                var all := Claims(files, {});
                r.value == Response(Infos(Opened(all)), Skipped(all)) && disk == Installed(old(disk), Opened(all))
      ensures r.Failure? && !(0 < |files| <= limits.maxFiles) ==>
                disk == old(disk) && r.error == if files == [] then NoFiles else TooManyFiles
      ensures r.Failure? && 0 < |files| <= limits.maxFiles ==>
                Refused(Claims(files, {}), limits, k, r.error)
                && disk == old(disk) - Names(Opened(Claims(files, {})[..k+1]))
      // the request leaves the directory as it was
      ensures r.Failure? && 0 < |files| <= limits.maxFiles ==>
                (disk == old(disk) <==> AllNew(Opened(Claims(files, {})[..k+1]), old(disk)))
      ensures r.Success? ==> (disk == old(disk) <==> AllThere(Opened(Claims(files, {})), old(disk)))
    {
      hide Acceptable, CauseOf, Tallied, InPlace, AllNew, AllThere, Opened, Names, Installed, Infos, Skipped;
      if files == [] {
        return Failure(NoFiles), 0;
      }
      if |files| > limits.maxFiles {
        return Failure(TooManyFiles), 0;
      }
      ghost var since, before := |trail|, disk;
      ghost var claims: seq<Claim> := [];
      var seen, tally, n := {}, Tally(0, [], [], []), 0;
      NothingYet(disk, limits);
      while n < |files|
        invariant n <= |files| && old(trail) <= trail && Watched(since, limits)
        invariant claims == Claims(files[..n], {}) && seen == Names(claims) && Acceptable(claims, limits)
        invariant Tallied(tally, claims) && InPlace(disk, before, tally, claims, limits)
      {
        NextFile(files, n);
        ClaimsPrefix(files, n + 1);
        var f := files[n];
        if Named(f) {
          var name;
          name, seen := ClaimUniqueFilename(f.normalized.value, seen);
          ClaimUnique(f.normalized.value, Names(claims), name, Claimed(f.normalized.value, Names(claims)));
          ClaimIsFree(f.normalized.value, Names(claims));
          var c := Claim(f.normalized.value, name, f);
          var next := OneFile(c, tally, limits, claims, before);
          if next.Failure? {
            k := |claims|;
            RefusedHere(Claims(files, {}), claims, c, limits, tally, next.error);
            RolledBackExactly(before, Opened(claims + [c]));
            return Failure(next.error), k;
          }
          OpenedSnoc(claims, c);
          claims, tally := claims + [c], next.value;
        }
        n := n + 1;
      }
      assert files[..n] == files;
      AllDone(tally, claims, before, disk, limits);
      StoredAgainExactly(files, before);
      r, k := Success(Response(tally.infos, tally.skipped)), 0;
    }
  }

  // --- a file that is lost ---

  // One upload that is too large takes an earlier file of the same name with it.
  lemma ReplacedIsLost(filename: string, name: string, earlier: Bytes, later: Bytes, limits: Limits)
    requires filename != "" && |later| > limits.maxFileSize
    ensures
      var all := Claims([Incoming(filename, Some(name), Opens, [Data(later, true)])], {});
      FirstRefused(all, limits, 0) && map[name := earlier] - Names(Opened(all[..1])) == map[]
  {
    var file := Incoming(filename, Some(name), Opens, [Data(later, true)]);
    var c := Claim(name, name, file);
    assert [file][1..] == [] && Claims([], {} + {name}) == [] && Claimed(name, {}) == name;
    assert Claims([file], {}) == [c];
    OneChunk(later);
    OneOpened(c);
    NothingYet(map[], limits);
    AcceptableSnoc([], c, limits);
    assert [c][..1] == [] + [c] && [c][..0] == [];
    hide Acceptable, Opened, Names, Body, Clean;
  }

  lemma OneChunk(bytes: Bytes)
    ensures Body([Data(bytes, true)]) == bytes
  {
    assert bytes + Body([]) == bytes;
  }

  lemma OneOpened(c: Claim)
    requires c.file.opening.Opens?
    ensures Names(Opened([c])) == {c.name}
  {
    OpenedSnoc([], c);
    assert [] + [c] == [c];
  }

  // --- which files are claimed, and which limit a piece breaks ---

  ghost function FilesOf(claims: seq<Claim>): seq<Incoming> {
    seq(|claims|, i requires 0 <= i < |claims| => claims[i].file)
  }

  // The files with a file name whose base name is safe, in order.
  ghost function WithName(files: seq<Incoming>): seq<Incoming> {
    if files == [] then []
    else
      var f := files[|files|-1];
      WithName(files[..|files|-1]) + if f.filename != "" && f.normalized.Some? then [f] else []
  }

  // Every file with a usable name is claimed, in order, under its own name or a numbered
  // variant that none before it has.
  lemma {:induction false} ClaimsExactly(files: seq<Incoming>)
    ensures FilesOf(Claims(files, {})) == WithName(files)
    ensures forall i :: 0 <= i < |Claims(files, {})| ==>
              var c := Claims(files, {})[i];
              c.file.normalized == Some(c.original) && IsClaim(c.original, Names(Claims(files, {})[..i]), c.name)
    decreases |files|
  {
    if files != [] {
      var init, f := files[..|files|-1], files[|files|-1];
      assert init + [f] == files;
      ClaimsExactly(init);
      FirstClaims(init, f);
      var before, more := Claims(init, {}), NextClaims(f, Names(Claims(init, {})));
      hide Claims, Names;
      assert FilesOf(before + more) == FilesOf(before) + FilesOf(more);
      var all := before + more;
      forall i | 0 <= i < |all|
        ensures all[i].file.normalized == Some(all[i].original) && IsClaim(all[i].original, Names(all[..i]), all[i].name)
      {
        if i < |before| {
          assert all[i] == before[i] && all[..i] == before[..i];
        } else {
          assert all[..i] == before;
        }
      }
    }
  }

  // The error of a failing piece: a file beyond its own limit is reported as such; only
  // a file within it can break the limit on the whole request; anything else is broken.
  lemma CauseExactly(chunks: seq<Chunk>, total: nat, limits: Limits, j: nat, e: Error)
    requires FailsAt(chunks, total, limits, j, e)
    ensures var got := |Body(chunks[..j])|;
            && (e == FileTooLarge <==> chunks[j].Data? && got + |chunks[j].bytes| > limits.maxFileSize)
            && (e == TotalTooLarge <==> chunks[j].Data? && got + |chunks[j].bytes| <= limits.maxFileSize
                                        && total + got + |chunks[j].bytes| > limits.maxTotalSize)
            && e in {FileTooLarge, TotalTooLarge, Broken}
  {
    hide Body, Clean;
  }

  // --- which claims are opened, and which are skipped ---

  // Opened are exactly the claims whose destination opens, in order; skipped are the
  // names of exactly those whose destination is unsafe.
  lemma {:induction false} OpenedExactly(claims: seq<Claim>)
    ensures forall c :: c in Opened(claims) <==> c in claims && c.file.opening.Opens?
    ensures forall name :: name in Skipped(claims) <==> exists c :: c in claims && c.file.opening.Unsafe? && c.name == name
    decreases |claims|
  {
    if claims != [] {
      var init, last := claims[..|claims|-1], claims[|claims|-1];
      OpenedExactly(init);
      assert claims == init + [last];
      assert forall c :: c in claims <==> c in init || c == last;
      forall name ensures name in Skipped(claims) <==> exists c :: c in claims && c.file.opening.Unsafe? && c.name == name {
        if last.file.opening.Unsafe? && last.name == name {
          assert last in claims;
        }
      }
    }
  }

  // In order: a claim opened before another one was claimed before it.
  lemma {:induction false} OpenedInOrder(claims: seq<Claim>)
    ensures Subseq(Opened(claims), claims)
    decreases |claims|
  {
    if claims != [] {
      var init, last := claims[..|claims|-1], claims[|claims|-1];
      OpenedInOrder(init);
      assert claims == init + [last];
      assert Subseq([last], [last]) && Subseq([], [last]);
      SubseqAppend(Opened(init), init, [last], [last]);
      SubseqAppend(Opened(init), init, [], [last]);
      assert Opened(init) + [] == Opened(init);
    }
  }
}
