/** Reading the merged file gives the project's rules and the release's, exactly when the new
    keys and an existing key's entries do not meet at one line. */
module RulesUnions {
  import opened Common
  import opened RulesLines
  import opened RulesBlocks
  import opened RulesSplices
  import opened RulesMerges
  import opened RulesRereads
  import opened RulesInstalls

  // ----- the file in parts

  /** The lines up to the header, the block up to the insertion line, the blank lines that end
      the block, and the rest. */
  lemma CutFile(lines: Text, b: Block) returns (head: Text, own: Text, tail: Text, rest: Text)
    requires HasBlock(lines, b)
    ensures lines == head + (own + tail) + rest
    ensures |head| == b.header + 1 && |head| + |own| == InsertAt(lines, b.header, b.end) && |own| + |tail| == b.end - |head|
    ensures ReadAll(Start(|head|), own + tail) == Ok(b.reading)
    ensures forall i :: 0 <= i < |tail| ==> !HasContent(tail[i])
  {
    head, own, tail, rest := CutAt(lines, b.header + 1, InsertAt(lines, b.header, b.end), b.end);
    forall i | 0 <= i < |tail|
      ensures !HasContent(tail[i])
    {
      assert tail[i] == lines[|head| + |own| + i];
    }
  }

  lemma CutAt<T>(s: seq<T>, h: nat, q: nat, e: nat) returns (head: seq<T>, own: seq<T>, tail: seq<T>, rest: seq<T>)
    requires h <= q <= e <= |s|
    ensures s == head + (own + tail) + rest && s[h..e] == own + tail
    ensures |head| == h && |head| + |own| == q && |own| + |tail| == e - h
    ensures forall i :: 0 <= i < |tail| ==> tail[i] == s[q + i]
  {
    head, own, tail, rest := s[..h], s[h..q], s[q..e], s[e..];
    InFour(s, h, q, e);
  }

  lemma InFour<T>(s: seq<T>, h: nat, q: nat, e: nat)
    requires h <= q <= e <= |s|
    ensures s == s[..h] + (s[h..q] + s[q..e]) + s[e..] && s[h..e] == s[h..q] + s[q..e]
  {
  }

  /** Nothing but blank lines follows the insertion line, so every key ends before it. */
  lemma BeforeBlanks(h: nat, own: Text, tail: Text, end: Reading)
    requires ReadAll(Start(h), own + tail) == Ok(end) && forall i :: 0 <= i < |tail| ==> !HasContent(tail[i])
    ensures Sound(end) && Injective(end.last) && AllBlank(tail)
    ensures forall c :: c in end.last ==> h <= end.last[c] < h + |own|
    ensures KeyAt(end.last, h + |own|).Some? ==> end.child == KeyAt(end.last, h + |own|)
  {
    ReadConcat(Start(h), own, tail);
    var u := ReadAll(Start(h), own).value;
    ReadAllSound(Start(h), own);
    ReadAllPlaced(Start(h), own);
    EndOfOwnLines(u, tail, end);
  }

  lemma EndOfOwnLines(u: Reading, tail: Text, end: Reading)
    requires Sound(u) && Placed(u) && ReadAll(u, tail) == Ok(end)
    requires forall i :: 0 <= i < |tail| ==> !HasContent(tail[i])
    ensures end == Reading(u.at + |tail|, u.child, u.last, u.pairs) && AllBlank(tail)
    ensures KeyAt(end.last, u.at).Some? ==> end.child == KeyAt(end.last, u.at)
  {
    Toward(u, tail, end);
    ReadBlanks(u, tail);
  }

  // ----- the merged block

  ghost function OwnSlots(h: nat, n: nat, last: map<string, nat>, missing: seq<Pair>): (r: seq<Text>)
    ensures |r| == n && forall i :: 0 <= i < n ==> r[i] == EntryLines(Gain(last, missing, h + i))
  {
    seq(n, i requires 0 <= i < n => EntryLines(Gain(last, missing, h + i)))
  }

  /** The block's own lines after the merge. */
  ghost function NewOwn(h: nat, own: Text, q: nat, last: map<string, nat>, missing: seq<Pair>): Text {
    WeaveTo(own, OwnSlots(h, |own|, last, missing)) + Slot(last, q, missing, q)
  }

  lemma WeaveAround(head: Text, own: Text, after: Text, q: nat, last: map<string, nat>, missing: seq<Pair>)
    requires q == |head| + |own| && forall c :: c in last ==> |head| <= last[c] < q
    ensures var lines := head + own + after;
            Weave(lines, SlotsFor(|lines|, last, q, missing)) == head + NewOwn(|head|, own, q, last, missing) + after
  {
    var lines, h := head + own + after, |head|;
    var slots := SlotsFor(|lines|, last, q, missing);
    forall j | 0 <= j < |slots| && (j < h || j > q)
      ensures slots[j] == []
    {
      assert slots[j] == Slot(last, q, missing, j);
    }
    WeaveSegment(lines, slots, h, q);
    OwnSlotsAre(h, |own|, q, |lines|, last, missing);
    assert lines[..h] == head && lines[h..q] == own && lines[q..] == after;
    Reassociate(head, WeaveTo(own, slots[h..q]), slots[q], after);
  }

  lemma OwnSlotsAre(h: nat, n: nat, q: nat, total: nat, last: map<string, nat>, missing: seq<Pair>)
    requires h + n == q <= total
    ensures SlotsFor(total, last, q, missing)[h..q] == OwnSlots(h, n, last, missing)
  {
  }

  lemma Reassociate(a: Text, b: Text, c: Text, d: Text)
    ensures a + (b + c + d) == a + (b + c) + d
  {
  }

  lemma NewOwnInside(h: nat, own: Text, q: nat, last: map<string, nat>, missing: seq<Pair>)
    requires AllInside(own)
    ensures AllInside(NewOwn(h, own, q, last, missing))
  {
    var slots := OwnSlots(h, |own|, last, missing);
    forall i | 0 <= i < |own|
      ensures AllInside(slots[i])
    {
      EntryLinesInside(Gain(last, missing, h + i));
    }
    WeaveInside(own, slots);
    EntryLinesInside(Gain(last, missing, q));
    NewBlockInside(KeysOf(missing), last, missing);
  }

  /** The merge changes the block and nothing else: every line outside it, and every blank
      line that ends it, is left alone. */
  lemma MergeStaysInside(lines: Text, b: Block, missing: seq<Pair>, head: Text, own: Text, after: Text)
    requires HasBlock(lines, b) && lines == head + own + after
    requires |head| == b.header + 1 && |head| + |own| == InsertAt(lines, b.header, b.end)
    ensures Within(StableDesc(AllSplices(lines, b, missing)), |lines|)
    ensures Merged(lines, b, missing) == head + NewOwn(|head|, own, InsertAt(lines, b.header, b.end), b.reading.last, missing) + after
  {
    SplicesFit(lines, b, missing);
    MergeOnlyInserts(lines, b, missing);
    KeysInOwn(lines, b);
    WovenIsAround(lines, Merged(lines, b, missing), head, own, after, b.reading.last, InsertAt(lines, b.header, b.end), missing);
  }

  lemma WovenIsAround(lines: Text, merged: Text, head: Text, own: Text, after: Text, last: map<string, nat>, q: nat, missing: seq<Pair>)
    requires lines == head + own + after && q == |head| + |own| && forall c :: c in last ==> |head| <= last[c] < q
    requires merged == Weave(lines, SlotsFor(|lines|, last, q, missing))
    ensures merged == head + NewOwn(|head|, own, q, last, missing) + after
  {
    WeaveAround(head, own, after, q, last, missing);
  }

  lemma KeysInOwn(lines: Text, b: Block)
    requires HasBlock(lines, b)
    ensures forall c :: c in b.reading.last ==> b.header + 1 <= b.reading.last[c] < InsertAt(lines, b.header, b.end)
    ensures Sound(b.reading) && Injective(b.reading.last)
    ensures var q := InsertAt(lines, b.header, b.end);
            KeyAt(b.reading.last, q).Some? ==> b.reading.child == KeyAt(b.reading.last, q)
  {
    var head, own, tail, rest := CutFile(lines, b);
    BeforeBlanks(|head|, own, tail, b.reading);
  }

  // ----- the merged block read back

  /** The entries that `k` has in the merged file. */
  ghost function MergedEntries(end: Reading, missing: seq<Pair>, q: nat, k: string): seq<string> {
    var keys, gain := KeysOf(missing), Gain(end.last, missing, q);
    var own := Grown(EntriesOf(end.pairs, k), Passed(end.last, k, q), EntriesOf(missing, k));
    Grown(Grown(own, k in keys && k !in end.last, EntriesOf(missing, k)), gain != [] && Owner(keys, end) == Some(k), gain)
  }

  lemma ReadNewOwn(h: nat, own: Text, tail: Text, end: Reading, missing: seq<Pair>, q: nat, k: string) returns (r: Reading)
    requires q == h + |own| && ReadAll(Start(h), own + tail) == Ok(end) && forall i :: 0 <= i < |tail| ==> !HasContent(tail[i])
    requires Stripped(missing)
    ensures ReadAll(Start(h), NewOwn(h, own, q, end.last, missing) + tail) == Ok(r)
    ensures EntriesOf(r.pairs, k) == MergedEntries(end, missing, q, k)
  {
    var s, slots := Start(h), OwnSlots(h, |own|, end.last, missing);
    BeforeBlanks(h, own, tail, end);
    var u, t := ReadWoven(s, s, own, tail, slots, end, missing, k);
    assert u.at == q;
    EndOfOwnLines(u, tail, end);
    var v := ReadLastSlot(t, end, q, missing, k);
    r := ReadParts(s, WeaveTo(own, slots), Slot(end.last, q, missing, q), tail, t, v);
  }

  lemma ReadParts(s: Reading, woven: Text, slot: Text, blanks: Text, t: Reading, u: Reading) returns (r: Reading)
    requires ReadAll(s, woven) == Ok(t) && ReadAll(t, slot) == Ok(u) && AllBlank(blanks)
    ensures ReadAll(s, woven + slot + blanks) == Ok(r) && r.pairs == u.pairs
  {
    ReadConcat(s, woven, slot);
    ReadConcat(s, woven + slot, blanks);
    SkipBlanks(u, blanks);
    r := Reading(u.at + |blanks|, u.child, u.last, u.pairs);
  }

  lemma OwnInside(lines: Text, head: Text, own: Text, after: Text, header: nat, end: nat)
    requires lines == head + own + after && header + 1 == |head| && |head| + |own| <= end
    requires Locate(lines) == Ok(Some(Place(header, end)))
    ensures AllInside(own)
  {
    LocatedShape(lines, header, end);
    forall i | 0 <= i < |own|
      ensures TopOf(own[i]) == Inside
    {
      assert own[i] == lines[|head| + i] && LineFits(lines[|head| + i], |head| + i, header, end);
    }
  }

  lemma BlankInside(tail: Text)
    requires AllBlank(tail)
    ensures AllInside(tail)
  {
  }

  lemma InsideConcat(a: Text, b: Text)
    requires AllInside(a) && AllInside(b)
    ensures AllInside(a + b)
  {
    forall i | 0 <= i < |a + b|
      ensures TopOf((a + b)[i]) == Inside
    {
      assert (a + b)[i] == if i < |a| then a[i] else b[i - |a|];
    }
  }

  /** `inner` is the block's text after the merge, `before` and `after` the whole file's. */
  lemma CutReads(before: Text, after: Text, head: Text, own: Text, tail: Text, rest: Text, inner: Text, b: Block, q: nat,
                 missing: seq<Pair>, k: string)
    returns (c: Block)
    requires q == |head| + |own| && before == head + (own + tail) + rest && after == head + inner + rest
    requires inner == NewOwn(|head|, own, q, b.reading.last, missing) + tail
    requires AllInside(own) && Locate(before) == Ok(Some(Place(b.header, b.end)))
    requires b.header + 1 == |head| && b.end == |head| + |own + tail|
    requires ReadAll(Start(|head|), own + tail) == Ok(b.reading) && forall i :: 0 <= i < |tail| ==> !HasContent(tail[i])
    requires Stripped(missing)
    ensures HasBlock(after, c)
    ensures EntriesOf(c.reading.pairs, k) == MergedEntries(b.reading, missing, q, k)
  {
    NewInnerInside(|head|, own, tail, b.reading, missing, q);
    var r := ReadNewOwn(|head|, own, tail, b.reading, missing, q, k);
    var last := InnerSwapped(before, after, head, own + tail, inner, rest, b.header, b.end);
    c := BlockReads(after, head, inner, rest, b.header, last, r);
  }

  lemma NewInnerInside(h: nat, own: Text, tail: Text, end: Reading, missing: seq<Pair>, q: nat)
    requires ReadAll(Start(h), own + tail) == Ok(end) && forall i :: 0 <= i < |tail| ==> !HasContent(tail[i])
    requires AllInside(own)
    ensures AllInside(NewOwn(h, own, q, end.last, missing) + tail)
  {
    BeforeBlanks(h, own, tail, end);
    NewOwnInside(h, own, q, end.last, missing);
    BlankInside(tail);
    InsideConcat(NewOwn(h, own, q, end.last, missing), tail);
  }

  /** The file in parts, before and after the merge. */
  lemma CutBoth(lines: Text, b: Block, missing: seq<Pair>) returns (head: Text, own: Text, tail: Text, rest: Text, inner: Text)
    requires HasBlock(lines, b)
    ensures Within(StableDesc(AllSplices(lines, b, missing)), |lines|)
    ensures lines == head + (own + tail) + rest && Merged(lines, b, missing) == head + inner + rest
    ensures |head| == b.header + 1 && |head| + |own| == InsertAt(lines, b.header, b.end) && |head| + |own + tail| == b.end
    ensures inner == NewOwn(|head|, own, InsertAt(lines, b.header, b.end), b.reading.last, missing) + tail && AllInside(own)
    ensures ReadAll(Start(|head|), own + tail) == Ok(b.reading)
    ensures forall i :: 0 <= i < |tail| ==> !HasContent(tail[i])
  {
    head, own, tail, rest := CutFile(lines, b);
    var q := InsertAt(lines, b.header, b.end);
    inner := NewOwn(|head|, own, q, b.reading.last, missing) + tail;
    FourWays(head, own, tail, rest);
    OwnInside(lines, head, own, tail + rest, b.header, b.end);
    MergeStaysInside(lines, b, missing, head, own, tail + rest);
    FourWays(head, NewOwn(|head|, own, q, b.reading.last, missing), tail, rest);
  }

  lemma MergedReads(lines: Text, b: Block, missing: seq<Pair>, k: string) returns (c: Block)
    requires HasBlock(lines, b) && Stripped(missing)
    ensures Within(StableDesc(AllSplices(lines, b, missing)), |lines|)
    ensures HasBlock(Merged(lines, b, missing), c)
    ensures EntriesOf(c.reading.pairs, k) == MergedEntries(b.reading, missing, InsertAt(lines, b.header, b.end), k)
  {
    var head, own, tail, rest, inner := CutBoth(lines, b, missing);
    c := CutReads(lines, Merged(lines, b, missing), head, own, tail, rest, inner, b, InsertAt(lines, b.header, b.end), missing, k);
  }

  lemma FourWays(a: Text, b: Text, c: Text, d: Text)
    ensures a + (b + c) + d == a + b + (c + d)
  {
  }

  // ----- the tie

  /** Some missing pair has a new key, and some other belongs to a key that ends just before
      the insertion line. */
  predicate Tied(lines: Text, b: Block, missing: seq<Pair>)
    requires b.header < b.end <= |lines|
  {
    var q, last := InsertAt(lines, b.header, b.end), b.reading.last;
    && (exists p :: p in missing && p.0 !in last)
    && (exists p :: p in missing && p.0 in last && last[p.0] + 1 == q)
  }

  lemma TiedMeans(lines: Text, b: Block, missing: seq<Pair>)
    requires HasBlock(lines, b)
    ensures Tied(lines, b, missing)
            <==> LastNew(KeysOf(missing), b.reading.last).Some?
                 && Gain(b.reading.last, missing, InsertAt(lines, b.header, b.end)) != []
  {
    var keys, last, q := KeysOf(missing), b.reading.last, InsertAt(lines, b.header, b.end);
    BlockSound(lines, b);
    NewBlockEmpty(keys, last, missing);
    forall p | p in missing
      ensures p.0 in keys && EntriesOf(missing, p.0) != []
    {
      InEntries(missing, p.0, p.1);
      InKeys(missing, p.0);
    }
    if LastNew(keys, last).Some? {
      var k := LastNew(keys, last).value;
      InKeys(missing, k);
      InEntries(missing, k, EntriesOf(missing, k)[0]);
    }
    if Gain(last, missing, q) != [] {
      var k := KeyAt(last, q).value;
      InEntries(missing, k, EntriesOf(missing, k)[0]);
    }
    assert forall c :: c in last && last[c] + 1 == q ==> KeyAt(last, q) == Some(c);
  }

  lemma {:induction false} AbsentKey(pairs: seq<Pair>, k: string)
    requires forall i :: 0 <= i < |pairs| ==> pairs[i].0 != k
    ensures EntriesOf(pairs, k) == []
    decreases |pairs|
  {
    if pairs != [] {
      AbsentKey(pairs[..|pairs| - 1], k);
    }
  }

  /** Without a tie every key has its own entries, then the missing ones. */
  lemma UntiedEntries(end: Reading, missing: seq<Pair>, q: nat, k: string)
    requires Sound(end) && Injective(end.last) && forall c :: c in end.last ==> end.last[c] < q
    requires KeyAt(end.last, q).Some? ==> end.child == KeyAt(end.last, q)
    requires LastNew(KeysOf(missing), end.last).None? || Gain(end.last, missing, q) == []
    ensures MergedEntries(end, missing, q, k) == EntriesOf(end.pairs, k) + EntriesOf(missing, k)
  {
    InKeys(missing, k);
    NewBlockEmpty(KeysOf(missing), end.last, missing);
    var own, more := EntriesOf(end.pairs, k), EntriesOf(missing, k);
    assert own + [] == own && [] + more == more;
    if k !in end.last {
      AbsentKey(end.pairs, k);
    }
  }

  /** On a tie the existing key keeps only its own entries: the missing ones are read under
      the last new key. */
  lemma TiedEntries(lines: Text, b: Block, missing: seq<Pair>) returns (k: string)
    requires HasBlock(lines, b) && Tied(lines, b, missing)
    ensures EntriesOf(missing, k) != []
    ensures MergedEntries(b.reading, missing, InsertAt(lines, b.header, b.end), k) == EntriesOf(b.reading.pairs, k)
  {
    var q, last := InsertAt(lines, b.header, b.end), b.reading.last;
    TiedMeans(lines, b, missing);
    NewBlockEmpty(KeysOf(missing), last, missing);
    k := KeyAt(last, q).value;
  }

  // ----- the theorem

  ghost predicate IsUnion(pairs: seq<Pair>, a: seq<Pair>, b: seq<Pair>) {
    forall p :: p in pairs <==> p in a || p in b
  }

  lemma MergedIsUnion(lines: Text, b: Block, release: seq<Pair>, c: Block)
    requires HasBlock(lines, b) && Stripped(release)
    requires var missing := Missing(release, b.reading.pairs);
             Within(StableDesc(AllSplices(lines, b, missing)), |lines|) && HasBlock(Merged(lines, b, missing), c)
    ensures IsUnion(c.reading.pairs, b.reading.pairs, release)
            <==> !Tied(lines, b, Missing(release, b.reading.pairs))
    ensures Missing(release, c.reading.pairs) == []
            <==> !Tied(lines, b, Missing(release, b.reading.pairs))
  {
    var missing := Missing(release, b.reading.pairs);
    StrippedMissing(release, b.reading.pairs);
    BlockFound(Merged(lines, b, missing), c);
    if !Tied(lines, b, missing) {
      forall p: Pair
        ensures p in c.reading.pairs <==> p in b.reading.pairs || p in release
      {
        UntiedPair(lines, b, release, c, p);
      }
      NothingMissing(release, c.reading.pairs);
    } else {
      var k := TiedEntries(lines, b, missing);
      var d := MergedReads(lines, b, missing, k);
      BlockFound(Merged(lines, b, missing), d);
      var e := EntriesOf(missing, k)[0];
      InEntries(missing, k, e);
      InMissing(release, b.reading.pairs, (k, e));
      InEntries(b.reading.pairs, k, e);
      InEntries(c.reading.pairs, k, e);
      InMissing(release, c.reading.pairs, (k, e));
    }
  }

  lemma UntiedPair(lines: Text, b: Block, release: seq<Pair>, c: Block, p: Pair)
    requires HasBlock(lines, b) && Stripped(Missing(release, b.reading.pairs))
    requires var missing := Missing(release, b.reading.pairs);
             && !Tied(lines, b, missing) && Within(StableDesc(AllSplices(lines, b, missing)), |lines|)
             && RulesBlock(Merged(lines, b, missing)) == Ok(Some(c))
    ensures p in c.reading.pairs <==> p in b.reading.pairs || p in release
  {
    var missing := Missing(release, b.reading.pairs);
    var d := MergedReads(lines, b, missing, p.0);
    BlockFound(Merged(lines, b, missing), d);
    TiedMeans(lines, b, missing);
    KeysInOwn(lines, b);
    UntiedEntries(b.reading, missing, InsertAt(lines, b.header, b.end), p.0);
    InEntries(c.reading.pairs, p.0, p.1);
    InEntries(b.reading.pairs, p.0, p.1);
    InEntries(missing, p.0, p.1);
    InMissing(release, b.reading.pairs, p);
  }

  lemma {:induction false} StrippedMissing(release: seq<Pair>, owned: seq<Pair>)
    requires Stripped(release)
    ensures Stripped(Missing(release, owned))
    decreases |release|
  {
    if release != [] {
      StrippedMissing(release[..|release| - 1], owned);
    }
  }

  lemma NothingMissing(release: seq<Pair>, owned: seq<Pair>)
    requires forall p :: p in release ==> p in owned
    ensures Missing(release, owned) == []
  {
    var m := Missing(release, owned);
    if m != [] {
      InMissing(release, owned, m[0]);
    }
  }
}
