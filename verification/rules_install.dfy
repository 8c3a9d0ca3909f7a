/** install_config_merge: the merged text, and what it says when read again. */
module RulesInstalls {
  import opened Common
  import opened RulesLines
  import opened RulesBlocks
  import opened RulesSplices
  import opened RulesMerges
  import opened RulesRereads

  function TopLine(key: string, rest: string): string {
    key + ":" + rest
  }

  const HEADER := TopLine("rules", "")
  const SCHEMA := TopLine("schema", " spec-driven")

  function RenderRules(pairs: seq<Pair>): Text {
    if pairs == [] then []
    else
      var n := |pairs| - 1;
      var key := if n == 0 || pairs[n - 1].0 != pairs[n].0 then [KeyText(pairs[n].0)] else [];
      RenderRules(pairs[..n]) + (key + [EntryLine(pairs[n].1)])
  }

  /** A text that ends with a newline has an empty last line. */
  function WithoutLastNewline(lines: Text): Text {
    if |lines| >= 2 && lines[|lines| - 1] == "" then lines[..|lines| - 1] else lines
  }

  function Appended(lines: Text, pairs: seq<Pair>): Text {
    WithoutLastNewline(lines) + [HEADER] + RenderRules(pairs) + [""]
  }

  function Merged(lines: Text, b: Block, missing: seq<Pair>): Text
    requires b.header < b.end <= |lines|
    requires Within(StableDesc(AllSplices(lines, b, missing)), |lines|)
  {
    ApplySplices(lines, StableDesc(AllSplices(lines, b, missing)))
  }

  /** The text to write, or nothing. The local text is absent when the file is. */
  function InstallConfigMerge(release: Text, local: Option<Text>): Outcome<Option<Text>> {
    var r := RulesBlock(release);
    if r.Refused? then Refused(r.why)
    else if r.value.None? then Refused(ReleaseWithoutRules)
    else
      var pairs := r.value.value.reading.pairs;
      if local.None? then
        Ok(if pairs == [] then None else Some(Appended([SCHEMA, "", ""], pairs)))
      else
        var l := RulesBlock(local.value);
        if l.Refused? then Refused(l.why)
        else if l.value.None? then Ok(Some(Appended(local.value, pairs)))
        else
          var b := l.value.value;
          var missing := Missing(pairs, b.reading.pairs);
          if missing == [] then Ok(None)
          else
            BlockFound(local.value, b);
            SplicesFit(local.value, b, missing);
            Ok(Some(Merged(local.value, b, missing)))
  }

  // ----- every insertion lies inside the block

  lemma BlockSound(lines: Text, b: Block)
    requires HasBlock(lines, b)
    ensures Sound(b.reading) && Placed(b.reading) && b.reading.at == b.end && Stripped(b.reading.pairs)
    ensures Grouped(b.reading.pairs)
    ensures forall c :: c in b.reading.last ==> b.header < b.reading.last[c] < b.end
  {
    var s := Start(b.header + 1);
    ReadAllSound(s, lines[b.header + 1..b.end]);
    ReadAllPlaced(s, lines[b.header + 1..b.end]);
  }

  lemma {:induction false} EntrySplicesWithin(keys: seq<string>, last: map<string, nat>, missing: seq<Pair>, n: nat)
    requires forall c :: c in last ==> last[c] < n
    ensures Within(EntrySplices(keys, last, missing), n)
    decreases |keys|
  {
    if keys != [] {
      EntrySplicesWithin(keys[..|keys| - 1], last, missing, n);
    }
  }

  lemma SplicesFit(lines: Text, b: Block, missing: seq<Pair>)
    requires HasBlock(lines, b)
    ensures Within(AllSplices(lines, b, missing), |lines|)
    ensures Within(StableDesc(AllSplices(lines, b, missing)), |lines|)
  {
    BlockSound(lines, b);
    EntrySplicesWithin(KeysOf(missing), b.reading.last, missing, |lines|);
    SortSorts(AllSplices(lines, b, missing), |lines|);
  }

  // ----- what is inserted before each line

  /** Before line `i`: the missing entries of the key that ends there; at the insertion line
      `q`, first the new keys. */
  ghost function Slot(last: map<string, nat>, q: nat, missing: seq<Pair>, i: nat): Text {
    var entries := EntryLines(Gain(last, missing, i));
    if i == q then NewBlock(KeysOf(missing), last, missing) + entries else entries
  }

  lemma AllSplicesAt(lines: Text, b: Block, missing: seq<Pair>, i: nat)
    requires HasBlock(lines, b)
    ensures PiecesAt(AllSplices(lines, b, missing), i) == Slot(b.reading.last, InsertAt(lines, b.header, b.end), missing, i)
  {
    BlockSound(lines, b);
    EntryGain(b.reading.last, missing, i);
    var entries := EntrySplices(KeysOf(missing), b.reading.last, missing);
    var all := AllSplices(lines, b, missing);
    var added := NewBlock(KeysOf(missing), b.reading.last, missing);
    if added == [] {
      assert [] + EntryLines(Gain(b.reading.last, missing, i)) == EntryLines(Gain(b.reading.last, missing, i));
    } else {
      assert all[..|all| - 1] == entries;
    }
  }

  ghost function SlotsFor(n: nat, last: map<string, nat>, q: nat, missing: seq<Pair>): (r: seq<Text>)
    ensures |r| == n + 1 && forall i :: 0 <= i <= n ==> r[i] == Slot(last, q, missing, i)
  {
    seq(n + 1, i requires 0 <= i <= n => Slot(last, q, missing, i))
  }

  /** The merge only inserts: each line of the project's file stays, in order, with its slot
      before it. */
  lemma MergeOnlyInserts(lines: Text, b: Block, missing: seq<Pair>)
    requires HasBlock(lines, b)
    ensures Within(StableDesc(AllSplices(lines, b, missing)), |lines|)
    ensures Merged(lines, b, missing)
            == Weave(lines, SlotsFor(|lines|, b.reading.last, InsertAt(lines, b.header, b.end), missing))
  {
    var s := AllSplices(lines, b, missing);
    SplicesFit(lines, b, missing);
    SortedApplyIsWeave(lines, s);
    var x, y := Slots(s, |lines|), SlotsFor(|lines|, b.reading.last, InsertAt(lines, b.header, b.end), missing);
    forall i | 0 <= i <= |lines|
      ensures x[i] == y[i]
    {
      AllSplicesAt(lines, b, missing, i);
    }
    assert x == y;
  }

  // ----- the block after the merge

  /** Lines that can stand inside a block. */
  predicate AllInside(lines: Text) {
    forall i {:trigger TopOf(lines[i])} :: 0 <= i < |lines| ==> TopOf(lines[i]) == Inside
  }

  lemma {:induction false} EntryLinesInside(entries: seq<string>)
    ensures AllInside(EntryLines(entries))
    decreases |entries|
  {
    if entries != [] {
      EntryLinesInside(entries[1..]);
    }
  }

  lemma {:induction false} NewBlockInside(keys: seq<string>, last: map<string, nat>, missing: seq<Pair>)
    ensures AllInside(NewBlock(keys, last, missing))
    decreases |keys|
  {
    if keys != [] {
      NewBlockInside(keys[..|keys| - 1], last, missing);
      EntryLinesInside(EntriesOf(missing, keys[|keys| - 1]));
    }
  }

  lemma {:induction false} WeaveInside(lines: Text, slots: seq<Text>)
    requires |slots| == |lines| && AllInside(lines) && forall i :: 0 <= i < |slots| ==> AllInside(slots[i])
    ensures AllInside(WeaveTo(lines, slots))
    decreases |lines|
  {
    if lines != [] {
      WeaveInside(lines[1..], slots[1..]);
    }
  }

  /** Other lines inside the same block leave it the only one. */
  lemma InnerSwapped(before: Text, after: Text, head: Text, inner: Text, other: Text, rest: Text, header: nat, end: nat)
    returns (last: nat)
    requires before == head + inner + rest && after == head + other + rest
    requires header + 1 == |head| && end == |head| + |inner| && AllInside(other)
    requires Locate(before) == Ok(Some(Place(header, end)))
    ensures last == |head| + |other| && Locate(after) == Ok(Some(Place(header, last)))
  {
    last := |head| + |other|;
    LocatedShape(before, header, end);
    ShapeSwapped(head, inner, other, rest, header);
    ShapeLocated(after, header, last);
  }

  lemma ShapeSwapped(head: Text, inner: Text, other: Text, rest: Text, header: nat)
    requires header + 1 == |head| && AllInside(other)
    requires BlockShape(head + inner + rest, header, |head| + |inner|)
    ensures BlockShape(head + other + rest, header, |head| + |other|)
  {
    var before, after, h := head + inner + rest, head + other + rest, |head|;
    forall i | 0 <= i < |after|
      ensures LineFits(after[i], i, header, h + |other|)
    {
      if i < h {
        assert after[i] == before[i] && LineFits(before[i], i, header, h + |inner|);
      } else if i < h + |other| {
        assert after[i] == other[i - h];
      } else {
        var j := i - |other| + |inner|;
        assert after[i] == before[j] && LineFits(before[j], j, header, h + |inner|);
      }
    }
    assert after[header] == before[header];
    if rest != [] {
      assert after[h + |other|] == before[h + |inner|] == rest[0];
    }
  }

  lemma Middle<T>(a: seq<T>, b: seq<T>, c: seq<T>)
    ensures (a + b + c)[|a|..|a| + |b|] == b
  {
  }

  /** A block whose lines read as `reading`. */
  lemma BlockReads(lines: Text, head: Text, inner: Text, rest: Text, header: nat, end: nat, reading: Reading) returns (c: Block)
    requires lines == head + inner + rest && header + 1 == |head| && end == |head| + |inner|
    requires Locate(lines) == Ok(Some(Place(header, end)))
    requires ReadAll(Start(|head|), inner) == Ok(reading)
    ensures HasBlock(lines, c) && c == Block(header, end, reading)
  {
    Middle(head, inner, rest);
    c := Block(header, end, reading);
    assert lines[header + 1..end] == inner;
  }
}
