/** Reading a merged block back, line by line beside the original. */
module RulesRereads {
  import opened Common
  import opened PythonStrings
  import opened RulesLines
  import opened RulesBlocks
  import opened RulesSplices
  import opened RulesMerges

  // ----- where keys end

  /** No two keys share their last line, and the line just read belongs to the current key. */
  predicate Placed(s: Reading) {
    && (forall c :: c in s.last && s.last[c] + 1 == s.at ==> s.child == Some(c))
    && (forall c, d :: c in s.last && d in s.last && s.last[c] == s.last[d] ==> c == d)
  }

  lemma ReadLinePlaced(s: Reading, line: string)
    requires Sound(s) && Placed(s) && ReadLine(s, line).Ok?
    ensures Placed(ReadLine(s, line).value)
  {
  }

  lemma {:induction false} ReadAllPlaced(s: Reading, lines: Text)
    requires Sound(s) && Placed(s) && ReadAll(s, lines).Ok?
    ensures Placed(ReadAll(s, lines).value)
    decreases |lines|
  {
    if lines != [] {
      ReadLineSound(s, lines[0]);
      ReadLinePlaced(s, lines[0]);
      ReadAllPlaced(ReadLine(s, lines[0]).value, lines[1..]);
    }
  }

  /** The key whose last line is just before line `i`. */
  ghost function KeyAt(last: map<string, nat>, i: nat): (k: Option<string>)
    ensures k.Some? ==> k.value in last && last[k.value] + 1 == i
    ensures k.None? ==> forall c :: c in last ==> last[c] + 1 != i
  {
    if exists c :: c in last && last[c] + 1 == i then
      var c :| c in last && last[c] + 1 == i;
      Some(c)
    else None
  }

  /** The missing entries that go before line `i`. */
  ghost function Gain(last: map<string, nat>, missing: seq<Pair>, i: nat): seq<string> {
    if KeyAt(last, i).Some? then EntriesOf(missing, KeyAt(last, i).value) else []
  }

  predicate Injective(last: map<string, nat>) {
    forall c, d :: c in last && d in last && last[c] == last[d] ==> c == d
  }

  lemma {:induction false} EntrySplicesAt(keys: seq<string>, last: map<string, nat>, missing: seq<Pair>, i: nat)
    requires Injective(last) && NoRepeats(keys)
    ensures PiecesAt(EntrySplices(keys, last, missing), i)
            == if KeyAt(last, i).Some? && KeyAt(last, i).value in keys
               then EntryLines(EntriesOf(missing, KeyAt(last, i).value)) else []
    decreases |keys|
  {
    if keys != [] {
      var n := |keys| - 1;
      var x := keys[n];
      EntrySplicesAt(keys[..n], last, missing, i);
      KeySetSnoc(keys);
      if x in last {
        var before := EntrySplices(keys[..n], last, missing);
        var piece := EntryLines(EntriesOf(missing, x));
        var all := before + [Splice(last[x] + 1, piece)];
        assert all[..|all| - 1] == before;
        assert piece + [] == piece;
      }
    }
  }

  lemma EntryGain(last: map<string, nat>, missing: seq<Pair>, i: nat)
    requires Injective(last)
    ensures PiecesAt(EntrySplices(KeysOf(missing), last, missing), i) == EntryLines(Gain(last, missing, i))
  {
    if KeyAt(last, i).Some? {
      InKeys(missing, KeyAt(last, i).value);
    } else {
      InKeys(missing, "");
    }
    EntrySplicesAt(KeysOf(missing), last, missing, i);
  }

  // ----- one line, one slot

  /** Readings that accept the same lines. */
  predicate Same(s: Reading, t: Reading) {
    s.child == t.child && s.last.Keys == t.last.Keys
  }

  /** Key `k` has in `t` what it has in `s`, and the missing entries too once `passed`. */
  predicate Ahead(s: Reading, t: Reading, k: string, passed: bool, missing: seq<Pair>) {
    EntriesOf(t.pairs, k) == Grown(EntriesOf(s.pairs, k), passed, EntriesOf(missing, k))
  }

  predicate Passed(last: map<string, nat>, k: string, at: nat) {
    k in last && last[k] + 1 < at
  }

  lemma EntriesSnoc(pairs: seq<Pair>, p: Pair, k: string)
    ensures EntriesOf(pairs + [p], k) == Grown(EntriesOf(pairs, k), p.0 == k, [p.1])
  {
    assert (pairs + [p])[..|pairs|] == pairs;
  }

  /** Both readings took one line alike, and `k` is still ahead. */
  ghost predicate TookBoth(s: Reading, t: Reading, line: string, k: string, passed: bool, missing: seq<Pair>) {
    && ReadLine(s, line).Ok? && ReadLine(t, line).Ok?
    && Same(ReadLine(s, line).value, ReadLine(t, line).value)
    && Ahead(ReadLine(s, line).value, ReadLine(t, line).value, k, passed, missing)
  }

  lemma SkipBoth(s: Reading, t: Reading, line: string, k: string, passed: bool, missing: seq<Pair>)
    requires Same(s, t) && Ahead(s, t, k, passed, missing) && Skipped(line)
    ensures TookBoth(s, t, line, k, passed, missing)
  {
  }

  lemma KeyBoth(s: Reading, t: Reading, line: string, k: string, passed: bool, missing: seq<Pair>)
    requires Same(s, t) && Ahead(s, t, k, passed, missing) && ReadLine(s, line).Ok?
    requires !Skipped(line) && ChildKey(line).Some?
    ensures TookBoth(s, t, line, k, passed, missing)
  {
    var c := ChildKey(line).value.0;
    assert ReadLine(s, line).value.last.Keys == s.last.Keys + {c};
    assert ReadLine(t, line).value.last.Keys == t.last.Keys + {c};
  }

  lemma EntryBoth(s: Reading, t: Reading, line: string, k: string, passed: bool, missing: seq<Pair>)
    requires Same(s, t) && Ahead(s, t, k, passed, missing) && ReadLine(s, line).Ok?
    requires !Skipped(line) && ChildKey(line).None? && (passed ==> s.child != Some(k))
    ensures TookBoth(s, t, line, k, passed, missing)
  {
    var c, x := s.child.value, EntryText(line).value;
    EntriesSnoc(s.pairs, (c, x), k);
    EntriesSnoc(t.pairs, (c, x), k);
    assert ReadLine(s, line).value.last.Keys == s.last.Keys + {c};
    assert ReadLine(t, line).value.last.Keys == t.last.Keys + {c};
  }

  lemma ReadBoth(s: Reading, t: Reading, line: string, k: string, missing: seq<Pair>, last: map<string, nat>)
    returns (s': Reading, t': Reading)
    requires Same(s, t) && ReadLine(s, line).Ok?
    requires Ahead(s, t, k, k in last && last[k] + 1 <= s.at, missing)
    requires var u := ReadLine(s, line).value; u.last.Keys <= last.Keys && forall c :: c in u.last ==> u.last[c] <= last[c]
    ensures ReadLine(s, line) == Ok(s') && ReadLine(t, line) == Ok(t') && s'.at == s.at + 1
    ensures Same(s', t') && Ahead(s', t', k, Passed(last, k, s'.at), missing)
  {
    s' := ReadLine(s, line).value;
    var passed := Passed(last, k, s'.at);
    assert passed == (k in last && last[k] + 1 <= s.at);
    if Skipped(line) {
      SkipBoth(s, t, line, k, passed, missing);
    } else if ChildKey(line).Some? {
      KeyBoth(s, t, line, k, passed, missing);
    } else {
      assert s'.last[s.child.value] == s.at;
      EntryBoth(s, t, line, k, passed, missing);
    }
    t' := ReadLine(t, line).value;
  }

  lemma ReadSlot(s: Reading, t: Reading, k: string, missing: seq<Pair>, last: map<string, nat>) returns (t': Reading)
    requires Same(s, t) && ChildSeen(t) && Stripped(missing) && Injective(last)
    requires KeyAt(last, s.at).Some? ==> s.child == KeyAt(last, s.at)
    requires Ahead(s, t, k, Passed(last, k, s.at), missing)
    ensures ReadAll(t, EntryLines(Gain(last, missing, s.at))) == Ok(t')
    ensures Same(s, t') && Ahead(s, t', k, k in last && last[k] + 1 <= s.at, missing)
  {
    var c := KeyAt(last, s.at);
    var entries := Gain(last, missing, s.at);
    if c.None? {
      t' := t;
    } else {
      StrippedEntries(missing, c.value);
      t' := ReadEntries(t, entries);
      EntriesTagged(t.pairs, c.value, entries, k);
      assert entries == [] ==> EntriesOf(t.pairs, c.value) + entries == EntriesOf(t.pairs, c.value);
    }
  }

  // ----- the woven part of the block

  lemma Toward(s: Reading, lines: Text, end: Reading)
    requires Sound(s) && Placed(s) && ReadAll(s, lines) == Ok(end)
    ensures s.last.Keys <= end.last.Keys && forall c :: c in s.last ==> s.last[c] <= end.last[c]
    ensures KeyAt(end.last, s.at).Some? ==> s.child == KeyAt(end.last, s.at)
    ensures Injective(end.last)
  {
    ReadAllSound(s, lines);
    ReadAllPlaced(s, lines);
  }

  /** One line with the slot before it, read side by side. */
  lemma ReadWithSlot(s: Reading, t: Reading, lines: Text, slot: Text, end: Reading, missing: seq<Pair>, k: string)
    returns (s2: Reading, t1: Reading, t2: Reading)
    requires Sound(s) && Placed(s) && Same(s, t) && Stripped(missing) && lines != []
    requires ReadAll(s, lines) == Ok(end) && slot == EntryLines(Gain(end.last, missing, s.at))
    requires Ahead(s, t, k, Passed(end.last, k, s.at), missing)
    ensures ReadLine(s, lines[0]) == Ok(s2) && ReadAll(s2, lines[1..]) == Ok(end) && s2.at == s.at + 1
    ensures Sound(s2) && Placed(s2) && Same(s2, t2) && Ahead(s2, t2, k, Passed(end.last, k, s2.at), missing)
    ensures ReadAll(t, slot) == Ok(t1) && ReadLine(t1, lines[0]) == Ok(t2)
  {
    Toward(s, lines, end);
    t1 := ReadSlot(s, t, k, missing, end.last);
    ReadLineSound(s, lines[0]);
    ReadLinePlaced(s, lines[0]);
    Toward(ReadLine(s, lines[0]).value, lines[1..], end);
    s2, t2 := ReadBoth(s, t1, lines[0], k, missing, end.last);
  }

  ghost predicate SlotsFrom(slots: seq<Text>, last: map<string, nat>, missing: seq<Pair>, at: nat) {
    forall i :: 0 <= i < |slots| ==> slots[i] == EntryLines(Gain(last, missing, at + i))
  }

  lemma SlotsTail(slots: seq<Text>, last: map<string, nat>, missing: seq<Pair>, at: nat, next: nat)
    requires slots != [] && SlotsFrom(slots, last, missing, at) && next == at + 1
    ensures slots[0] == EntryLines(Gain(last, missing, at)) && SlotsFrom(slots[1..], last, missing, next)
  {
    assert at + 0 == at;
    forall i | 0 <= i < |slots[1..]|
      ensures slots[1..][i] == EntryLines(Gain(last, missing, next + i))
    {
      assert next + i == at + (i + 1);
    }
  }

  lemma {:induction false} ReadWoven(s: Reading, t: Reading, lines: Text, tail: Text, slots: seq<Text>, end: Reading,
                                     missing: seq<Pair>, k: string)
    returns (s': Reading, t': Reading)
    requires Sound(s) && Placed(s) && Same(s, t) && Stripped(missing)
    requires ReadAll(s, lines + tail) == Ok(end) && |slots| == |lines|
    requires SlotsFrom(slots, end.last, missing, s.at)
    requires Ahead(s, t, k, Passed(end.last, k, s.at), missing)
    ensures ReadAll(s, lines) == Ok(s') && ReadAll(s', tail) == Ok(end) && s'.at == s.at + |lines|
    ensures Sound(s') && Placed(s')
    ensures ReadAll(t, WeaveTo(lines, slots)) == Ok(t')
    ensures Same(s', t') && Ahead(s', t', k, Passed(end.last, k, s'.at), missing)
    decreases |lines|
  {
    if lines == [] {
      assert lines + tail == tail;
      s', t' := s, t;
    } else {
      assert (lines + tail)[1..] == lines[1..] + tail;
      assert slots[0] == EntryLines(Gain(end.last, missing, s.at + 0));
      var s2, t1, t2 := ReadWithSlot(s, t, lines + tail, slots[0], end, missing, k);
      SlotsTail(slots, end.last, missing, s.at, s2.at);
      s', t' := ReadWoven(s2, t2, lines[1..], tail, slots[1..], end, missing, k);
      ReadThree(t, slots[0], lines[0], WeaveTo(lines[1..], slots[1..]), t1, t2);
    }
  }

  lemma ReadThree(t: Reading, slot: Text, line: string, rest: Text, t1: Reading, t2: Reading)
    requires ReadAll(t, slot) == Ok(t1) && ReadLine(t1, line) == Ok(t2)
    ensures ReadAll(t, slot + [line] + rest) == ReadAll(t2, rest)
  {
    ReadConcat(t, slot, [line] + rest);
    ReadCons(t1, line, rest);
    assert slot + [line] + rest == slot + ([line] + rest);
  }

  // ----- the last slot and the blank tail

  lemma {:induction false} ReadBlanks(s: Reading, lines: Text)
    requires ReadAll(s, lines).Ok? && forall i :: 0 <= i < |lines| ==> !HasContent(lines[i])
    ensures ReadAll(s, lines) == Ok(s.(at := s.at + |lines|))
    ensures AllBlank(lines)
    decreases |lines|
  {
    if lines != [] {
      BlankSkipped(s, lines[0]);
      ReadBlanks(ReadLine(s, lines[0]).value, lines[1..]);
    }
  }

  lemma ReadableHasContent(s: Reading, line: string)
    requires ReadLine(s, line).Ok? && !Skipped(line)
    ensures HasContent(line)
  {
    if ChildKey(line).Some? {
      assert line[2..][0] == ChildKey(line).value.0[0];
      assert !IsSpace(line[2]);
    } else {
      assert line[4] == line[..6][4] == '-';
      assert !IsSpace(line[4]);
    }
  }

  lemma BlankSkipped(s: Reading, line: string)
    requires ReadLine(s, line).Ok? && !HasContent(line)
    ensures line == ""
  {
    if !Skipped(line) {
      ReadableHasContent(s, line);
    } else if line != "" {
      NoContentNoComment(line);
    }
  }

  lemma {:induction false} NoContentNoComment(line: string)
    requires !HasContent(line)
    ensures !IsComment(line)
    decreases |line|
  {
    if line != "" {
      forall i | 0 <= i < |line| - 1
        ensures IsSpace(line[1..][i])
      {
        assert line[1..][i] == line[i + 1];
      }
      NoContentNoComment(line[1..]);
    }
  }

  predicate AllBlank(lines: Text) {
    forall i :: 0 <= i < |lines| ==> lines[i] == ""
  }

  lemma {:induction false} SkipBlanks(s: Reading, lines: Text)
    requires AllBlank(lines)
    ensures ReadAll(s, lines) == Ok(s.(at := s.at + |lines|))
    decreases |lines|
  {
    if lines != [] {
      SkipBlanks(ReadLine(s, lines[0]).value, lines[1..]);
    }
  }

  /** Entries that share the new block's line are read under the last new key. */
  function Owner(keys: seq<string>, end: Reading): Option<string> {
    if LastNew(keys, end.last).Some? then LastNew(keys, end.last) else end.child
  }

  lemma ReadLastSlot(t: Reading, end: Reading, q: nat, missing: seq<Pair>, k: string) returns (r: Reading)
    requires Stripped(missing) && Same(end, t) && ChildSeen(t)
    requires KeyAt(end.last, q).Some? ==> end.child == KeyAt(end.last, q)
    ensures var keys := KeysOf(missing);
            && ReadAll(t, NewBlock(keys, end.last, missing) + EntryLines(Gain(end.last, missing, q))) == Ok(r)
            && EntriesOf(r.pairs, k)
               == Grown(Grown(EntriesOf(t.pairs, k), k in keys && k !in end.last, EntriesOf(missing, k)),
                        Gain(end.last, missing, q) != [] && Owner(keys, end) == Some(k), Gain(end.last, missing, q))
  {
    var keys := KeysOf(missing);
    InKeys(missing, k);
    forall i | 0 <= i < |keys|
      ensures ValidKey(keys[i])
    {
      StrippedKeys(missing, keys[i]);
    }
    var u := ReadNewBlock(t, keys, end.last, missing, k);
    NewBlockEmpty(keys, end.last, missing);
    var entries := Gain(end.last, missing, q);
    assert AllStripped(entries) by {
      if KeyAt(end.last, q).Some? {
        StrippedEntries(missing, KeyAt(end.last, q).value);
      }
    }
    assert ChildSeen(u);
    r := ReadEntries(u, entries);
    ReadConcat(t, NewBlock(keys, end.last, missing), EntryLines(entries));
    if entries == [] {
      assert r.pairs == u.pairs;
    } else {
      EntriesTagged(u.pairs, u.child.value, entries, k);
    }
  }
}
