/** Merging the release's rules into the project's configuration: what is inserted where. */
module RulesMerges {
  import opened Common
  import opened PythonStrings
  import opened RulesLines
  import opened RulesBlocks
  import opened RulesSplices

  // ----- the pieces install_config_merge computes

  /** The entries of one key, in order. */
  function EntriesOf(pairs: seq<Pair>, k: string): seq<string> {
    if pairs == [] then []
    else
      var n := |pairs| - 1;
      if pairs[n].0 == k then EntriesOf(pairs[..n], k) + [pairs[n].1] else EntriesOf(pairs[..n], k)
  }

  /** The distinct keys, by first appearance. */
  function KeysOf(pairs: seq<Pair>): seq<string> {
    if pairs == [] then []
    else
      var n := |pairs| - 1;
      var before := KeysOf(pairs[..n]);
      if pairs[n].0 in before then before else before + [pairs[n].0]
  }

  /** The release's pairs that the project does not own, in order. */
  function Missing(release: seq<Pair>, owned: seq<Pair>): seq<Pair> {
    if release == [] then []
    else
      var n := |release| - 1;
      var before := Missing(release[..n], owned);
      if release[n] in owned then before else before + [release[n]]
  }

  function EntryLines(entries: seq<string>): Text {
    if entries == [] then [] else [EntryLine(entries[0])] + EntryLines(entries[1..])
  }

  /** Entries for keys the file has, each after that key's last line. */
  function EntrySplices(keys: seq<string>, last: map<string, nat>, missing: seq<Pair>): seq<Splice> {
    if keys == [] then []
    else
      var n := |keys| - 1;
      var before := EntrySplices(keys[..n], last, missing);
      if keys[n] in last then before + [Splice(last[keys[n]] + 1, EntryLines(EntriesOf(missing, keys[n])))] else before
  }

  /** Keys the file does not have, with their entries. */
  function NewBlock(keys: seq<string>, last: map<string, nat>, missing: seq<Pair>): Text {
    if keys == [] then []
    else
      var n := |keys| - 1;
      var before := NewBlock(keys[..n], last, missing);
      if keys[n] in last then before
      else before + ([KeyText(keys[n])] + EntryLines(EntriesOf(missing, keys[n])))
  }

  /** Just after the last line with content in `lines[header + 1..end]`. */
  function InsertAt(lines: Text, header: nat, end: nat): (q: nat)
    requires header < end <= |lines|
    ensures header < q <= end
    ensures q > header + 1 ==> HasContent(lines[q - 1])
    ensures forall i :: q <= i < end ==> !HasContent(lines[i])
    decreases end
  {
    if end == header + 1 || HasContent(lines[end - 1]) then end else InsertAt(lines, header, end - 1)
  }

  function AllSplices(lines: Text, b: Block, missing: seq<Pair>): seq<Splice>
    requires b.header < b.end <= |lines|
  {
    var keys := KeysOf(missing);
    var entries := EntrySplices(keys, b.reading.last, missing);
    var added := NewBlock(keys, b.reading.last, missing);
    if added == [] then entries else entries + [Splice(InsertAt(lines, b.header, b.end), added)]
  }

  // ----- facts about lists of pairs

  function Tagged(k: string, entries: seq<string>): seq<Pair> {
    seq(|entries|, i requires 0 <= i < |entries| => (k, entries[i]))
  }

  function Grown(a: seq<string>, more: bool, b: seq<string>): seq<string> {
    if more then a + b else a
  }

  lemma {:induction false} EntriesTagged(pairs: seq<Pair>, c: string, entries: seq<string>, k: string)
    ensures EntriesOf(pairs + Tagged(c, entries), k) == Grown(EntriesOf(pairs, k), c == k, entries)
    decreases |entries|
  {
    var all := pairs + Tagged(c, entries);
    if entries == [] {
      assert all == pairs;
    } else {
      var n := |entries| - 1;
      EntriesTagged(pairs, c, entries[..n], k);
      assert all[..|all| - 1] == pairs + Tagged(c, entries[..n]) && all[|all| - 1] == (c, entries[n]);
      assert entries[..n] + [entries[n]] == entries;
    }
  }

  lemma {:induction false} InEntries(pairs: seq<Pair>, k: string, e: string)
    ensures e in EntriesOf(pairs, k) <==> (k, e) in pairs
    decreases |pairs|
  {
    if pairs != [] {
      var n := |pairs| - 1;
      InEntries(pairs[..n], k, e);
      assert pairs == pairs[..n] + [pairs[n]];
    }
  }

  lemma {:induction false} InKeys(pairs: seq<Pair>, k: string)
    ensures k in KeysOf(pairs) <==> EntriesOf(pairs, k) != []
    ensures forall i, j :: 0 <= i < j < |KeysOf(pairs)| ==> KeysOf(pairs)[i] != KeysOf(pairs)[j]
    decreases |pairs|
  {
    if pairs != [] {
      InKeys(pairs[..|pairs| - 1], k);
    }
  }

  lemma {:induction false} InMissing(release: seq<Pair>, owned: seq<Pair>, p: Pair)
    ensures p in Missing(release, owned) <==> p in release && p !in owned
    decreases |release|
  {
    if release != [] {
      var n := |release| - 1;
      InMissing(release[..n], owned, p);
      assert release == release[..n] + [release[n]];
    }
  }

  /** Trimmed entries under valid keys, as every reading yields them. */
  predicate Stripped(pairs: seq<Pair>) {
    forall i :: 0 <= i < |pairs| ==> Rstrip(pairs[i].1) == pairs[i].1 && ValidKey(pairs[i].0)
  }

  predicate AllStripped(entries: seq<string>) {
    forall i :: 0 <= i < |entries| ==> Rstrip(entries[i]) == entries[i]
  }

  lemma StrippedEntries(pairs: seq<Pair>, k: string)
    requires Stripped(pairs)
    ensures AllStripped(EntriesOf(pairs, k))
  {
    var entries := EntriesOf(pairs, k);
    forall i | 0 <= i < |entries|
      ensures Rstrip(entries[i]) == entries[i]
    {
      InEntries(pairs, k, entries[i]);
    }
  }

  lemma StrippedKeys(pairs: seq<Pair>, k: string)
    requires Stripped(pairs) && k in KeysOf(pairs)
    ensures ValidKey(k)
  {
    InKeys(pairs, k);
    var e := EntriesOf(pairs, k)[0];
    InEntries(pairs, k, e);
  }

  // ----- what the inserted lines read as

  predicate ChildSeen(t: Reading) {
    t.child.Some? ==> t.child.value in t.last
  }

  lemma ReadCons(t: Reading, line: string, rest: Text)
    requires ReadLine(t, line).Ok?
    ensures ReadAll(t, [line] + rest) == ReadAll(ReadLine(t, line).value, rest)
  {
    assert ([line] + rest)[1..] == rest;
  }

  lemma ReadEntry(t: Reading, e: string, rest: Text) returns (u: Reading)
    requires t.child.Some? && ChildSeen(t) && Rstrip(e) == e
    ensures ReadAll(t, [EntryLine(e)] + rest) == ReadAll(u, rest)
    ensures u.child == t.child && u.last.Keys == t.last.Keys && u.pairs == t.pairs + [(t.child.value, e)]
  {
    EntryLineReads(e);
    u := ReadLine(t, EntryLine(e)).value;
    assert u.last.Keys == t.last.Keys;
    ReadCons(t, EntryLine(e), rest);
  }

  lemma {:induction false} ReadEntries(t: Reading, entries: seq<string>) returns (r: Reading)
    requires ChildSeen(t) && (entries == [] || t.child.Some?) && AllStripped(entries)
    ensures ReadAll(t, EntryLines(entries)) == Ok(r)
    ensures r.child == t.child && r.last.Keys == t.last.Keys
    ensures r.pairs == t.pairs + (if entries == [] then [] else Tagged(t.child.value, entries))
    decreases |entries|
  {
    r := t;
    if entries != [] {
      var u := ReadEntry(t, entries[0], EntryLines(entries[1..]));
      r := ReadEntries(u, entries[1..]);
      TaggedCons(t.child.value, entries);
      assert t.pairs + [(t.child.value, entries[0])] + Tagged(t.child.value, entries[1..])
          == t.pairs + Tagged(t.child.value, entries);
    }
  }

  lemma TaggedCons(c: string, entries: seq<string>)
    requires entries != []
    ensures Tagged(c, entries) == [(c, entries[0])] + Tagged(c, entries[1..])
    ensures entries[1..] == [] ==> Tagged(c, entries[1..]) == []
  {
  }

  lemma ReadKeyBlock(t: Reading, k: string, entries: seq<string>) returns (r: Reading)
    requires k !in t.last && ValidKey(k) && AllStripped(entries)
    ensures ReadAll(t, [KeyText(k)] + EntryLines(entries)) == Ok(r)
    ensures r.child == Some(k) && r.last.Keys == t.last.Keys + {k} && r.pairs == t.pairs + Tagged(k, entries)
  {
    KeyTextReads(k);
    var u := ReadLine(t, KeyText(k)).value;
    assert !HasContent("");
    assert u.child == Some(k) && u.pairs == t.pairs && u.last.Keys == t.last.Keys + {k};
    ReadCons(t, KeyText(k), EntryLines(entries));
    r := ReadEntries(u, entries);
    assert entries == [] ==> Tagged(k, entries) == [];
  }

  /** The last of `keys` that `last` lacks. */
  function LastNew(keys: seq<string>, last: map<string, nat>): Option<string> {
    if keys == [] then None
    else if keys[|keys| - 1] in last then LastNew(keys[..|keys| - 1], last) else Some(keys[|keys| - 1])
  }

  lemma {:induction false} NewBlockEmpty(keys: seq<string>, last: map<string, nat>, missing: seq<Pair>)
    ensures NewBlock(keys, last, missing) == [] <==> LastNew(keys, last) == None
    ensures LastNew(keys, last).Some? ==> LastNew(keys, last).value in keys && LastNew(keys, last).value !in last
    ensures LastNew(keys, last).None? ==> forall k :: k in keys ==> k in last
    decreases |keys|
  {
    if keys != [] {
      var n := |keys| - 1;
      NewBlockEmpty(keys[..n], last, missing);
      assert keys == keys[..n] + [keys[n]];
    }
  }

  predicate NoRepeats(keys: seq<string>) {
    forall i, j :: 0 <= i < j < |keys| ==> keys[i] != keys[j]
  }

  predicate AllValid(keys: seq<string>) {
    forall i :: 0 <= i < |keys| ==> ValidKey(keys[i])
  }

  function KeySet(keys: seq<string>): set<string> {
    set x | x in keys
  }

  /** Reading the new block gives every new key its entries and leaves the last one current. */
  lemma {:induction false} ReadNewBlock(t: Reading, keys: seq<string>, last: map<string, nat>, missing: seq<Pair>, k: string)
    returns (r: Reading)
    requires Stripped(missing) && t.last.Keys == last.Keys && AllValid(keys) && NoRepeats(keys)
    ensures ReadAll(t, NewBlock(keys, last, missing)) == Ok(r)
    ensures r.child == (if LastNew(keys, last).None? then t.child else LastNew(keys, last))
    ensures r.last.Keys == last.Keys + KeySet(keys)
    ensures EntriesOf(r.pairs, k) == Grown(EntriesOf(t.pairs, k), k in keys && k !in last, EntriesOf(missing, k))
    decreases |keys|
  {
    r := t;
    if keys != [] {
      var n := |keys| - 1;
      var x := keys[n];
      var u := ReadNewBlock(t, keys[..n], last, missing, k);
      KeySetSnoc(keys);
      if x in last {
        r := u;
      } else {
        r := ReadOneMore(t, u, NewBlock(keys[..n], last, missing), x, missing, k);
      }
    }
  }

  lemma KeySetSnoc(keys: seq<string>)
    requires keys != [] && NoRepeats(keys)
    ensures var n := |keys| - 1;
            && KeySet(keys) == KeySet(keys[..n]) + {keys[n]} && keys[n] !in keys[..n]
            && (forall k :: k in keys <==> k in keys[..n] || k == keys[n])
  {
    assert keys == keys[..|keys| - 1] + [keys[|keys| - 1]];
  }

  lemma ReadOneMore(t: Reading, u: Reading, before: Text, x: string, missing: seq<Pair>, k: string) returns (r: Reading)
    requires x !in u.last && ValidKey(x) && Stripped(missing) && ReadAll(t, before) == Ok(u)
    ensures ReadAll(t, before + ([KeyText(x)] + EntryLines(EntriesOf(missing, x)))) == Ok(r)
    ensures r.child == Some(x) && r.last.Keys == u.last.Keys + {x}
    ensures EntriesOf(r.pairs, k) == Grown(EntriesOf(u.pairs, k), x == k, EntriesOf(missing, k))
  {
    var entries := EntriesOf(missing, x);
    StrippedEntries(missing, x);
    r := ReadKeyBlock(u, x, entries);
    ReadConcat(t, before, [KeyText(x)] + EntryLines(entries));
    EntriesTagged(u.pairs, x, entries, k);
  }
}
