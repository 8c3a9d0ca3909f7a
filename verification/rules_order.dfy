/** The order in which a merge writes: a project's own entries first, then what it lacked, as the
    release gives it; and the text of a file that had no rules. */
module RulesOrders {
  import opened Common
  import opened PythonStrings
  import opened RulesLines
  import opened RulesBlocks
  import opened RulesSplices
  import opened RulesMerges
  import opened RulesRereads
  import opened RulesInstalls
  import opened RulesUnions
  import opened RulesConfigs

  // ----- lists of pairs, piece by piece

  /** The entries of a key are its pairs' entries, pair after pair. */
  lemma EntriesStep(pairs: seq<Pair>, p: Pair, k: string)
    ensures EntriesOf([], k) == []
    ensures EntriesOf(pairs + [p], k) == if p.0 == k then EntriesOf(pairs, k) + [p.1] else EntriesOf(pairs, k)
  {
    assert (pairs + [p])[..|pairs|] == pairs && (pairs + [p])[|pairs|] == p;
  }

  lemma {:induction false} EntriesExactly(a: seq<Pair>, b: seq<Pair>, k: string)
    ensures EntriesOf(a + b, k) == EntriesOf(a, k) + EntriesOf(b, k)
    decreases |b|
  {
    if b == [] {
      assert a + b == a && EntriesOf(a, k) + [] == EntriesOf(a, k);
    } else {
      var c, p := b[..|b| - 1], b[|b| - 1];
      EntriesExactly(a, c, k);
      assert b == c + [p] && a + b == (a + c) + [p];
      EntriesStep(c, p, k);
      EntriesStep(a + c, p, k);
      assert EntriesOf(a, k) + (EntriesOf(c, k) + [p.1]) == (EntriesOf(a, k) + EntriesOf(c, k)) + [p.1];
    }
  }

  lemma MissingStep(pairs: seq<Pair>, p: Pair, owned: seq<Pair>)
    ensures Missing([], owned) == []
    ensures Missing(pairs + [p], owned) == if p in owned then Missing(pairs, owned) else Missing(pairs, owned) + [p]
  {
    assert (pairs + [p])[..|pairs|] == pairs && (pairs + [p])[|pairs|] == p;
  }

  /** What is missing are the release's pairs that are not owned, in the release's order. */
  lemma {:induction false} MissingExactly(a: seq<Pair>, b: seq<Pair>, owned: seq<Pair>)
    ensures Missing(a + b, owned) == Missing(a, owned) + Missing(b, owned)
    decreases |b|
  {
    if b == [] {
      assert a + b == a && Missing(a, owned) + [] == Missing(a, owned);
    } else {
      var c, p := b[..|b| - 1], b[|b| - 1];
      MissingExactly(a, c, owned);
      assert b == c + [p] && a + b == (a + c) + [p];
      MissingStep(c, p, owned);
      MissingStep(a + c, p, owned);
      assert Missing(a, owned) + (Missing(c, owned) + [p]) == (Missing(a, owned) + Missing(c, owned)) + [p];
    }
  }

  /** Every line of rendered rules is a key line or an entry line: one for each pair, in order, and
      one for each change of key before it. */
  lemma {:induction false} RenderExactly(pairs: seq<Pair>)
    ensures pairs == [] ==> RenderRules(pairs) == []
    ensures pairs != [] ==>
              var n := |pairs| - 1;
              RenderRules(pairs)
              == RenderRules(pairs[..n])
                 + (if n > 0 && pairs[n - 1].0 == pairs[n].0 then ["    - " + pairs[n].1]
                    else ["  " + pairs[n].0 + ":", "    - " + pairs[n].1])
  {
    if pairs != [] {
      var n := |pairs| - 1;
      assert [KeyText(pairs[n].0)] + [EntryLine(pairs[n].1)] == [KeyText(pairs[n].0), EntryLine(pairs[n].1)];
      assert [] + [EntryLine(pairs[n].1)] == [EntryLine(pairs[n].1)];
    }
  }

  ghost predicate HasKey(pairs: seq<Pair>, n: nat, k: string) {
    exists p :: 0 <= p < n && p < |pairs| && pairs[p].0 == k
  }

  /** Wherever `k` stands, `j` has stood before. */
  ghost predicate ComesFirst(pairs: seq<Pair>, j: string, k: string) {
    forall p :: 0 <= p < |pairs| && pairs[p].0 == k ==> HasKey(pairs, p, j)
  }

  /** The distinct keys, each once, in the order of their first pairs. */
  ghost predicate FirstOrder(pairs: seq<Pair>, keys: seq<string>) {
    && (forall k :: k in keys <==> HasKey(pairs, |pairs|, k))
    && (forall i, j :: 0 <= i < j < |keys| ==> keys[i] != keys[j] && ComesFirst(pairs, keys[i], keys[j]))
  }

  lemma {:induction false} KeysExactly(pairs: seq<Pair>)
    ensures FirstOrder(pairs, KeysOf(pairs))
    decreases |pairs|
  {
    if pairs == [] {
      assert KeysOf(pairs) == [];
    } else {
      var init, x := pairs[..|pairs| - 1], pairs[|pairs| - 1];
      var keys := KeysOf(init);
      assert KeysOf(pairs) == if x.0 in keys then keys else keys + [x.0];
      assert pairs == init + [x];
      KeysExactly(init);
      KeysGrow(init, x, pairs, keys, KeysOf(pairs));
    }
  }

  lemma HasKeyStays(init: seq<Pair>, x: Pair, n: nat, k: string)
    requires n <= |init|
    ensures HasKey(init + [x], n, k) <==> HasKey(init, n, k)
    ensures HasKey(init + [x], |init| + 1, k) <==> HasKey(init, |init|, k) || x.0 == k
  {
    var pairs := init + [x];
    assert pairs[|init|] == x && forall p :: 0 <= p < |init| ==> pairs[p] == init[p];
    if p :| 0 <= p < |init| && init[p].0 == k {
      assert pairs[p].0 == k;
    }
  }

  lemma ComesFirstStays(init: seq<Pair>, x: Pair, j: string, k: string)
    requires ComesFirst(init, j, k) && HasKey(init, |init|, j)
    ensures ComesFirst(init + [x], j, k)
  {
    var pairs := init + [x];
    forall p | 0 <= p < |pairs| && pairs[p].0 == k
      ensures HasKey(pairs, p, j)
    {
      HasKeyStays(init, x, p, j);
      if p < |init| {
        assert init[p].0 == k;
      }
    }
  }

  lemma NewComesLast(init: seq<Pair>, x: Pair, j: string)
    requires HasKey(init, |init|, j) && !HasKey(init, |init|, x.0)
    ensures ComesFirst(init + [x], j, x.0)
  {
    var pairs := init + [x];
    assert forall p :: 0 <= p < |init| ==> pairs[p] == init[p] && init[p].0 != x.0;
    forall p | 0 <= p < |pairs| && pairs[p].0 == x.0
      ensures HasKey(pairs, p, j)
    {
      HasKeyStays(init, x, |init|, j);
    }
  }

  lemma KeysGrow(init: seq<Pair>, x: Pair, pairs: seq<Pair>, keys: seq<string>, more: seq<string>)
    requires FirstOrder(init, keys) && pairs == init + [x] && more == if x.0 in keys then keys else keys + [x.0]
    ensures FirstOrder(pairs, more)
  {
    forall k
      ensures k in more <==> HasKey(pairs, |pairs|, k)
    {
      HasKeyStays(init, x, |init|, k);
    }
    forall i, j | 0 <= i < j < |more|
      ensures more[i] != more[j] && ComesFirst(pairs, more[i], more[j])
    {
      assert more[i] == keys[i] && keys[i] in keys;
      if j < |keys| {
        ComesFirstStays(init, x, keys[i], keys[j]);
      } else {
        NewComesLast(init, x, keys[i]);
      }
    }
  }

  /** The new-key block, key after key: a key line and its missing entries for each key that the
      file lacks, and nothing for the others. */
  lemma NewBlockExactly(keys: seq<string>, k: string, last: map<string, nat>, missing: seq<Pair>)
    ensures NewBlock([], last, missing) == []
    ensures NewBlock(keys + [k], last, missing)
            == NewBlock(keys, last, missing) + (if k in last then [] else ["  " + k + ":"] + EntryLines(EntriesOf(missing, k)))
  {
    assert (keys + [k])[..|keys|] == keys && (keys + [k])[|keys|] == k;
    assert NewBlock(keys, last, missing) + [] == NewBlock(keys, last, missing);
    assert KeyText(k) == "  " + k + ":";
  }

  /** Entry lines, one for each entry, in order. */
  lemma {:induction false} EntryLinesExactly(entries: seq<string>)
    ensures |EntryLines(entries)| == |entries|
    ensures forall i :: 0 <= i < |entries| ==> EntryLines(entries)[i] == "    - " + entries[i]
    decreases |entries|
  {
    if entries != [] {
      EntryLinesExactly(entries[1..]);
    }
  }

  /** What is written before line `i` of the file: at the insertion line first the new keys; then
      the missing entries of the key whose last line is the one before. */
  lemma SlotExactly(last: map<string, nat>, q: nat, missing: seq<Pair>, i: nat, k: string)
    requires Injective(last)
    ensures k in last && last[k] + 1 == i ==>
              Slot(last, q, missing, i)
              == (if i == q then NewBlock(KeysOf(missing), last, missing) else []) + EntryLines(EntriesOf(missing, k))
    ensures (forall c :: c in last ==> last[c] + 1 != i) ==>
              Slot(last, q, missing, i) == if i == q then NewBlock(KeysOf(missing), last, missing) else []
  {
    var added := NewBlock(KeysOf(missing), last, missing);
    assert added + [] == added;
    if k in last && last[k] + 1 == i {
      assert KeyAt(last, i) == Some(k);
      assert [] + EntryLines(EntriesOf(missing, k)) == EntryLines(EntriesOf(missing, k));
    }
  }

  // ----- files without rules

  /** A project without the file gets the schema line, a blank line and the release's rules, or
      nothing when the release has none. A file without rules keeps its lines and gets the rules
      at its end, on a line of their own. */
  lemma FreshExactly(release: Text, local: Text)
    requires RulesBlock(release).Ok? && RulesBlock(release).value.Some?
    ensures var pairs := PairsIn(Some(release));
            && InstallConfigMerge(release, None)
               == Ok(if pairs == [] then None else Some(["schema: spec-driven", "", "rules:"] + RenderRules(pairs) + [""]))
            && (RulesBlock(local) == Ok(None) ==>
                  InstallConfigMerge(release, Some(local))
                  == Ok(Some((if |local| >= 2 && local[|local| - 1] == "" then local[..|local| - 1] else local)
                             + ["rules:"] + RenderRules(pairs) + [""])))
  {
    assert HEADER == "rules:" && SCHEMA == "schema: spec-driven";
    var head := [SCHEMA, "", ""];
    assert head[..2] + [HEADER] == ["schema: spec-driven", "", "rules:"];
  }

  // ----- files with rules

  lemma UntiedMeans(release: Text, local: Text, b: Block)
    requires RulesBlock(local) == Ok(Some(b)) && !Misplaces(release, Some(local))
    ensures HasBlock(local, b) && PairsIn(Some(local)) == b.reading.pairs
    ensures !Tied(local, b, Missing(PairsIn(Some(release)), b.reading.pairs))
  {
    BlockFound(local, b);
  }

  lemma WrittenIs(release: Text, local: Text, b: Block, written: Text)
    requires InstallConfigMerge(release, Some(local)) == Ok(Some(written)) && RulesBlock(local) == Ok(Some(b))
    ensures var missing := Missing(PairsIn(Some(release)), b.reading.pairs);
            && HasBlock(local, b) && Within(StableDesc(AllSplices(local, b, missing)), |local|)
            && written == Merged(local, b, missing)
  {
    BlockFound(local, b);
    SplicesFit(local, b, Missing(PairsIn(Some(release)), b.reading.pairs));
  }

  /** In a merged file every key has the project's own entries, in order, and then the missing
      ones, in the release's order, unless the merge misplaces some. */
  lemma MergeInOrder(release: Text, local: Text, written: Text, k: string)
    requires InstallConfigMerge(release, Some(local)) == Ok(Some(written)) && !Misplaces(release, Some(local))
    ensures EntriesOf(PairsIn(Some(written)), k)
            == EntriesOf(PairsIn(Some(local)), k) + EntriesOf(Missing(PairsIn(Some(release)), PairsIn(Some(local))), k)
  {
    if RulesBlock(local).value.None? {
      AppendedInOrder(release, local, written, k);
    } else {
      var b := RulesBlock(local).value.value;
      UntiedMeans(release, local, b);
      WrittenIs(release, local, b, written);
      ReadPairs(release);
      MergedInOrder(PairsIn(Some(release)), local, b, written, k);
    }
  }

  lemma AppendedSays(release: Text, local: Text, written: Text)
    requires InstallConfigMerge(release, Some(local)) == Ok(Some(written)) && RulesBlock(local) == Ok(None)
    ensures PairsIn(Some(written)) == PairsIn(Some(release)) && PairsIn(Some(local)) == []
  {
    ReadPairs(release);
    var c := AppendedBlock(local, PairsIn(Some(release)));
    BlockFound(written, c);
  }

  lemma AppendedInOrder(release: Text, local: Text, written: Text, k: string)
    requires InstallConfigMerge(release, Some(local)) == Ok(Some(written)) && RulesBlock(local) == Ok(None)
    ensures EntriesOf(PairsIn(Some(written)), k)
            == EntriesOf(PairsIn(Some(local)), k) + EntriesOf(Missing(PairsIn(Some(release)), PairsIn(Some(local))), k)
  {
    var pairs := PairsIn(Some(release));
    AppendedSays(release, local, written);
    MissingAll(pairs);
    assert [] + EntriesOf(pairs, k) == EntriesOf(pairs, k);
  }

  lemma {:induction false} MissingAll(pairs: seq<Pair>)
    ensures Missing(pairs, []) == pairs
    decreases |pairs|
  {
    if pairs != [] {
      MissingAll(pairs[..|pairs| - 1]);
    }
  }

  lemma MergedInOrder(pairs: seq<Pair>, local: Text, b: Block, written: Text, k: string)
    requires HasBlock(local, b) && Stripped(pairs)
    requires var missing := Missing(pairs, b.reading.pairs);
             && !Tied(local, b, missing) && Within(StableDesc(AllSplices(local, b, missing)), |local|)
             && written == Merged(local, b, missing)
    ensures EntriesOf(PairsIn(Some(written)), k)
            == EntriesOf(b.reading.pairs, k) + EntriesOf(Missing(pairs, b.reading.pairs), k)
  {
    var missing := Missing(pairs, b.reading.pairs);
    StrippedMissing(pairs, b.reading.pairs);
    var c := MergedReads(local, b, missing, k);
    BlockFound(written, c);
    TiedMeans(local, b, missing);
    KeysInOwn(local, b);
    UntiedEntries(b.reading, missing, InsertAt(local, b.header, b.end), k);
  }
}
