/** The whole merge: what the written file says, and what a second run does. */
module RulesConfigs {
  import opened Common
  import opened PythonStrings
  import opened RulesLines
  import opened RulesBlocks
  import opened RulesSplices
  import opened RulesMerges
  import opened RulesRereads
  import opened RulesInstalls
  import opened RulesUnions

  // ----- rendered rules read back

  /** `r` is what rendered rules read as, from line `at`. */
  predicate Rendered(pairs: seq<Pair>, at: nat, r: Reading) {
    && ReadAll(Start(at), RenderRules(pairs)) == Ok(r)
    && r.pairs == pairs && r.at == at + |RenderRules(pairs)|
    && r.last.Keys == KeySet(KeysOf(pairs))
    && (pairs != [] ==> r.child == Some(pairs[|pairs| - 1].0) && ChildSeen(r) && r.last[r.child.value] + 1 == r.at)
  }

  lemma {:induction false} RenderReads(pairs: seq<Pair>, at: nat) returns (r: Reading)
    requires Grouped(pairs) && Stripped(pairs)
    ensures Rendered(pairs, at, r)
    decreases |pairs|
  {
    if pairs == [] {
      r := Start(at);
    } else {
      var n := |pairs| - 1;
      GroupedPrefix(pairs);
      var u := RenderReads(pairs[..n], at);
      if n > 0 && pairs[n - 1].0 == pairs[n].0 {
        r := RenderSameKey(pairs, at, u);
      } else {
        r := RenderNewKey(pairs, at, u);
      }
    }
  }

  lemma GroupedPrefix(pairs: seq<Pair>)
    requires Grouped(pairs) && Stripped(pairs) && pairs != []
    ensures Grouped(pairs[..|pairs| - 1]) && Stripped(pairs[..|pairs| - 1])
  {
  }

  lemma RenderSameKey(pairs: seq<Pair>, at: nat, u: Reading) returns (r: Reading)
    requires |pairs| > 1 && pairs[|pairs| - 2].0 == pairs[|pairs| - 1].0
    requires Rstrip(pairs[|pairs| - 1].1) == pairs[|pairs| - 1].1 && Rendered(pairs[..|pairs| - 1], at, u)
    ensures Rendered(pairs, at, r)
  {
    var n := |pairs| - 1;
    var (k, e) := pairs[n];
    r := ReadLastEntry(u, k, e);
    assert [] + [EntryLine(e)] == [EntryLine(e)];
    ReadConcat(Start(at), RenderRules(pairs[..n]), [EntryLine(e)]);
    assert pairs == pairs[..n] + [(k, e)] && k in KeysOf(pairs[..n]) && r.last.Keys == u.last.Keys;
  }

  lemma KeySetAppend(keys: seq<string>, k: string)
    ensures KeySet(keys + [k]) == KeySet(keys) + {k}
  {
    forall x
      ensures x in KeySet(keys + [k]) <==> x in KeySet(keys) + {k}
    {
      assert x in keys + [k] <==> x in keys || x == k;
    }
  }

  lemma NewKeyKeys(pairs: seq<Pair>)
    requires Grouped(pairs) && pairs != []
    requires var n := |pairs| - 1; n == 0 || pairs[n - 1].0 != pairs[n].0
    ensures KeySet(KeysOf(pairs)) == KeySet(KeysOf(pairs[..|pairs| - 1])) + {pairs[|pairs| - 1].0}
    ensures pairs[|pairs| - 1].0 !in KeysOf(pairs[..|pairs| - 1])
  {
    var before, k := KeysOf(pairs[..|pairs| - 1]), pairs[|pairs| - 1].0;
    NewKeyIsNew(pairs);
    KeySetAppend(before, k);
    assert KeysOf(pairs) == before + [k];
  }

  lemma ReadNewKeyAfter(s: Reading, before: Text, u: Reading, k: string, e: string) returns (r: Reading)
    requires ReadAll(s, before) == Ok(u) && k !in u.last && ValidKey(k) && Rstrip(e) == e
    ensures ReadAll(s, before + ([KeyText(k)] + [EntryLine(e)])) == Ok(r)
    ensures r.child == Some(k) && r.last.Keys == u.last.Keys + {k} && r.last[k] == u.at + 1
    ensures r.pairs == u.pairs + [(k, e)] && r.at == u.at + 2
  {
    r := ReadKeyAndEntry(u, k, e);
    ReadConcat(s, before, [KeyText(k)] + [EntryLine(e)]);
  }

  lemma RenderNewKey(pairs: seq<Pair>, at: nat, u: Reading) returns (r: Reading)
    requires Grouped(pairs) && pairs != [] && Rendered(pairs[..|pairs| - 1], at, u)
    requires |pairs| > 1 ==> pairs[|pairs| - 2].0 != pairs[|pairs| - 1].0
    requires Rstrip(pairs[|pairs| - 1].1) == pairs[|pairs| - 1].1 && ValidKey(pairs[|pairs| - 1].0)
    ensures Rendered(pairs, at, r)
  {
    var n := |pairs| - 1;
    var (k, e) := pairs[n];
    NewKeyKeys(pairs);
    r := ReadNewKeyAfter(Start(at), RenderRules(pairs[..n]), u, k, e);
    assert RenderRules(pairs) == RenderRules(pairs[..n]) + ([KeyText(k)] + [EntryLine(e)]);
    assert pairs == pairs[..n] + [(k, e)];
  }

  lemma ReadLastEntry(u: Reading, k: string, e: string) returns (r: Reading)
    requires u.child == Some(k) && ChildSeen(u) && Rstrip(e) == e
    ensures ReadAll(u, [EntryLine(e)]) == Ok(r)
    ensures r.child == Some(k) && r.last == u.last[k := u.at] && r.pairs == u.pairs + [(k, e)] && r.at == u.at + 1
  {
    EntryLineReads(e);
    r := ReadLine(u, EntryLine(e)).value;
    ReadCons(u, EntryLine(e), []);
    assert [EntryLine(e)] + [] == [EntryLine(e)];
  }

  lemma ReadKeyAndEntry(u: Reading, k: string, e: string) returns (r: Reading)
    requires k !in u.last && ValidKey(k) && Rstrip(e) == e
    ensures ReadAll(u, [KeyText(k)] + [EntryLine(e)]) == Ok(r)
    ensures r.child == Some(k) && r.last.Keys == u.last.Keys + {k} && r.last[k] == u.at + 1
    ensures r.pairs == u.pairs + [(k, e)] && r.at == u.at + 2
  {
    KeyTextReads(k);
    assert !HasContent("");
    var t := ReadLine(u, KeyText(k)).value;
    r := ReadLastEntry(t, k, e);
    ReadCons(u, KeyText(k), [EntryLine(e)]);
  }

  lemma NewKeyIsNew(pairs: seq<Pair>)
    requires Grouped(pairs) && pairs != []
    requires var n := |pairs| - 1; n == 0 || pairs[n - 1].0 != pairs[n].0
    ensures pairs[|pairs| - 1].0 !in KeysOf(pairs[..|pairs| - 1])
  {
    var n := |pairs| - 1;
    var k := pairs[n].0;
    InKeys(pairs[..n], k);
    AbsentKey(pairs[..n], k);
  }

  lemma {:induction false} RenderInside(pairs: seq<Pair>)
    ensures AllInside(RenderRules(pairs))
    decreases |pairs|
  {
    if pairs != [] {
      RenderInside(pairs[..|pairs| - 1]);
    }
  }

  /** Lines that are a mapping without rules. */
  predicate NoRules(lines: Text) {
    AMapping(lines) && forall i {:trigger IsRules(lines[i])} :: 0 <= i < |lines| ==> !IsRules(lines[i])
  }

  /** A rules block written after lines that have none. */
  lemma RenderedBlock(lines: Text, head: Text, pairs: seq<Pair>, tail: Text) returns (b: Block)
    requires lines == head + [HEADER] + (RenderRules(pairs) + tail) && NoRules(head)
    requires Grouped(pairs) && Stripped(pairs) && AllBlank(tail)
    ensures HasBlock(lines, b) && b.header == |head| && b.end == |lines| && b.reading.pairs == pairs
    ensures pairs != [] ==> var k := pairs[|pairs| - 1].0;
                            k in b.reading.last && b.reading.last[k] + 1 + |tail| == b.end
    ensures b.reading.last.Keys == KeySet(KeysOf(pairs))
  {
    var inner := RenderRules(pairs) + tail;
    var r := RenderedTail(|head| + 1, pairs, tail);
    RenderedShape(lines, head, inner, pairs, tail);
    ShapeLocated(lines, |head|, |lines|);
    assert head + [HEADER] + inner + [] == lines;
    b := BlockReads(lines, head + [HEADER], inner, [], |head|, |lines|, r);
  }

  lemma RenderedShape(lines: Text, head: Text, inner: Text, pairs: seq<Pair>, tail: Text)
    requires lines == head + [HEADER] + inner && inner == RenderRules(pairs) + tail && NoRules(head) && AllBlank(tail)
    ensures BlockShape(lines, |head|, |lines|)
  {
    HeaderIsRules();
    RenderInside(pairs);
    BlankInside(tail);
    InsideConcat(RenderRules(pairs), tail);
    forall i | 0 <= i < |lines|
      ensures LineFits(lines[i], i, |head|, |lines|)
    {
      if i < |head| {
        assert lines[i] == head[i] && !TopOf(head[i]).Bad? && !IsRules(head[i]);
      } else if i > |head| {
        assert lines[i] == inner[i - |head| - 1];
      }
    }
    assert lines[|head|] == HEADER;
  }

  lemma RenderedTail(at: nat, pairs: seq<Pair>, tail: Text) returns (r: Reading)
    requires Grouped(pairs) && Stripped(pairs) && AllBlank(tail)
    ensures ReadAll(Start(at), RenderRules(pairs) + tail) == Ok(r)
    ensures r.pairs == pairs && r.last.Keys == KeySet(KeysOf(pairs))
    ensures pairs != [] ==> var k := pairs[|pairs| - 1].0;
                            k in r.last && r.last[k] + 1 == at + |RenderRules(pairs)|
  {
    var u := RenderReads(pairs, at);
    SkipBlanks(u, tail);
    ReadConcat(Start(at), RenderRules(pairs), tail);
    r := u.(at := u.at + |tail|);
  }

  lemma TopKeyReads(k: string, rest: string)
    requires ValidKey(k)
    ensures TopOf(TopLine(k, rest)) == TopKey(k, rest)
  {
    KeyLineReads(k, rest);
    assert TopLine(k, rest)[0] == k[0];
  }

  lemma HeaderIsRules()
    ensures TopOf(HEADER) == TopKey("rules", "") && !HasContent("")
  {
    TopKeyReads("rules", "");
  }

  lemma SchemaLine()
    ensures TopOf(SCHEMA).TopKey? && TopOf(SCHEMA).key == "schema"
  {
    TopKeyReads("schema", " spec-driven");
  }

  lemma SchemaHasNoRules()
    ensures NoRules([SCHEMA, "", ""])
  {
    SchemaLine();
    assert "schema"[0] != "rules"[0];
    var head := [SCHEMA, "", ""];
    forall i | 0 <= i < 3
      ensures !TopOf(head[i]).Bad? && !IsRules(head[i])
    {
      assert i > 0 ==> head[i] == "";
    }
  }

  lemma AppendedBlock(lines: Text, pairs: seq<Pair>) returns (b: Block)
    requires NoRules(lines) && Grouped(pairs) && Stripped(pairs)
    ensures HasBlock(Appended(lines, pairs), b) && b.reading.pairs == pairs
  {
    var kept := WithoutLastNewline(lines);
    KeptHasNoRules(lines);
    assert Appended(lines, pairs) == kept + [HEADER] + (RenderRules(pairs) + [""]);
    b := RenderedBlock(Appended(lines, pairs), kept, pairs, [""]);
  }

  lemma KeptHasNoRules(lines: Text)
    requires NoRules(lines)
    ensures NoRules(WithoutLastNewline(lines))
  {
    var kept := WithoutLastNewline(lines);
    forall i | 0 <= i < |kept|
      ensures !TopOf(kept[i]).Bad? && !IsRules(kept[i])
    {
      assert kept[i] == lines[i] && !TopOf(lines[i]).Bad? && !IsRules(lines[i]);
    }
  }

  // ----- the theorem

  function PairsIn(text: Option<Text>): seq<Pair> {
    if text.None? then []
    else match RulesBlock(text.value)
         case Ok(Some(b)) => b.reading.pairs
         case _ => []
  }

  /** The merge puts entries of an existing key under a new one. */
  predicate Misplaces(release: Text, local: Option<Text>) {
    local.Some?
    && match RulesBlock(local.value)
       case Ok(Some(b)) =>
         BlockFound(local.value, b);
         Tied(local.value, b, Missing(PairsIn(Some(release)), b.reading.pairs))
       case _ => false
  }

  lemma ReadPairs(text: Text)
    ensures Grouped(PairsIn(Some(text))) && Stripped(PairsIn(Some(text)))
  {
    match RulesBlock(text)
    case Ok(Some(b)) =>
      BlockFound(text, b);
      BlockSound(text, b);
    case _ =>
  }

  /** The block appended to a text without rules says what the release says. */
  lemma AppendGivesUnion(release: Text, local: Option<Text>, base: Text, written: Text)
    requires InstallConfigMerge(release, local) == Ok(Some(written)) && PairsIn(local) == []
    requires NoRules(base) && written == Appended(base, PairsIn(Some(release)))
    ensures RulesBlock(written).Ok? && RulesBlock(written).value.Some?
    ensures IsUnion(PairsIn(Some(written)), PairsIn(local), PairsIn(Some(release)))
    ensures InstallConfigMerge(release, Some(written)) == Ok(None)
  {
    var pairs := PairsIn(Some(release));
    ReadPairs(release);
    var c := AppendedBlock(base, pairs);
    BlockFound(written, c);
    NothingMissing(pairs, pairs);
  }

  lemma MergedGivesUnion(release: Text, local: Text, b: Block, written: Text)
    requires InstallConfigMerge(release, Some(local)) == Ok(Some(written)) && RulesBlock(local) == Ok(Some(b))
    ensures RulesBlock(written).Ok? && RulesBlock(written).value.Some?
    ensures IsUnion(PairsIn(Some(written)), PairsIn(Some(local)), PairsIn(Some(release))) <==> !Misplaces(release, Some(local))
    ensures InstallConfigMerge(release, Some(written)) == Ok(None) <==> !Misplaces(release, Some(local))
  {
    var pairs := PairsIn(Some(release));
    ReadPairs(release);
    BlockFound(local, b);
    StrippedMissing(pairs, b.reading.pairs);
    var c := MergedReads(local, b, Missing(pairs, b.reading.pairs), "");
    BlockFound(written, c);
    MergedIsUnion(local, b, pairs, c);
  }

  /** The written file says what the two files said together, and a second merge writes
      nothing, exactly when no entries are misplaced. */
  lemma MergeGivesUnion(release: Text, local: Option<Text>, written: Text)
    requires InstallConfigMerge(release, local) == Ok(Some(written))
    ensures RulesBlock(written).Ok? && RulesBlock(written).value.Some?
    ensures IsUnion(PairsIn(Some(written)), PairsIn(local), PairsIn(Some(release))) <==> !Misplaces(release, local)
    ensures InstallConfigMerge(release, Some(written)) == Ok(None) <==> !Misplaces(release, local)
  {
    if local.None? {
      SchemaHasNoRules();
      AppendGivesUnion(release, local, [SCHEMA, "", ""], written);
    } else if RulesBlock(local.value).value.None? {
      AppendGivesUnion(release, local, local.value, written);
    } else {
      MergedGivesUnion(release, local.value, RulesBlock(local.value).value.value, written);
    }
  }

  /** Every line of the project's file survives, in order. */
  lemma LinesSurvive(release: Text, local: Text, written: Text)
    requires InstallConfigMerge(release, Some(local)) == Ok(Some(written))
    ensures Subsequence(local, written)
  {
    if RulesBlock(local).value.None? {
      AppendedKeepsLines(local, PairsIn(Some(release)));
    } else {
      var b := RulesBlock(local).value.value;
      BlockFound(local, b);
      MergedKeepsLines(local, b, Missing(PairsIn(Some(release)), b.reading.pairs));
    }
  }

  lemma MergedKeepsLines(local: Text, b: Block, missing: seq<Pair>)
    requires HasBlock(local, b)
    ensures Within(StableDesc(AllSplices(local, b, missing)), |local|) && Subsequence(local, Merged(local, b, missing))
  {
    MergeOnlyInserts(local, b, missing);
    WeaveKeepsLines(local, SlotsFor(|local|, b.reading.last, InsertAt(local, b.header, b.end), missing));
  }

  lemma AppendedKeepsLines(local: Text, pairs: seq<Pair>)
    ensures Subsequence(local, Appended(local, pairs))
  {
    var kept := WithoutLastNewline(local);
    var tail := [HEADER] + RenderRules(pairs) + [""];
    assert Appended(local, pairs) == kept + tail;
    if kept == local {
      Prefix(local, [], tail);
      assert local + [] == local;
    } else {
      SubsequenceAfter([""], [HEADER] + RenderRules(pairs), [""]);
      Prefix(kept, [""], tail);
      assert kept + [""] == local;
    }
  }

  lemma {:induction false} Prefix(head: Text, a: Text, b: Text)
    requires Subsequence(a, b)
    ensures Subsequence(head + a, head + b)
    decreases |head|
  {
    if head == [] {
      assert head + a == a && head + b == b;
    } else {
      Prefix(head[1..], a, b);
      assert (head + a)[1..] == head[1..] + a && (head + b)[1..] == head[1..] + b;
    }
  }

  /** Nothing is written exactly when the project already has every release rule. */
  lemma NothingToMerge(release: Text, local: Text)
    requires InstallConfigMerge(release, Some(local)).Ok?
    ensures InstallConfigMerge(release, Some(local)) == Ok(None)
            <==> RulesBlock(local).value.Some? && forall p :: p in PairsIn(Some(release)) ==> p in PairsIn(Some(local))
  {
    var pairs := PairsIn(Some(release));
    if RulesBlock(local).value.Some? {
      var owned := PairsIn(Some(local));
      if Missing(pairs, owned) == [] {
        forall p | p in pairs
          ensures p in owned
        {
          InMissing(pairs, owned, p);
        }
      } else {
        InMissing(pairs, owned, Missing(pairs, owned)[0]);
      }
    }
  }

  lemma ExampleTexts()
    ensures [HEADER] + RenderRules([("a", "x")]) == [HEADER, KeyText("a"), EntryLine("x")]
    ensures [HEADER] + RenderRules([("a", "y"), ("b", "z")])
            == [HEADER, KeyText("a"), EntryLine("y"), KeyText("b"), EntryLine("z")]
  {
    var has, gets: seq<Pair> := [("a", "x")], [("a", "y"), ("b", "z")];
    assert has[..0] == [] && gets[..1] == [("a", "y")] && gets[..1][..0] == [];
    assert RenderRules(has) == [KeyText("a"), EntryLine("x")];
    assert RenderRules(gets[..1]) == [KeyText("a"), EntryLine("y")];
  }

  lemma ExamplePairs()
    ensures var missing := Missing([("a", "y"), ("b", "z")], [("a", "x")]);
            ("a", "y") in missing && ("b", "z") in missing
    ensures KeySet(KeysOf([("a", "x")])) == {"a"}
  {
    var has, gets: seq<Pair> := [("a", "x")], [("a", "y"), ("b", "z")];
    InMissing(gets, has, ("a", "y"));
    InMissing(gets, has, ("b", "z"));
    assert has[..0] == [];
    assert KeysOf(has) == ["a"];
  }

  lemma EntryHasContent(e: string)
    ensures HasContent(EntryLine(e))
  {
    assert EntryLine(e)[4] == '-';
  }

  lemma ExampleBlock(pairs: seq<Pair>) returns (b: Block)
    requires Grouped(pairs) && Stripped(pairs) && pairs != []
    ensures RulesBlock([HEADER] + RenderRules(pairs)) == Ok(Some(b)) && HasBlock([HEADER] + RenderRules(pairs), b)
    ensures b.header == 0 && b.end == 1 + |RenderRules(pairs)| && b.reading.pairs == pairs
    ensures b.reading.last.Keys == KeySet(KeysOf(pairs))
    ensures var k := pairs[|pairs| - 1].0; k in b.reading.last && b.reading.last[k] + 1 == b.end
  {
    var lines := [HEADER] + RenderRules(pairs);
    assert lines == [] + [HEADER] + (RenderRules(pairs) + []);
    b := RenderedBlock(lines, [], pairs, []);
    BlockFound(lines, b);
  }

  lemma ExampleTie(local: Text, b: Block, missing: seq<Pair>)
    requires |local| == 3 && HasContent(local[2]) && b.header == 0 && b.end == 3
    requires "a" in b.reading.last && b.reading.last["a"] == 2 && "b" !in b.reading.last
    requires ("a", "y") in missing && ("b", "z") in missing
    ensures Tied(local, b, missing)
  {
    assert InsertAt(local, 0, 3) == 3;
  }

  /** One new key and one new entry for the file's last key are enough to lose the entry: the
      merge is written, but it does not say what the two files said together. */
  lemma MisplacedExample() returns (release: Text, local: Text, written: Text)
    ensures local == [HEADER, KeyText("a"), EntryLine("x")]
    ensures release == [HEADER, KeyText("a"), EntryLine("y"), KeyText("b"), EntryLine("z")]
    ensures Misplaces(release, Some(local)) && InstallConfigMerge(release, Some(local)) == Ok(Some(written))
    ensures !IsUnion(PairsIn(Some(written)), PairsIn(Some(local)), PairsIn(Some(release)))
  {
    var has, gets: seq<Pair> := [("a", "x")], [("a", "y"), ("b", "z")];
    local := [HEADER] + RenderRules(has);
    release := [HEADER] + RenderRules(gets);
    ExamplePairs();
    ExampleTexts();
    ExampleValid();
    var b := ExampleBlock(has);
    var c := ExampleBlock(gets);
    EntryHasContent("x");
    ExampleTie(local, b, Missing(gets, has));
    written := InstallConfigMerge(release, Some(local)).value.value;
    MergeGivesUnion(release, Some(local), written);
  }

  lemma ExampleValid()
    ensures var has, gets: seq<Pair> := [("a", "x")], [("a", "y"), ("b", "z")];
            Grouped(has) && Stripped(has) && Grouped(gets) && Stripped(gets)
  {
  }
}
