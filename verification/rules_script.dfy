/** The loops of update-switchyard.py that read, render and splice rules. */
module RulesScripts {
  import opened Common
  import opened RulesLines
  import opened RulesBlocks
  import opened RulesSplices
  import opened RulesMerges
  import opened RulesRereads
  import opened RulesInstalls
  import opened RulesUnions

  /** A rule key without an entry, or one entry of a key, and its line. */
  datatype Record = Record(key: string, entry: Option<string>, index: nat)

  function PairsOf(records: seq<Record>): seq<Pair> {
    if records == [] then []
    else
      var n := |records| - 1;
      var x := records[n];
      if x.entry.Some? then PairsOf(records[..n]) + [(x.key, x.entry.value)] else PairsOf(records[..n])
  }

  /** The last entry line of each key, or its key line when it has none. */
  function LastOf(records: seq<Record>): map<string, nat> {
    if records == [] then map[]
    else
      var n := |records| - 1;
      var x, before := records[n], LastOf(records[..n]);
      if x.entry.Some? || x.key !in before then before[x.key := x.index] else before
  }

  lemma RecordsSnoc(records: seq<Record>, x: Record)
    ensures PairsOf(records + [x]) == if x.entry.Some? then PairsOf(records) + [(x.key, x.entry.value)] else PairsOf(records)
    ensures LastOf(records + [x]) == if x.entry.Some? || x.key !in LastOf(records)
                                     then LastOf(records)[x.key := x.index] else LastOf(records)
  {
    assert (records + [x])[..|records|] == records;
  }

  /** Records that say what a reading says. */
  ghost predicate Recorded(records: seq<Record>, s: Reading) {
    && PairsOf(records) == s.pairs && LastOf(records) == s.last
    && forall k :: k in s.last <==> exists j :: 0 <= j < |records| && records[j].key == k
  }

  lemma RecordOne(records: seq<Record>, s: Reading, x: Record, t: Reading)
    requires Recorded(records, s)
    requires t.last == s.last[x.key := x.index] && (x.entry.None? ==> x.key !in s.last)
    requires t.pairs == if x.entry.Some? then s.pairs + [(x.key, x.entry.value)] else s.pairs
    ensures Recorded(records + [x], t)
  {
    RecordsSnoc(records, x);
    var all := records + [x];
    forall k | k in t.last
      ensures exists j :: 0 <= j < |all| && all[j].key == k
    {
      if k == x.key {
        assert all[|records|].key == k;
      } else {
        var j :| 0 <= j < |records| && records[j].key == k;
        assert all[j].key == k;
      }
    }
    forall j | 0 <= j < |all|
      ensures all[j].key in t.last
    {
      assert j < |records| ==> all[j] == records[j] && records[j].key in s.last;
    }
  }

  lemma ReadOneLine(start: Reading, lines: Text, h: nat, i: nat, end: nat, s: Reading)
    requires h <= i < end <= |lines| && ReadAll(start, lines[h..i]) == Ok(s)
    ensures ReadAll(start, lines[h..i + 1]) == ReadLine(s, lines[i])
    ensures ReadLine(s, lines[i]).Refused? ==> ReadAll(start, lines[h..end]) == ReadLine(s, lines[i])
  {
    assert lines[h..i + 1] == lines[h..i] + [lines[i]];
    ReadConcat(start, lines[h..i], [lines[i]]);
    assert lines[h..end] == lines[h..i] + lines[i..end];
    ReadConcat(start, lines[h..i], lines[i..end]);
  }

  method ReadRulesEntries(lines: Text, rulesIndex: nat, rulesEnd: nat) returns (r: Outcome<seq<Record>>)
    requires rulesIndex < rulesEnd <= |lines|
    ensures var spec := ReadAll(Start(rulesIndex + 1), lines[rulesIndex + 1..rulesEnd]);
            if spec.Refused? then r == Refused(spec.why) else r.Ok? && Recorded(r.value, spec.value)
  {
    var entries: seq<Record> := [];
    var childKey: Option<string> := None;
    var index := rulesIndex + 1;
    ghost var start := Start(index);
    ghost var s := start;
    while index < rulesEnd
      invariant rulesIndex < index <= rulesEnd
      invariant ReadAll(start, lines[rulesIndex + 1..index]) == Ok(s) && s.at == index && s.child == childKey
      invariant Recorded(entries, s)
    {
      var line := lines[index];
      ReadOneLine(start, lines, rulesIndex + 1, index, rulesEnd, s);
      ghost var before := s;
      if !Skipped(line) {
        var child := ChildKey(line);
        var record: Record;
        if child.Some? {
          var (key, inline) := child.value;
          if HasContent(inline) {
            return Refused(NotAList);
          }
          if exists j :: 0 <= j < |entries| && entries[j].key == key {
            return Refused(KeyTwice);
          }
          childKey := Some(key);
          record := Record(key, None, index);
        } else {
          if childKey.None? {
            return Refused(EntryBeforeKey);
          }
          var entry := EntryText(line);
          if entry.None? {
            return Refused(UnexpectedLine);
          }
          record := Record(childKey.value, entry, index);
        }
        s := ReadLine(before, line).value;
        RecordOne(entries, before, record, s);
        entries := entries + [record];
      } else {
        s := ReadLine(before, line).value;
      }
      index := index + 1;
    }
    return Ok(entries);
  }

  method RulesOf(lines: Text) returns (r: Outcome<Option<(seq<Record>, nat, nat)>>)
    ensures match RulesBlock(lines)
            case Refused(why) => r == Refused(why)
            case Ok(None) => r == Ok(None)
            case Ok(Some(b)) => && r.Ok? && r.value.Some? && Recorded(r.value.value.0, b.reading)
                                && r.value.value.1 == b.header && r.value.value.2 == b.end
  {
    var keys := YamlTopKeyIndexes(lines);
    if keys.Refused? {
      return Refused(keys.why);
    }
    var found := RulesAmong(lines, keys.value);
    if found == [] {
      return Ok(None);
    }
    var header := found[0];
    assert FirstRules(lines, 0) == header;
    if |found| > 1 {
      assert IsRules(lines[found[1]]);
      return Refused(RulesTwice);
    }
    if HasContent(TopOf(lines[header]).inline) {
      return Refused(RulesHasValue);
    }
    var end := NextKey(lines, keys.value, header);
    var records := ReadRulesEntries(lines, header, end);
    if records.Refused? {
      return Refused(records.why);
    }
    return Ok(Some((records.value, header, end)));
  }

  method RulesAmong(lines: Text, keys: seq<nat>) returns (found: seq<nat>)
    requires KeyIndexes(lines, |lines|, keys)
    ensures forall j :: 0 <= j < |found| ==> found[j] < |lines| && IsRules(lines[found[j]])
    ensures forall j :: 0 <= j < |lines| && IsRules(lines[j]) ==> j in found
    ensures forall j, k :: 0 <= j < k < |found| ==> found[j] < found[k]
  {
    found := [];
    var i := 0;
    while i < |keys|
      invariant i <= |keys|
      invariant forall j :: 0 <= j < |found| ==> found[j] < |lines| && IsRules(lines[found[j]])
      invariant forall j :: 0 <= j < |found| ==> forall k :: i <= k < |keys| ==> found[j] < keys[k]
      invariant forall k :: 0 <= k < i && IsRules(lines[keys[k]]) ==> keys[k] in found
      invariant forall j, k :: 0 <= j < k < |found| ==> found[j] < found[k]
    {
      if TopOf(lines[keys[i]]).key == "rules" {
        found := found + [keys[i]];
      }
      i := i + 1;
    }
  }

  method NextKey(lines: Text, keys: seq<nat>, header: nat) returns (end: nat)
    requires KeyIndexes(lines, |lines|, keys) && header < |lines|
    ensures header < end && end == FirstTop(lines, header + 1)
  {
    var i := 0;
    while i < |keys| && keys[i] <= header
      invariant i <= |keys|
      invariant forall k :: 0 <= k < i ==> keys[k] <= header
    {
      i := i + 1;
    }
    end := if i < |keys| then keys[i] else |lines|;
    assert forall j: nat :: j in keys && j > header ==> j >= end;
  }

  /** The top-level key lines before line `n`, in order. */
  ghost predicate KeyIndexes(lines: Text, n: nat, keys: seq<nat>)
    requires n <= |lines|
  {
    && (forall j :: 0 <= j < |keys| ==> keys[j] < n && TopOf(lines[keys[j]]).TopKey?)
    && (forall j :: 0 <= j < n && TopOf(lines[j]).TopKey? ==> j in keys)
    && (forall j, k :: 0 <= j < k < |keys| ==> keys[j] < keys[k])
  }

  method YamlTopKeyIndexes(lines: Text) returns (r: Outcome<seq<nat>>)
    ensures !AMapping(lines) ==> r == Refused(NotAMapping)
    ensures AMapping(lines) ==> r.Ok? && KeyIndexes(lines, |lines|, r.value)
  {
    var keys: seq<nat>, index := [], 0;
    while index < |lines|
      invariant index <= |lines|
      invariant forall j :: 0 <= j < index ==> !TopOf(lines[j]).Bad?
      invariant KeyIndexes(lines, index, keys)
    {
      match TopOf(lines[index]) {
        case Bad => return Refused(NotAMapping);
        case TopKey(_, _) => keys := keys + [index];
        case Inside =>
      }
      index := index + 1;
    }
    return Ok(keys);
  }

  method Render(pairs: seq<Pair>) returns (rendered: Text)
    ensures rendered == RenderRules(pairs)
  {
    rendered := [];
    var lastKey: Option<string> := None;
    var i := 0;
    while i < |pairs|
      invariant i <= |pairs| && rendered == RenderRules(pairs[..i])
      invariant lastKey == if i == 0 then None else Some(pairs[i - 1].0)
    {
      var (key, entry) := pairs[i];
      assert pairs[..i + 1][..i] == pairs[..i];
      ghost var before := rendered;
      if lastKey != Some(key) {
        rendered := rendered + [KeyText(key)];
        lastKey := Some(key);
      }
      rendered := rendered + [EntryLine(entry)];
      assert rendered == before + ((if i == 0 || pairs[i - 1].0 != key then [KeyText(key)] else []) + [EntryLine(entry)]);
      i := i + 1;
    }
    assert pairs[..i] == pairs;
  }

  /** The pairs of records, the release's pairs the project lacks, and their distinct keys. */
  method MissingFrom(release: seq<Pair>, owned: seq<Pair>) returns (missing: seq<Pair>, keys: seq<string>)
    ensures missing == Missing(release, owned) && keys == KeysOf(missing)
  {
    missing, keys := [], [];
    var i := 0;
    while i < |release|
      invariant i <= |release| && missing == Missing(release[..i], owned) && keys == KeysOf(missing)
    {
      assert release[..i + 1][..i] == release[..i];
      if release[i] !in owned {
        assert (missing + [release[i]])[..|missing|] == missing;
        if release[i].0 !in keys {
          keys := keys + [release[i].0];
        }
        missing := missing + [release[i]];
      }
      i := i + 1;
    }
    assert release[..i] == release;
  }

  method LastEntries(records: seq<Record>) returns (last: map<string, nat>)
    ensures last == LastOf(records)
  {
    last := map[];
    var i := 0;
    while i < |records|
      invariant i <= |records| && last == LastOf(records[..i])
    {
      var x := records[i];
      assert records[..i + 1][..i] == records[..i];
      if x.entry.Some? {
        last := last[x.key := x.index];
      } else if x.key !in last {
        last := last[x.key := x.index];
      }
      i := i + 1;
    }
    assert records[..i] == records;
  }

  method EntriesFor(missing: seq<Pair>, key: string) returns (entries: seq<string>)
    ensures entries == EntriesOf(missing, key)
  {
    entries := [];
    var i := 0;
    while i < |missing|
      invariant i <= |missing| && entries == EntriesOf(missing[..i], key)
    {
      assert missing[..i + 1][..i] == missing[..i];
      if missing[i].0 == key {
        entries := entries + [missing[i].1];
      }
      i := i + 1;
    }
    assert missing[..i] == missing;
  }

  /** Just after the last line with content, looking back from the end of the block. */
  method FindInsertAt(lines: Text, rulesIndex: nat, rulesEnd: nat) returns (insertAt: nat)
    requires rulesIndex < rulesEnd <= |lines|
    ensures insertAt == InsertAt(lines, rulesIndex, rulesEnd)
  {
    var index := rulesEnd - 1;
    while index > rulesIndex
      invariant rulesIndex <= index < rulesEnd
      invariant InsertAt(lines, rulesIndex, rulesEnd) == InsertAt(lines, rulesIndex, index + 1)
    {
      if HasContent(lines[index]) {
        return index + 1;
      }
      index := index - 1;
    }
    return rulesIndex + 1;
  }

  method CollectSplices(lines: Text, header: nat, end: nat, last: map<string, nat>, missing: seq<Pair>, keys: seq<string>,
                        ghost b: Block)
    returns (splices: seq<Splice>)
    requires header < end <= |lines| && keys == KeysOf(missing)
    requires b.header == header && b.end == end && b.reading.last == last
    ensures splices == AllSplices(lines, b, missing)
  {
    splices := [];
    var newKeyBlock: Text := [];
    var i := 0;
    while i < |keys|
      invariant i <= |keys|
      invariant splices == EntrySplices(keys[..i], last, missing)
      invariant newKeyBlock == NewBlock(keys[..i], last, missing)
    {
      var key := keys[i];
      assert keys[..i + 1][..i] == keys[..i];
      var entries := EntriesFor(missing, key);
      if key in last {
        splices := splices + [Splice(last[key] + 1, EntryLines(entries))];
      } else {
        newKeyBlock := newKeyBlock + ([KeyText(key)] + EntryLines(entries));
      }
      i := i + 1;
    }
    assert keys[..i] == keys;
    if newKeyBlock != [] {
      var insertAt := FindInsertAt(lines, header, end);
      splices := splices + [Splice(insertAt, newKeyBlock)];
    }
  }

  method Splices(lines: Text, sorted: seq<Splice>) returns (finalLines: Text)
    requires Within(sorted, |lines|)
    ensures finalLines == ApplySplices(lines, sorted)
  {
    finalLines := lines;
    var i := 0;
    while i < |sorted|
      invariant i <= |sorted| && finalLines == ApplySplices(lines, sorted[..i])
    {
      var x := sorted[i];
      assert sorted[..i + 1][..i] == sorted[..i];
      finalLines := finalLines[..x.at] + x.piece + finalLines[x.at..];
      i := i + 1;
    }
    assert sorted[..i] == sorted;
  }

  method MergeInto(local: Text, release: seq<Pair>, records: seq<Record>, header: nat, end: nat, ghost b: Block)
    returns (written: Option<Text>)
    requires HasBlock(local, b) && b.header == header && b.end == end && Recorded(records, b.reading)
    ensures var missing := Missing(release, b.reading.pairs);
            && Within(StableDesc(AllSplices(local, b, missing)), |local|)
            && written == if missing == [] then None else Some(Merged(local, b, missing))
  {
    var owned := PairsOf(records);
    var missing, keys := MissingFrom(release, owned);
    SplicesFit(local, b, missing);
    if missing == [] {
      return None;
    }
    var last := LastEntries(records);
    var splices := CollectSplices(local, header, end, last, missing, keys, b);
    var finalLines := Splices(local, StableDesc(splices));
    return Some(finalLines);
  }

  method InstallMerge(release: Text, local: Option<Text>) returns (r: Outcome<Option<Text>>)
    ensures r == InstallConfigMerge(release, local)
  {
    var found := RulesOf(release);
    if found.Refused? {
      return Refused(found.why);
    }
    if found.value.None? {
      return Refused(ReleaseWithoutRules);
    }
    var pairs := PairsOf(found.value.value.0);
    if local.None? {
      if pairs == [] {
        return Ok(None);
      }
      var rendered := Render(pairs);
      assert WithoutLastNewline([SCHEMA, "", ""]) == [SCHEMA, ""];
      return Ok(Some([SCHEMA, ""] + [HEADER] + rendered + [""]));
    }
    var own := RulesOf(local.value);
    if own.Refused? {
      return Refused(own.why);
    }
    if own.value.None? {
      var rendered := Render(pairs);
      return Ok(Some(WithoutLastNewline(local.value) + [HEADER] + rendered + [""]));
    }
    var (records, header, end) := own.value.value;
    ghost var b := RulesBlock(local.value).value.value;
    BlockFound(local.value, b);
    var written := MergeInto(local.value, pairs, records, header, end, b);
    return Ok(written);
  }
}
