/** The `rules:` mapping of a configuration text: where it is and what it says. */
module RulesBlocks {
  import opened Common
  import opened PythonStrings
  import opened RulesLines

  datatype Refusal =
    | NotAMapping | RulesTwice | RulesHasValue
    | NotAList | KeyTwice | EntryBeforeKey | UnexpectedLine
    | ReleaseWithoutRules

  datatype Outcome<+T> = Ok(value: T) | Refused(why: Refusal)

  type Text = seq<string>
  type Pair = (string, string)

  // ----- reading the block

  /** What has been read so far: the next line's index, the current rule key, the last line
      that belongs to each key, and the (key, entry) pairs in file order. */
  datatype Reading = Reading(at: nat, child: Option<string>, last: map<string, nat>, pairs: seq<Pair>)

  function Start(at: nat): Reading {
    Reading(at, None, map[], [])
  }

  function ReadLine(s: Reading, line: string): Outcome<Reading> {
    if Skipped(line) then Ok(s.(at := s.at + 1))
    else
      var child := ChildKey(line);
      if child.Some? then
        if HasContent(child.value.1) then Refused(NotAList)
        else if child.value.0 in s.last then Refused(KeyTwice)
        else Ok(s.(at := s.at + 1, child := Some(child.value.0), last := s.last[child.value.0 := s.at]))
      else if s.child.None? then Refused(EntryBeforeKey)
      else
        var entry := EntryText(line);
        if entry.None? then Refused(UnexpectedLine)
        else Ok(Reading(s.at + 1, s.child, s.last[s.child.value := s.at], s.pairs + [(s.child.value, entry.value)]))
  }

  function ReadAll(s: Reading, lines: Text): Outcome<Reading>
    decreases |lines|
  {
    if lines == [] then Ok(s)
    else
      var next := ReadLine(s, lines[0]);
      if next.Refused? then next else ReadAll(next.value, lines[1..])
  }

  lemma {:induction false} ReadConcat(s: Reading, a: Text, b: Text)
    ensures ReadAll(s, a + b) ==
            if ReadAll(s, a).Refused? then ReadAll(s, a) else ReadAll(ReadAll(s, a).value, b)
    decreases |a|
  {
    if a == [] {
      assert a + b == b;
    } else {
      assert (a + b)[1..] == a[1..] + b;
      var next := ReadLine(s, a[0]);
      if next.Ok? {
        ReadConcat(next.value, a[1..], b);
      }
    }
  }

  /** Facts about every reading that starts fresh. */
  predicate Sound(s: Reading) {
    && (s.child.Some? ==> s.child.value in s.last)
    && (forall k :: k in s.last ==> s.last[k] < s.at && ValidKey(k))
    && (forall i :: 0 <= i < |s.pairs| ==> s.pairs[i].0 in s.last && Rstrip(s.pairs[i].1) == s.pairs[i].1)
    && (s.child.None? ==> s.pairs == [])
  }

  /** Entries of one key are adjacent. */
  predicate Grouped(pairs: seq<Pair>) {
    forall i, j, k :: 0 <= i < j < k < |pairs| && pairs[i].0 == pairs[k].0 ==> pairs[j].0 == pairs[i].0
  }

  /** Only the current key's entries can still grow. */
  predicate GroupedSoFar(s: Reading) {
    Grouped(s.pairs) && (s.child.Some? ==> OpenAtEnd(s.pairs, s.child.value))
  }

  lemma ReadLineSound(s: Reading, line: string)
    requires Sound(s) && ReadLine(s, line).Ok?
    ensures Sound(ReadLine(s, line).value)
  {
    if EntryText(line).Some? {
      RstripTwice(line[6..]);
    }
  }

  /** Entries of `k` come last, if there are any. */
  predicate OpenAtEnd(pairs: seq<Pair>, k: string) {
    forall i, j :: 0 <= i < j < |pairs| && pairs[i].0 == k ==> pairs[j].0 == k
  }

  lemma GroupedSnoc(pairs: seq<Pair>, p: Pair)
    requires Grouped(pairs) && OpenAtEnd(pairs, p.0)
    ensures Grouped(pairs + [p]) && OpenAtEnd(pairs + [p], p.0)
  {
    var all := pairs + [p];
    forall i, j, k | 0 <= i < j < k < |all| && all[i].0 == all[k].0
      ensures all[j].0 == all[i].0
    {
      if k == |pairs| {
        assert pairs[i].0 == p.0;
      }
    }
  }

  lemma ReadLineGroups(s: Reading, line: string)
    requires Sound(s) && ReadLine(s, line).Ok? && GroupedSoFar(s)
    ensures GroupedSoFar(ReadLine(s, line).value)
  {
    var t := ReadLine(s, line).value;
    if |t.pairs| > |s.pairs| {
      GroupedSnoc(s.pairs, t.pairs[|s.pairs|]);
    }
  }

  /** Reading on forgets nothing: keys and pairs stay, and a key's date is old or later. */
  predicate Extends(s: Reading, t: Reading) {
    && s.at <= t.at && s.last.Keys <= t.last.Keys && s.pairs <= t.pairs
    && forall k :: k in t.last ==> t.last[k] >= s.at || (k in s.last && s.last[k] == t.last[k])
  }

  lemma ReadLineExtends(s: Reading, line: string)
    requires ReadLine(s, line).Ok?
    ensures Extends(s, ReadLine(s, line).value)
  {
  }

  lemma ExtendsOn(s: Reading, t: Reading, u: Reading)
    requires Extends(s, t) && Extends(t, u)
    ensures Extends(s, u)
  {
  }

  lemma {:induction false} ReadAllSound(s: Reading, lines: Text)
    requires Sound(s) && ReadAll(s, lines).Ok?
    ensures Sound(ReadAll(s, lines).value)
    ensures GroupedSoFar(s) ==> GroupedSoFar(ReadAll(s, lines).value)
    ensures ReadAll(s, lines).value.at == s.at + |lines|
    ensures Extends(s, ReadAll(s, lines).value)
    decreases |lines|
  {
    if lines != [] {
      var next := ReadLine(s, lines[0]).value;
      ReadLineSound(s, lines[0]);
      ReadLineExtends(s, lines[0]);
      if GroupedSoFar(s) {
        ReadLineGroups(s, lines[0]);
      }
      ReadAllSound(next, lines[1..]);
      ExtendsOn(s, next, ReadAll(next, lines[1..]).value);
    }
  }

  // ----- locating the block

  datatype Top = Inside | TopKey(key: string, inline: string) | Bad

  function TopOf(line: string): Top {
    if Skipped(line) || line[0] == ' ' || line[0] == '\t' then Inside
    else
      var k := KeyLine(line);
      if k.None? then Bad else TopKey(k.value.0, k.value.1)
  }

  predicate IsRules(line: string) {
    TopOf(line).TopKey? && TopOf(line).key == "rules"
  }

  predicate AMapping(lines: Text) {
    forall i {:trigger TopOf(lines[i])} :: 0 <= i < |lines| ==> !TopOf(lines[i]).Bad?
  }

  function FirstRules(lines: Text, i: nat): (r: nat)
    requires i <= |lines|
    ensures i <= r <= |lines| && (r < |lines| ==> IsRules(lines[r]))
    ensures forall j {:trigger IsRules(lines[j])} :: i <= j < r ==> !IsRules(lines[j])
    decreases |lines| - i
  {
    if i == |lines| || IsRules(lines[i]) then i else FirstRules(lines, i + 1)
  }

  function FirstTop(lines: Text, i: nat): (r: nat)
    requires i <= |lines|
    ensures i <= r <= |lines| && (r < |lines| ==> TopOf(lines[r]).TopKey?)
    ensures forall j {:trigger TopOf(lines[j])} :: i <= j < r ==> !TopOf(lines[j]).TopKey?
    decreases |lines| - i
  {
    if i == |lines| || TopOf(lines[i]).TopKey? then i else FirstTop(lines, i + 1)
  }

  /** The index of the header line and the end of the block. */
  datatype Place = Place(header: nat, end: nat)

  /** The one rules block among the top-level keys, if there is one. */
  function Locate(lines: Text): (r: Outcome<Option<Place>>)
    ensures r.Ok? && r.value.Some? ==> r.value.value.header < r.value.value.end <= |lines|
  {
    if !AMapping(lines) then Refused(NotAMapping)
    else
      var r := FirstRules(lines, 0);
      if r == |lines| then Ok(None)
      else if FirstRules(lines, r + 1) < |lines| then Refused(RulesTwice)
      else if HasContent(TopOf(lines[r]).inline) then Refused(RulesHasValue)
      else Ok(Some(Place(r, FirstTop(lines, r + 1))))
  }

  /** The header's index, the end of the block, and what the block says. */
  datatype Block = Block(header: nat, end: nat, reading: Reading)

  function RulesBlock(lines: Text): Outcome<Option<Block>> {
    var place := Locate(lines);
    if place.Refused? then Refused(place.why)
    else if place.value.None? then Ok(None)
    else
      var r, e := place.value.value.header, place.value.value.end;
      var reading := ReadAll(Start(r + 1), lines[r + 1..e]);
      if reading.Refused? then Refused(reading.why) else Ok(Some(Block(r, e, reading.value)))
  }

  /** `lines` has exactly one rules block, with this header, this end and this reading. */
  predicate HasBlock(lines: Text, b: Block) {
    && b.header < b.end <= |lines|
    && Locate(lines) == Ok(Some(Place(b.header, b.end)))
    && ReadAll(Start(b.header + 1), lines[b.header + 1..b.end]) == Ok(b.reading)
  }

  lemma BlockFound(lines: Text, b: Block)
    ensures RulesBlock(lines) == Ok(Some(b)) <==> HasBlock(lines, b)
  {
  }

  // ----- what a located block is

  /** What line `i` must be for the block at `header`, ending before `end`, to be the only one. */
  predicate LineFits(line: string, i: nat, header: nat, end: nat) {
    var top := TopOf(line);
    && !top.Bad?
    && (i != header && top.TopKey? ==> top.key != "rules")
    && (header < i < end ==> top.Inside?)
  }

  /** `lines` has exactly one rules block, from `header` to before `end`. */
  predicate BlockShape(lines: Text, header: nat, end: nat) {
    && header < end <= |lines|
    && IsRules(lines[header]) && !HasContent(TopOf(lines[header]).inline)
    && (forall i {:trigger LineFits(lines[i], i, header, end)} :: 0 <= i < |lines| ==> LineFits(lines[i], i, header, end))
    && (end < |lines| ==> TopOf(lines[end]).TopKey?)
  }

  lemma LocatedShape(lines: Text, header: nat, end: nat)
    requires Locate(lines) == Ok(Some(Place(header, end)))
    ensures BlockShape(lines, header, end)
  {
    forall i | 0 <= i < |lines|
      ensures LineFits(lines[i], i, header, end)
    {
      assert !TopOf(lines[i]).Bad?;
      assert i != header ==> !IsRules(lines[i]);
    }
  }

  lemma ShapeLocated(lines: Text, header: nat, end: nat)
    requires BlockShape(lines, header, end)
    ensures Locate(lines) == Ok(Some(Place(header, end)))
  {
    forall i | 0 <= i < |lines|
      ensures !TopOf(lines[i]).Bad? && (i != header ==> !IsRules(lines[i])) && (header < i < end ==> !TopOf(lines[i]).TopKey?)
    {
      assert LineFits(lines[i], i, header, end);
    }
    assert FirstRules(lines, 0) == header;
    assert FirstRules(lines, header + 1) == |lines|;
    assert FirstTop(lines, header + 1) == end;
  }
}
