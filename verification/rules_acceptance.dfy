/** Which texts the merge accepts, and what a rules block says, stated over its lines alone. */
module RulesAcceptance {
  import opened Common
  import opened PythonStrings
  import opened RulesLines
  import opened RulesBlocks
  import opened RulesInstalls

  // ----- single lines

  lemma SpaceExactly(c: char)
    ensures IsSpace(c) <==> 9 <= c as int <= 13 || 28 <= c as int <= 32 || c as int in {133, 160, 5760}
                            || 8192 <= c as int <= 8202 || c as int in {8232, 8233, 8239, 8287, 12288}
  {
  }

  /** A key starts with a letter or an underscore and goes on with digits, points and hyphens too. */
  lemma KeyCharsExactly(c: char)
    ensures KeyStart(c) <==> 65 <= c as int <= 90 || 97 <= c as int <= 122 || c as int == 95
    ensures KeyChar(c) <==> KeyStart(c) || 48 <= c as int <= 57 || c as int == 46 || c as int == 45
  {
  }

  /** Only space stands before a comment's hash sign. */
  lemma {:induction false} CommentExactly(s: string)
    ensures IsComment(s) <==> exists i :: 0 <= i < |s| && s[i] == '#' && forall j :: 0 <= j < i ==> IsSpace(s[j])
    decreases |s|
  {
    if s != "" && s[0] != '#' {
      var t := s[1..];
      CommentExactly(t);
      if i :| 0 <= i < |t| && t[i] == '#' && forall j :: 0 <= j < i ==> IsSpace(t[j]) {
        assert s[i + 1] == '#';
        forall j | 0 <= j < i + 1
          ensures IsSpace(s[0]) ==> IsSpace(s[j])
        {
          assert j > 0 ==> s[j] == t[j - 1];
        }
      }
      if i :| 0 <= i < |s| && s[i] == '#' && forall j :: 0 <= j < i ==> IsSpace(s[j]) {
        assert t[i - 1] == '#' && forall j :: 0 <= j < i - 1 ==> t[j] == s[j + 1];
      }
    }
  }

  lemma KeyLineExactly(s: string, k: string, rest: string)
    ensures KeyLine(s) == Some((k, rest)) <==> ValidKey(k) && s == k + ":" + rest
  {
    if ValidKey(k) && s == k + ":" + rest {
      KeyLineReads(k, rest);
    }
  }

  lemma ChildKeyExactly(line: string, k: string, rest: string)
    ensures ChildKey(line) == Some((k, rest)) <==> ValidKey(k) && line == "  " + (k + ":" + rest)
  {
    if |line| >= 2 {
      KeyLineExactly(line[2..], k, rest);
      assert line == line[..2] + line[2..];
    }
    if line == "  " + (k + ":" + rest) {
      assert line[..2] == "  " && line[2..] == k + ":" + rest;
    }
  }

  lemma EntryTextExactly(line: string, rest: string)
    ensures line == "    - " + rest ==> EntryText(line) == Some(Rstrip(rest))
    ensures EntryText(line).Some? ==> |line| >= 6 && line == "    - " + line[6..]
  {
    if line == "    - " + rest {
      assert line[..6] == "    - " && line[6..] == rest;
    }
    if EntryText(line).Some? {
      assert line == line[..6] + line[6..];
    }
  }

  // ----- the lines of a block

  /** A line that gives a rule key. */
  predicate Keyed(line: string) {
    !Skipped(line) && ChildKey(line).Some?
  }

  predicate KeyedAs(line: string, k: string) {
    Keyed(line) && ChildKey(line).value.0 == k
  }

  /** What is wrong with line `i`, given the lines before it. */
  ghost function Fault(lines: Text, i: nat): Option<Refusal>
    requires i < |lines|
  {
    if Skipped(lines[i]) then None
    else if ChildKey(lines[i]).Some? then
      if HasContent(ChildKey(lines[i]).value.1) then Some(NotAList)
      else if exists j :: 0 <= j < i && KeyedAs(lines[j], ChildKey(lines[i]).value.0) then Some(KeyTwice)
      else None
    else if forall j :: 0 <= j < i ==> !Keyed(lines[j]) then Some(EntryBeforeKey)
    else if EntryText(lines[i]).None? then Some(UnexpectedLine)
    else None
  }

  ghost predicate Faultless(lines: Text) {
    forall i :: 0 <= i < |lines| ==> Fault(lines, i).None?
  }

  /** Every key line is blank behind its key and gives a new key; every other line that is not
      skipped is an entry and stands below some key line. */
  ghost predicate Readable(lines: Text) {
    && (forall i :: 0 <= i < |lines| && Keyed(lines[i]) ==> !HasContent(ChildKey(lines[i]).value.1))
    && (forall i, j :: 0 <= j < i < |lines| && Keyed(lines[i]) && Keyed(lines[j]) ==>
          ChildKey(lines[i]).value.0 != ChildKey(lines[j]).value.0)
    && (forall i :: 0 <= i < |lines| && !Skipped(lines[i]) && !Keyed(lines[i]) ==>
          EntryText(lines[i]).Some? && exists j :: 0 <= j < i && Keyed(lines[j]))
  }

  lemma FaultlessExactly(lines: Text)
    ensures Faultless(lines) <==> Readable(lines)
  {
    if Faultless(lines) {
      forall i, j | 0 <= j < i < |lines| && Keyed(lines[i]) && Keyed(lines[j])
        ensures ChildKey(lines[i]).value.0 != ChildKey(lines[j]).value.0
      {
        assert Fault(lines, i).None?;
        assert !KeyedAs(lines[j], ChildKey(lines[i]).value.0);
      }
      forall i | 0 <= i < |lines| && !Skipped(lines[i])
        ensures Keyed(lines[i]) ==> !HasContent(ChildKey(lines[i]).value.1)
        ensures !Keyed(lines[i]) ==> EntryText(lines[i]).Some? && exists j :: 0 <= j < i && Keyed(lines[j])
      {
        assert Fault(lines, i).None?;
      }
    }
  }

  /** The key that the lines so far leave current. */
  function LastKey(lines: Text): Option<string> {
    if lines == [] then None
    else
      var n := |lines| - 1;
      if Keyed(lines[n]) then Some(ChildKey(lines[n]).value.0) else LastKey(lines[..n])
  }

  /** What the lines say: each entry under the key above it. */
  function Said(lines: Text): seq<Pair> {
    if lines == [] then []
    else
      var n := |lines| - 1;
      var before := Said(lines[..n]);
      if Skipped(lines[n]) || Keyed(lines[n]) || EntryText(lines[n]).None? || LastKey(lines[..n]).None? then before
      else before + [(LastKey(lines[..n]).value, EntryText(lines[n]).value)]
  }

  /** Line `i` is the key line of `k` or one of its entries. */
  predicate Under(lines: Text, i: nat, k: string)
    requires i < |lines|
  {
    !Skipped(lines[i]) && LastKey(lines[..i + 1]) == Some(k)
  }

  /** No later line is under `k`. */
  predicate LastUnder(lines: Text, i: nat, k: string) {
    i < |lines| && Under(lines, i, k) && forall j :: i < j < |lines| ==> !Under(lines, j, k)
  }

  /** Line number `n`, counted from `at`, is the last one under `k`. */
  predicate DatedAt(lines: Text, at: nat, n: nat, k: string) {
    at <= n && LastUnder(lines, n - at, k)
  }

  predicate Dates(last: map<string, nat>, at: nat, lines: Text) {
    forall k :: k in last ==> DatedAt(lines, at, last[k], k)
  }

  /** The reading after the lines: what they say, the current key, and each key's last line. */
  ghost predicate Knows(s: Reading, at: nat, lines: Text) {
    && s.at == at + |lines| && s.pairs == Said(lines) && s.child == LastKey(lines)
    && (forall k :: k in s.last <==> exists j :: 0 <= j < |lines| && KeyedAs(lines[j], k))
    && Dates(s.last, at, lines)
    && (s.child.Some? <==> exists j :: 0 <= j < |lines| && Keyed(lines[j]))
  }

  lemma OneLine(s: Reading, line: string)
    ensures ReadAll(s, [line]) == ReadLine(s, line)
  {
    var next := ReadLine(s, line);
    assert [line][1..] == [];
    assert next.Ok? ==> ReadAll(next.value, []) == next;
  }

  lemma KeyLineFaults(s: Reading, init: Text, line: string)
    requires Keyed(line)
    requires ChildKey(line).value.0 in s.last <==> exists j :: 0 <= j < |init| && KeyedAs(init[j], ChildKey(line).value.0)
    ensures var fault := Fault(init + [line], |init|);
            && (fault.Some? ==> ReadLine(s, line) == Refused(fault.value))
            && (fault.None? ==> ReadLine(s, line).Ok?)
  {
    var lines, k := init + [line], ChildKey(line).value.0;
    assert lines[|init|] == line && forall j :: 0 <= j < |init| ==> lines[j] == init[j];
    if j :| 0 <= j < |init| && KeyedAs(init[j], k) {
      assert KeyedAs(lines[j], k);
    }
  }

  lemma OtherLineFaults(s: Reading, at: nat, init: Text, line: string)
    requires Knows(s, at, init) && !Keyed(line)
    ensures var fault := Fault(init + [line], |init|);
            && (fault.Some? ==> ReadLine(s, line) == Refused(fault.value))
            && (fault.None? ==> ReadLine(s, line).Ok?)
  {
    var lines := init + [line];
    assert forall j :: 0 <= j < |init| ==> lines[j] == init[j];
    if s.child.Some? {
      var j :| 0 <= j < |init| && Keyed(init[j]);
      assert Keyed(lines[j]);
    }
  }

  /** One more line is read exactly when it is not at fault. */
  lemma LineExactly(s: Reading, at: nat, init: Text, line: string)
    requires Knows(s, at, init)
    ensures var fault := Fault(init + [line], |init|);
            && (fault.Some? ==> ReadLine(s, line) == Refused(fault.value))
            && (fault.None? ==> ReadLine(s, line).Ok?)
  {
    if Keyed(line) {
      KeyLineFaults(s, init, line);
    } else {
      OtherLineFaults(s, at, init, line);
    }
  }

  lemma UnderStays(init: Text, line: string, i: nat, k: string)
    requires i < |init|
    ensures Under(init + [line], i, k) <==> Under(init, i, k)
  {
    assert (init + [line])[..i + 1] == init[..i + 1];
  }

  lemma KnowsLast(s: Reading, at: nat, init: Text, line: string)
    requires Knows(s, at, init) && Fault(init + [line], |init|).None?
    ensures ReadLine(s, line).Ok?
    ensures var lines, t := init + [line], ReadLine(s, line).value;
            && (forall k :: k in t.last <==> exists j :: 0 <= j < |lines| && KeyedAs(lines[j], k))
            && (t.child.Some? <==> exists j :: 0 <= j < |lines| && Keyed(lines[j]))
  {
    var lines := init + [line];
    LineExactly(s, at, init, line);
    var t := ReadLine(s, line).value;
    assert forall j :: 0 <= j < |init| ==> lines[j] == init[j];
    forall k
      ensures k in t.last <==> exists j :: 0 <= j < |lines| && KeyedAs(lines[j], k)
    {
      if j :| 0 <= j < |init| && KeyedAs(init[j], k) {
        assert KeyedAs(lines[j], k);
      }
      if KeyedAs(line, k) {
        assert KeyedAs(lines[|init|], k);
      }
      if s.child == Some(k) {
        ChildIsKeyed(init, k);
      }
    }
    if j :| 0 <= j < |init| && Keyed(init[j]) {
      assert Keyed(lines[j]);
    }
    if Keyed(line) {
      assert Keyed(lines[|init|]);
    }
  }

  lemma {:induction false} ChildIsKeyed(lines: Text, k: string)
    requires LastKey(lines) == Some(k)
    ensures exists j :: 0 <= j < |lines| && KeyedAs(lines[j], k)
    decreases |lines|
  {
    var n := |lines| - 1;
    if Keyed(lines[n]) {
      assert KeyedAs(lines[n], k);
    } else {
      ChildIsKeyed(lines[..n], k);
      var j :| 0 <= j < |lines[..n]| && KeyedAs(lines[..n][j], k);
      assert KeyedAs(lines[j], k);
    }
  }

  lemma DatedStays(init: Text, line: string, at: nat, n: nat, k: string)
    requires DatedAt(init, at, n, k) && (Skipped(line) || LastKey(init + [line]) != Some(k))
    ensures DatedAt(init + [line], at, n, k)
  {
    var lines := init + [line];
    assert lines[..|init| + 1] == lines && lines[|init|] == line;
    forall j | 0 <= j < |init|
      ensures Under(lines, j, k) <==> Under(init, j, k)
    {
      UnderStays(init, line, j, k);
      assert lines[j] == init[j];
    }
  }

  lemma LastUnderNow(lines: Text, i: nat, k: string)
    requires |lines| == i + 1 && !Skipped(lines[i]) && LastKey(lines) == Some(k)
    ensures LastUnder(lines, i, k)
  {
    var whole := lines[..i + 1];
    assert whole == lines;
  }

  lemma DatedNow(init: Text, line: string, at: nat, n: nat, k: string)
    requires !Skipped(line) && LastKey(init + [line]) == Some(k) && n == at + |init|
    ensures DatedAt(init + [line], at, n, k)
  {
    var lines := init + [line];
    assert lines[n - at] == line;
    LastUnderNow(lines, n - at, k);
  }

  /** The line leaves this key current and dates it, and it alone. */
  lemma LineDates(s: Reading, line: string, current: Option<string>)
    requires ReadLine(s, line).Ok? && s.child == current
    ensures var t := ReadLine(s, line).value;
            && t.at == s.at + 1 && t.child == (if Keyed(line) then Some(ChildKey(line).value.0) else current)
            && t.last == if Skipped(line) then s.last else s.last[t.child.value := s.at]
  {
  }

  lemma KnowsDates(s: Reading, at: nat, init: Text, line: string)
    requires Dates(s.last, at, init) && s.child == LastKey(init) && s.at == at + |init| && ReadLine(s, line).Ok?
    ensures Dates(ReadLine(s, line).value.last, at, init + [line])
  {
    var t, lines := ReadLine(s, line).value, init + [line];
    LineDates(s, line, LastKey(init));
    CurrentOn(init, line);
    assert t.child == LastKey(lines);
    forall k | k in t.last
      ensures DatedAt(lines, at, t.last[k], k)
    {
      if !Skipped(line) && t.child == Some(k) {
        DatedNow(init, line, at, s.at, k);
      } else {
        DatedStays(init, line, at, s.last[k], k);
      }
    }
  }

  lemma CurrentOn(init: Text, line: string)
    ensures LastKey(init + [line]) == if Keyed(line) then Some(ChildKey(line).value.0) else LastKey(init)
  {
    assert (init + [line])[..|init|] == init;
  }

  lemma SaidOn(init: Text, line: string)
    ensures Said(init + [line])
            == if Skipped(line) || Keyed(line) || EntryText(line).None? || LastKey(init).None? then Said(init)
               else Said(init) + [(LastKey(init).value, EntryText(line).value)]
  {
    assert (init + [line])[..|init|] == init;
  }

  lemma KnowsOn(s: Reading, at: nat, init: Text, line: string)
    requires Knows(s, at, init) && Fault(init + [line], |init|).None?
    ensures ReadLine(s, line).Ok? && Knows(ReadLine(s, line).value, at, init + [line])
  {
    KnowsLast(s, at, init, line);
    KnowsDates(s, at, init, line);
    CurrentOn(init, line);
    SaidOn(init, line);
    LineDates(s, line, LastKey(init));
  }

  lemma FaultStays(init: Text, line: string, i: nat)
    requires i < |init|
    ensures Fault(init + [line], i) == Fault(init, i)
  {
    assert forall j :: 0 <= j < |init| ==> (init + [line])[j] == init[j];
  }

  /** The lines are read exactly when none is at fault, and then the reading knows them; else the
      first line at fault gives the refusal. */
  lemma {:induction false} ReadExactly(at: nat, lines: Text)
    ensures Faultless(lines) <==> ReadAll(Start(at), lines).Ok?
    ensures Faultless(lines) ==> Knows(ReadAll(Start(at), lines).value, at, lines)
    ensures forall i :: 0 <= i < |lines| && Faultless(lines[..i]) && Fault(lines, i).Some? ==>
              ReadAll(Start(at), lines) == Refused(Fault(lines, i).value)
    decreases |lines|
  {
    if lines != [] {
      var n := |lines| - 1;
      var init, line := lines[..n], lines[n];
      assert lines == init + [line];
      ReadExactly(at, init);
      ReadConcat(Start(at), init, [line]);
      forall i | 0 <= i < n
        ensures Fault(lines, i) == Fault(init, i) && lines[..i] == init[..i]
      {
        FaultStays(init, line, i);
      }
      if Faultless(init) {
        var s := ReadAll(Start(at), init).value;
        OneLine(s, line);
        LineExactly(s, at, init, line);
        if Fault(lines, n).None? {
          KnowsOn(s, at, init, line);
        }
      }
    }
  }

  /** A block is accepted exactly when its lines are readable, and its pairs are what they say. */
  lemma AcceptedExactly(at: nat, lines: Text)
    ensures ReadAll(Start(at), lines).Ok? <==> Readable(lines)
    ensures Readable(lines) ==> Knows(ReadAll(Start(at), lines).value, at, lines)
  {
    ReadExactly(at, lines);
    FaultlessExactly(lines);
  }

  // ----- whole texts

  /** Neither skipped nor indented. */
  predicate TopLevel(line: string) {
    !Skipped(line) && line[0] != ' ' && line[0] != '\t'
  }

  predicate RulesLine(line: string) {
    TopLevel(line) && KeyLine(line).Some? && KeyLine(line).value.0 == "rules"
  }

  /** The lines from `i + 1` to before `e` are those under line `i`. */
  predicate EndsBlock(lines: Text, i: nat, e: nat) {
    && i < e <= |lines| && (e < |lines| ==> TopLevel(lines[e]))
    && forall k :: i < k < e ==> !TopLevel(lines[k])
  }

  /** A mapping at the top level, with at most one rules line, which is blank behind its key and
      has readable lines under it. */
  ghost predicate WellFormed(lines: Text) {
    && (forall i :: 0 <= i < |lines| && TopLevel(lines[i]) ==> KeyLine(lines[i]).Some?)
    && (forall i, j :: 0 <= i < j < |lines| ==> !(RulesLine(lines[i]) && RulesLine(lines[j])))
    && (forall i :: 0 <= i < |lines| && RulesLine(lines[i]) ==> !HasContent(KeyLine(lines[i]).value.1))
    && (forall i: nat, e: nat :: i < |lines| && RulesLine(lines[i]) && EndsBlock(lines, i, e) ==> Readable(lines[i + 1..e]))
  }

  lemma TopOfExactly(line: string)
    ensures TopOf(line).Inside? <==> !TopLevel(line)
    ensures TopOf(line).Bad? <==> TopLevel(line) && KeyLine(line).None?
    ensures TopOf(line).TopKey? ==> KeyLine(line) == Some((TopOf(line).key, TopOf(line).inline))
    ensures IsRules(line) <==> RulesLine(line)
  {
  }

  lemma MappingExactly(lines: Text)
    ensures AMapping(lines) <==> forall i :: 0 <= i < |lines| && TopLevel(lines[i]) ==> KeyLine(lines[i]).Some?
  {
    forall i | 0 <= i < |lines|
      ensures TopOf(lines[i]).Bad? <==> TopLevel(lines[i]) && KeyLine(lines[i]).None?
    {
      TopOfExactly(lines[i]);
    }
  }

  /** The place of the one rules block is what the lines say. */
  lemma PlaceExactly(lines: Text, header: nat, end: nat)
    ensures Locate(lines) == Ok(Some(Place(header, end)))
            <==> && AMapping(lines) && header < |lines| && RulesLine(lines[header]) && !HasContent(KeyLine(lines[header]).value.1)
                 && (forall i :: 0 <= i < |lines| && i != header ==> !RulesLine(lines[i])) && EndsBlock(lines, header, end)
  {
    forall i | 0 <= i < |lines|
      ensures IsRules(lines[i]) <==> RulesLine(lines[i])
      ensures TopOf(lines[i]).Inside? <==> !TopLevel(lines[i])
    {
      TopOfExactly(lines[i]);
    }
    if Locate(lines) == Ok(Some(Place(header, end))) {
      LocatedShape(lines, header, end);
      assert forall i :: 0 <= i < |lines| ==> LineFits(lines[i], i, header, end);
    }
    if AMapping(lines) && header < |lines| && RulesLine(lines[header]) && !HasContent(KeyLine(lines[header]).value.1)
       && (forall i :: 0 <= i < |lines| && i != header ==> !RulesLine(lines[i])) && EndsBlock(lines, header, end)
    {
      forall i | 0 <= i < |lines|
        ensures LineFits(lines[i], i, header, end)
      {
        assert !TopOf(lines[i]).Bad?;
        assert i != header ==> !IsRules(lines[i]);
      }
      ShapeLocated(lines, header, end);
    }
  }

  lemma NoneExactly(lines: Text)
    ensures Locate(lines) == Ok(None) <==> AMapping(lines) && forall i :: 0 <= i < |lines| ==> !RulesLine(lines[i])
  {
    forall i | 0 <= i < |lines|
      ensures IsRules(lines[i]) <==> RulesLine(lines[i])
    {
      TopOfExactly(lines[i]);
    }
    var r := FirstRules(lines, 0);
    assert r == |lines| <==> forall i :: 0 <= i < |lines| ==> !IsRules(lines[i]);
  }

  lemma OneEnd(lines: Text, i: nat, d: nat, e: nat)
    requires EndsBlock(lines, i, d) && EndsBlock(lines, i, e)
    ensures d == e
  {
  }

  lemma SomeEnd(lines: Text, i: nat)
    requires i < |lines|
    ensures EndsBlock(lines, i, FirstTop(lines, i + 1)) || !AMapping(lines)
  {
    var e := FirstTop(lines, i + 1);
    if AMapping(lines) {
      forall k | i < k < |lines|
        ensures TopOf(lines[k]).TopKey? <==> TopLevel(lines[k])
      {
        TopOfExactly(lines[k]);
        assert !TopOf(lines[k]).Bad?;
      }
    }
  }

  /** A text is refused exactly when it is not well-formed, and has no block exactly when it is
      well-formed without a rules line. */
  lemma TextExactly(lines: Text)
    ensures RulesBlock(lines).Refused? <==> !WellFormed(lines)
    ensures RulesBlock(lines) == Ok(None) <==> WellFormed(lines) && forall i :: 0 <= i < |lines| ==> !RulesLine(lines[i])
  {
    MappingExactly(lines);
    NoneExactly(lines);
    if header: nat :| header < |lines| && RulesLine(lines[header]) {
      TextWithRules(lines, header);
    }
  }

  lemma TextWithRules(lines: Text, header: nat)
    requires header < |lines| && RulesLine(lines[header])
    ensures RulesBlock(lines).Refused? <==> !WellFormed(lines)
    ensures RulesBlock(lines) != Ok(None)
  {
    var end := FirstTop(lines, header + 1);
    MappingExactly(lines);
    NoneExactly(lines);
    PlaceExactly(lines, header, end);
    SomeEnd(lines, header);
    AcceptedExactly(header + 1, lines[header + 1..end]);
    if Locate(lines) == Ok(Some(Place(header, end))) {
      forall e | EndsBlock(lines, header, e)
        ensures e == end
      {
        OneEnd(lines, header, e, end);
      }
    } else {
      OtherPlace(lines, header, end);
    }
  }

  lemma OtherPlace(lines: Text, header: nat, end: nat)
    requires header < |lines| && RulesLine(lines[header]) && Locate(lines) != Ok(Some(Place(header, end)))
    requires end == FirstTop(lines, header + 1)
    ensures Locate(lines).Refused? && !WellFormed(lines)
  {
    MappingExactly(lines);
    PlaceExactly(lines, header, end);
    SomeEnd(lines, header);
    NoneExactly(lines);
    if Locate(lines).Ok? {
      var p := Locate(lines).value.value;
      PlaceExactly(lines, p.header, p.end);
      OneEnd(lines, header, p.end, end);
    }
  }

  /** The merge refuses exactly when the release or the project's text is not well-formed, or the
      release has no rules line. */
  lemma RefusedExactly(release: Text, local: Option<Text>)
    ensures InstallConfigMerge(release, local).Refused?
            <==> || !WellFormed(release) || (forall i :: 0 <= i < |release| ==> !RulesLine(release[i]))
                 || (local.Some? && !WellFormed(local.value))
  {
    TextExactly(release);
    if local.Some? {
      TextExactly(local.value);
    }
  }
}
