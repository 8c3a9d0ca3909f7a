/** load_candidates: what a run sends to the matcher and the versions it remembers. */
module MatchRetrieval {
  import opened Common

  /** A problem as the matcher sees it; `eligible` says it is open or in progress. */
  datatype Problem = Problem(version: nat, text: string, eligible: bool)

  datatype Report = Report(version: nat, text: string, isNew: bool, problem: Option<Id>)

  /** Everything retrieval reads. `order` lists the reports, most recently created first. */
  datatype Records = Records(problems: map<Id, Problem>, reports: map<Id, Report>, order: seq<Id>)

  datatype Item = Item(id: Id, version: nat, text: string)

  /** One loaded candidate: the request keeps its texts, the snapshot its versions. */
  datatype Loaded = Loaded(problem: Item, linked: seq<Item>)

  datatype Candidate = Candidate(id: Id, version: nat, text: string, linked: seq<(Id, string)>)
  datatype Seen = Seen(id: Id, version: nat, linked: seq<(Id, nat)>)
  type Snapshot = seq<Seen>

  function CandidateOf(l: Loaded): Candidate {
    Candidate(l.problem.id, l.problem.version, l.problem.text,
              seq(|l.linked|, i requires 0 <= i < |l.linked| => (l.linked[i].id, l.linked[i].text)))
  }

  function SeenOf(l: Loaded): Seen {
    Seen(l.problem.id, l.problem.version,
         seq(|l.linked|, i requires 0 <= i < |l.linked| => (l.linked[i].id, l.linked[i].version)))
  }

  function Candidates(loaded: seq<Loaded>): (r: seq<Candidate>)
    ensures |r| == |loaded|
  {
    seq(|loaded|, i requires 0 <= i < |loaded| => CandidateOf(loaded[i]))
  }

  function SnapshotOf(loaded: seq<Loaded>): (r: Snapshot)
    ensures |r| == |loaded|
  {
    seq(|loaded|, i requires 0 <= i < |loaded| => SeenOf(loaded[i]))
  }

  // ----- reading

  predicate Distinct(ids: seq<Id>) {
    forall i, j :: 0 <= i < j < |ids| ==> ids[i] != ids[j]
  }

  /** Every id is an eligible problem, once. */
  predicate AllEligible(r: Records, ids: seq<Id>) {
    Distinct(ids) && forall i :: 0 <= i < |ids| ==> ids[i] in r.problems && r.problems[ids[i]].eligible
  }

  function ProblemItem(r: Records, id: Id): Item
    requires id in r.problems
  {
    Item(id, r.problems[id].version, r.problems[id].text)
  }

  /** The problem's reports in order, up to the cap. */
  function Linked(r: Records, order: seq<Id>, id: Id, cap: nat): (s: seq<Item>)
    ensures |s| <= cap
    ensures forall x :: x in s ==> x.id in r.reports && x == Item(x.id, r.reports[x.id].version, r.reports[x.id].text)
                                   && r.reports[x.id].problem == Some(id)
  {
    if order == [] || cap == 0 then []
    else if order[0] in r.reports && r.reports[order[0]].problem == Some(id)
    then [Item(order[0], r.reports[order[0]].version, r.reports[order[0]].text)] + Linked(r, order[1..], id, cap - 1)
    else Linked(r, order[1..], id, cap)
  }

  /** The first query: the problems, or nothing when one is gone or no longer eligible. */
  function LoadProblems(r: Records, ids: seq<Id>): Option<seq<Item>> {
    if AllEligible(r, ids) then Some(seq(|ids|, i requires 0 <= i < |ids| => ProblemItem(r, ids[i]))) else None
  }

  /** The second query: each problem with its linked reports. */
  function LoadReports(r: Records, problems: seq<Item>, cap: nat): (s: seq<Loaded>)
    ensures |s| == |problems| && forall i :: 0 <= i < |s| ==> s[i] == Loaded(problems[i], Linked(r, r.order, problems[i].id, cap))
  {
    seq(|problems|, i requires 0 <= i < |problems| => Loaded(problems[i], Linked(r, r.order, problems[i].id, cap)))
  }

  /** load_candidates at one moment */
  function LoadCandidates(r: Records, ids: seq<Id>, cap: nat): Option<seq<Loaded>> {
    var problems := LoadProblems(r, ids);
    if problems.None? then None else Some(LoadReports(r, problems.value, cap))
  }

  function IdsOf(s: Snapshot): (ids: seq<Id>)
    ensures |ids| == |s| && forall i :: 0 <= i < |s| ==> ids[i] == s[i].id
  {
    seq(|s|, i requires 0 <= i < |s| => s[i].id)
  }

  // ----- what the windowed query promises

  /** `x` stands before `y` in the order, so it was created more recently. */
  ghost predicate Before(order: seq<Id>, x: Id, y: Id) {
    exists a, b :: 0 <= a < b < |order| && order[a] == x && order[b] == y
  }

  predicate Wanted(r: Records, x: Id, id: Id) {
    x in r.reports && r.reports[x].problem == Some(id)
  }

  /** The problem's most recently created reports, most recent first, up to the cap: whatever is
      left out is older than everything that is in, and is left out only for the cap. */
  ghost predicate Newest(r: Records, order: seq<Id>, id: Id, cap: nat, s: seq<Item>) {
    && |s| <= cap
    && (forall i :: 0 <= i < |s| ==>
          s[i].id in order && Wanted(r, s[i].id, id) && s[i] == Item(s[i].id, r.reports[s[i].id].version, r.reports[s[i].id].text))
    && (forall i, j :: 0 <= i < j < |s| ==> Before(order, s[i].id, s[j].id))
    && (forall x :: x in order && Wanted(r, x, id) ==>
          (exists i :: 0 <= i < |s| && s[i].id == x) || (|s| == cap && forall i :: 0 <= i < |s| ==> Before(order, s[i].id, x)))
  }

  lemma BeforeInTail(order: seq<Id>, x: Id, y: Id)
    requires order != [] && Before(order[1..], x, y)
    ensures Before(order, x, y)
  {
    var a, b :| 0 <= a < b < |order[1..]| && order[1..][a] == x && order[1..][b] == y;
    assert order[a + 1] == x && order[b + 1] == y;
  }

  lemma HeadBefore(order: seq<Id>, y: Id)
    requires order != [] && y in order[1..]
    ensures Before(order, order[0], y)
  {
    var b :| 0 <= b < |order[1..]| && order[1..][b] == y;
    assert order[b + 1] == y;
  }

  /** With distinct ids nothing stands before the first, and the rest keeps its order. */
  lemma BeforeSplits(order: seq<Id>, x: Id, y: Id)
    requires Distinct(order) && order != [] && Before(order, x, y)
    ensures y != order[0] && (x != order[0] ==> Before(order[1..], x, y))
  {
    var a, b :| 0 <= a < b < |order| && order[a] == x && order[b] == y;
    if x != order[0] {
      assert order[1..][a - 1] == x && order[1..][b - 1] == y;
    }
  }

  lemma {:induction false} LinkedIsNewest(r: Records, order: seq<Id>, id: Id, cap: nat)
    requires Distinct(order)
    ensures Newest(r, order, id, cap, Linked(r, order, id, cap))
    decreases |order|
  {
    var s := Linked(r, order, id, cap);
    if order != [] && cap > 0 {
      var x, rest := order[0], order[1..];
      assert forall y :: y in order <==> y == x || y in rest;
      var fewer := if Wanted(r, x, id) then cap - 1 else cap;
      var t := Linked(r, rest, id, fewer);
      LinkedIsNewest(r, rest, id, fewer);
      if Wanted(r, x, id) {
        HeadOfNewest(r, order, id, cap, t);
      } else {
        RestOfNewest(r, order, id, cap, t);
      }
    }
  }

  lemma HeadOfNewest(r: Records, order: seq<Id>, id: Id, cap: nat, t: seq<Item>)
    requires order != [] && cap > 0 && Wanted(r, order[0], id) && Newest(r, order[1..], id, cap - 1, t)
    ensures var x := order[0]; Newest(r, order, id, cap, [Item(x, r.reports[x].version, r.reports[x].text)] + t)
  {
    var x, rest := order[0], order[1..];
    var s := [Item(x, r.reports[x].version, r.reports[x].text)] + t;
    assert s[1..] == t && forall i :: 0 < i < |s| ==> s[i] == t[i - 1];
    forall i, j | 0 <= i < j < |s|
      ensures Before(order, s[i].id, s[j].id)
    {
      assert s[j] == t[j - 1] && t[j - 1].id in rest;
      if i == 0 {
        HeadBefore(order, s[j].id);
      } else {
        BeforeInTail(order, t[i - 1].id, t[j - 1].id);
      }
    }
    forall y | y in order && Wanted(r, y, id)
      ensures (exists i :: 0 <= i < |s| && s[i].id == y) || (|s| == cap && forall i :: 0 <= i < |s| ==> Before(order, s[i].id, y))
    {
      if y == x {
        assert s[0].id == y;
      } else {
        assert y in rest;
        if i :| 0 <= i < |t| && t[i].id == y {
          assert s[i + 1].id == y;
        } else {
          forall i | 0 <= i < |s|
            ensures Before(order, s[i].id, y)
          {
            if i == 0 {
              HeadBefore(order, y);
            } else {
              BeforeInTail(order, t[i - 1].id, y);
            }
          }
        }
      }
    }
  }

  lemma RestOfNewest(r: Records, order: seq<Id>, id: Id, cap: nat, t: seq<Item>)
    requires order != [] && !Wanted(r, order[0], id) && Newest(r, order[1..], id, cap, t)
    ensures Newest(r, order, id, cap, t)
  {
    var rest := order[1..];
    forall i, j | 0 <= i < j < |t|
      ensures Before(order, t[i].id, t[j].id)
    {
      BeforeInTail(order, t[i].id, t[j].id);
    }
    forall y | y in order && Wanted(r, y, id)
      ensures (exists i :: 0 <= i < |t| && t[i].id == y) || (|t| == cap && forall i :: 0 <= i < |t| ==> Before(order, t[i].id, y))
    {
      assert y in rest;
      if !exists i :: 0 <= i < |t| && t[i].id == y {
        forall i | 0 <= i < |t|
          ensures Before(order, t[i].id, y)
        {
          BeforeInTail(order, t[i].id, y);
        }
      }
    }
  }

  /** The promise leaves no choice: whatever keeps it is the result. */
  lemma {:induction false} NewestIsLinked(r: Records, order: seq<Id>, id: Id, cap: nat, s: seq<Item>)
    requires Distinct(order) && Newest(r, order, id, cap, s)
    ensures s == Linked(r, order, id, cap)
    decreases |order|
  {
    assert |s| > 0 ==> s[0].id in order;
    if order != [] && cap > 0 && Wanted(r, order[0], id) {
      NewestStarts(r, order, id, cap, s);
      NewestIsLinked(r, order[1..], id, cap - 1, s[1..]);
      assert s == [s[0]] + s[1..];
    } else if order != [] && cap > 0 {
      NewestSkips(r, order, id, cap, s);
      NewestIsLinked(r, order[1..], id, cap, s);
    }
  }

  lemma FirstIsNewest(r: Records, order: seq<Id>, id: Id, cap: nat, s: seq<Item>)
    requires Distinct(order) && order != [] && cap > 0 && Wanted(r, order[0], id) && Newest(r, order, id, cap, s)
    ensures s != [] && s[0].id == order[0]
  {
    var x := order[0];
    assert x in order;
    if !exists i :: 0 <= i < |s| && s[i].id == x {
      BeforeSplits(order, s[0].id, x);
    }
    var k :| 0 <= k < |s| && s[k].id == x;
    if k > 0 {
      BeforeSplits(order, s[0].id, x);
    }
  }

  lemma LaterStayOrdered(order: seq<Id>, s: seq<Item>)
    requires Distinct(order) && order != [] && s != [] && s[0].id == order[0]
    requires forall i, j :: 0 <= i < j < |s| ==> Before(order, s[i].id, s[j].id)
    ensures forall i :: 0 < i < |s| ==> s[i].id != order[0]
    ensures forall i, j :: 0 < i < j < |s| ==> Before(order[1..], s[i].id, s[j].id)
  {
    forall i | 0 < i < |s|
      ensures s[i].id != order[0]
    {
      BeforeSplits(order, s[0].id, s[i].id);
    }
    forall i, j | 0 < i < j < |s|
      ensures Before(order[1..], s[i].id, s[j].id)
    {
      BeforeSplits(order, s[i].id, s[j].id);
    }
  }

  lemma LeftOutIsOlder(r: Records, order: seq<Id>, id: Id, cap: nat, s: seq<Item>, y: Id)
    requires Distinct(order) && order != [] && Newest(r, order, id, cap, s) && s != [] && s[0].id == order[0]
    requires y in order[1..] && Wanted(r, y, id) && forall i :: 0 < i < |s| ==> s[i].id != y
    ensures |s| == cap && forall i :: 0 < i < |s| ==> Before(order[1..], s[i].id, y)
  {
    assert order == [order[0]] + order[1..] && y in order && y != order[0];
    LaterStayOrdered(order, s);
    assert forall i :: 0 <= i < |s| ==> s[i].id != y;
    forall i | 0 < i < |s|
      ensures Before(order[1..], s[i].id, y)
    {
      BeforeSplits(order, s[i].id, y);
    }
  }

  lemma NewestStarts(r: Records, order: seq<Id>, id: Id, cap: nat, s: seq<Item>)
    requires Distinct(order) && order != [] && cap > 0 && Wanted(r, order[0], id) && Newest(r, order, id, cap, s)
    ensures s != [] && s[0] == Item(order[0], r.reports[order[0]].version, r.reports[order[0]].text)
    ensures Newest(r, order[1..], id, cap - 1, s[1..])
  {
    FirstIsNewest(r, order, id, cap, s);
    LaterStayOrdered(order, s);
    var rest, t := order[1..], s[1..];
    assert order == [order[0]] + rest && forall i :: 0 <= i < |t| ==> t[i] == s[i + 1];
    forall y | y in rest && Wanted(r, y, id)
      ensures (exists i :: 0 <= i < |t| && t[i].id == y) || (|t| == cap - 1 && forall i :: 0 <= i < |t| ==> Before(rest, t[i].id, y))
    {
      if i :| 0 < i < |s| && s[i].id == y {
        assert t[i - 1].id == y;
      } else {
        LeftOutIsOlder(r, order, id, cap, s, y);
      }
    }
  }

  lemma NewestSkips(r: Records, order: seq<Id>, id: Id, cap: nat, s: seq<Item>)
    requires Distinct(order) && order != [] && !Wanted(r, order[0], id) && Newest(r, order, id, cap, s)
    ensures Newest(r, order[1..], id, cap, s)
  {
    var rest := order[1..];
    assert order == [order[0]] + rest;
    forall i, j | 0 <= i < j < |s|
      ensures Before(rest, s[i].id, s[j].id)
    {
      BeforeSplits(order, s[i].id, s[j].id);
    }
    forall y | y in rest && Wanted(r, y, id)
      ensures (exists i :: 0 <= i < |s| && s[i].id == y) || (|s| == cap && forall i :: 0 <= i < |s| ==> Before(rest, s[i].id, y))
    {
      assert y in order;
      if !exists i :: 0 <= i < |s| && s[i].id == y {
        forall i | 0 <= i < |s|
          ensures Before(rest, s[i].id, y)
        {
          BeforeSplits(order, s[i].id, y);
        }
      }
    }
  }

  /** load_candidates at one moment: nothing unless every id is an eligible problem, once; else
      each problem as it is, in the given order, with its newest linked reports. */
  lemma LoadExactly(r: Records, ids: seq<Id>, cap: nat)
    requires Distinct(r.order)
    ensures var loaded := LoadCandidates(r, ids, cap);
            && (loaded.Some? <==>
                  && (forall i, j :: 0 <= i < j < |ids| ==> ids[i] != ids[j])
                  && forall i :: 0 <= i < |ids| ==> ids[i] in r.problems && r.problems[ids[i]].eligible)
            && (loaded.Some? ==> |loaded.value| == |ids| && forall i :: 0 <= i < |ids| ==>
                  && loaded.value[i].problem == Item(ids[i], r.problems[ids[i]].version, r.problems[ids[i]].text)
                  && Newest(r, r.order, ids[i], cap, loaded.value[i].linked))
  {
    forall i | 0 <= i < |ids|
      ensures Newest(r, r.order, ids[i], cap, Linked(r, r.order, ids[i], cap))
    {
      LinkedIsNewest(r, r.order, ids[i], cap);
    }
  }

  /** What the request and the snapshot take of a loaded candidate. */
  lemma SplitExactly(loaded: seq<Loaded>, i: nat)
    requires i < |loaded|
    ensures var l, c, s := loaded[i], Candidates(loaded)[i], SnapshotOf(loaded)[i];
            && c.id == s.id == l.problem.id && c.version == s.version == l.problem.version && c.text == l.problem.text
            && |c.linked| == |s.linked| == |l.linked|
            && forall j :: 0 <= j < |l.linked| ==>
                 c.linked[j] == (l.linked[j].id, l.linked[j].text) && s.linked[j] == (l.linked[j].id, l.linked[j].version)
  {
  }

  // ----- versions as fingerprints

  /** The text that each version of each record has had. */
  datatype History = History(problems: map<(Id, nat), string>, reports: map<(Id, nat), string>)

  predicate Faithful(h: History, l: Loaded) {
    && (l.problem.id, l.problem.version) in h.problems
    && h.problems[(l.problem.id, l.problem.version)] == l.problem.text
    && forall i :: 0 <= i < |l.linked| ==>
         (l.linked[i].id, l.linked[i].version) in h.reports && h.reports[(l.linked[i].id, l.linked[i].version)] == l.linked[i].text
  }

  /** Two readings with the same versions have the same text, whenever each was made. */
  lemma SameVersionsSameText(h: History, a: Loaded, b: Loaded)
    requires Faithful(h, a) && Faithful(h, b) && SeenOf(a) == SeenOf(b)
    ensures a == b
  {
    assert |SeenOf(a).linked| == |a.linked| && |SeenOf(b).linked| == |b.linked|;
    forall i | 0 <= i < |a.linked|
      ensures a.linked[i] == b.linked[i]
    {
      assert SeenOf(a).linked[i] == (a.linked[i].id, a.linked[i].version);
      assert SeenOf(b).linked[i] == (b.linked[i].id, b.linked[i].version);
    }
    assert a.linked == b.linked;
  }

  lemma SameSnapshotSameRequest(h: History, a: seq<Loaded>, b: seq<Loaded>)
    requires forall i :: 0 <= i < |a| ==> Faithful(h, a[i])
    requires forall i :: 0 <= i < |b| ==> Faithful(h, b[i])
    requires SnapshotOf(a) == SnapshotOf(b)
    ensures Candidates(a) == Candidates(b)
  {
    assert |SnapshotOf(a)| == |a| && |SnapshotOf(b)| == |b|;
    forall i | 0 <= i < |a|
      ensures a[i] == b[i]
    {
      assert SnapshotOf(a)[i] == SeenOf(a[i]) && SnapshotOf(b)[i] == SeenOf(b[i]);
      SameVersionsSameText(h, a[i], b[i]);
    }
    assert a == b;
  }

  // ----- the loops of load_candidates

  /** The rows of one problem, in the order the query returns them. */
  function RowsOf(rows: seq<(Id, Item)>, id: Id): seq<Item> {
    if rows == [] then []
    else
      var n := |rows| - 1;
      if rows[n].0 == id then RowsOf(rows[..n], id) + [rows[n].1] else RowsOf(rows[..n], id)
  }

  /** The windowed query gives each wanted problem its newest linked reports, up to the cap. */
  ghost predicate QueryResult(r: Records, ids: seq<Id>, cap: nat, rows: seq<(Id, Item)>) {
    && Distinct(r.order) && (forall i :: 0 <= i < |rows| ==> rows[i].0 in ids)
    && forall i :: 0 <= i < |ids| ==> Newest(r, r.order, ids[i], cap, RowsOf(rows, ids[i]))
  }

  /** Each row of the query goes to the end of its problem's list. */
  method FileRows(ids: seq<Id>, rows: seq<(Id, Item)>) returns (filed: map<Id, seq<Item>>)
    requires forall i :: 0 <= i < |rows| ==> rows[i].0 in ids
    ensures forall id :: id in ids ==> id in filed && filed[id] == RowsOf(rows, id)
  {
    filed := map id | id in ids :: [];
    var k := 0;
    while k < |rows|
      invariant k <= |rows| && forall id :: id in ids ==> id in filed && filed[id] == RowsOf(rows[..k], id)
    {
      assert rows[..k + 1][..k] == rows[..k];
      var (id, item) := rows[k];
      filed := filed[id := filed[id] + [item]];
      k := k + 1;
    }
    assert rows[..k] == rows;
  }

  /** The candidates of the request and the snapshot of their versions, side by side. */
  method Split(loaded: seq<Loaded>) returns (candidates: seq<Candidate>, snapshot: Snapshot)
    ensures candidates == Candidates(loaded) && snapshot == SnapshotOf(loaded)
  {
    candidates, snapshot := [], [];
    for k := 0 to |loaded|
      invariant |candidates| == k && |snapshot| == k
      invariant forall i :: 0 <= i < k ==> candidates[i] == CandidateOf(loaded[i]) && snapshot[i] == SeenOf(loaded[i])
    {
      candidates := candidates + [CandidateOf(loaded[k])];
      snapshot := snapshot + [SeenOf(loaded[k])];
    }
  }

  method Build(r: Records, ids: seq<Id>, cap: nat, rows: seq<(Id, Item)>) returns (result: Option<(seq<Candidate>, Snapshot)>)
    requires QueryResult(r, ids, cap, rows)
    ensures var loaded := LoadCandidates(r, ids, cap);
            result == if loaded.None? then None else Some((Candidates(loaded.value), SnapshotOf(loaded.value)))
  {
    if !AllEligible(r, ids) {
      return None;
    }
    var filed := FileRows(ids, rows);
    var loaded: seq<Loaded> := [];
    for k := 0 to |ids|
      invariant |loaded| == k
      invariant forall i :: 0 <= i < k ==> loaded[i] == Loaded(ProblemItem(r, ids[i]), Linked(r, r.order, ids[i], cap))
    {
      NewestIsLinked(r, r.order, ids[k], cap, filed[ids[k]]);
      loaded := loaded + [Loaded(ProblemItem(r, ids[k]), filed[ids[k]])];
    }
    var candidates, snapshot := Split(loaded);
    assert loaded == LoadCandidates(r, ids, cap).value;
    return Some((candidates, snapshot));
  }
}
