/** The precision and coverage frontier of a grid sweep. */
module EvalFrontier {
  import opened Common

  /** A grid point and its two rates; a rate is absent when nothing was counted. */
  datatype Point = Point(grid: Id, precisionRate: Option<real>, coverageRate: Option<real>)

  /** `rate or 0` */
  function OrZero(r: Option<real>): real {
    if r.Some? then r.value else 0.0
  }

  function Precision(p: Point): real {
    OrZero(p.precisionRate)
  }

  function Coverage(p: Point): real {
    OrZero(p.coverageRate)
  }

  /** At least as good on both rates. */
  predicate Covers(a: Point, b: Point) {
    Precision(a) >= Precision(b) && Coverage(a) >= Coverage(b)
  }

  predicate Dominates(a: Point, b: Point) {
    Covers(a, b) && (Precision(a) > Precision(b) || Coverage(a) > Coverage(b))
  }

  // ----- the sort

  /** `(precision, coverage)` of `a` is no smaller, as Python compares tuples. */
  predicate NotBefore(a: Point, b: Point) {
    Precision(a) > Precision(b) || (Precision(a) == Precision(b) && Coverage(a) >= Coverage(b))
  }

  predicate Falling(s: seq<Point>) {
    forall i, j :: 0 <= i < j < |s| ==> NotBefore(s[i], s[j])
  }

  /** `sorted(points, key=key, reverse=True)`, which keeps points with equal keys in order. */
  function SortedDown(points: seq<Point>): seq<Point> {
    if points == [] then [] else Insert(points[0], SortedDown(points[1..]))
  }

  function Insert(x: Point, s: seq<Point>): seq<Point> {
    if s == [] || NotBefore(x, s[0]) then [x] + s else [s[0]] + Insert(x, s[1..])
  }

  lemma {:induction false} InsertFalls(x: Point, s: seq<Point>)
    requires Falling(s)
    ensures Falling(Insert(x, s)) && multiset(Insert(x, s)) == multiset(s) + multiset{x}
    decreases |s|
  {
    if s == [] || NotBefore(x, s[0]) {
    } else {
      InsertFalls(x, s[1..]);
      var rest := Insert(x, s[1..]);
      assert s == [s[0]] + s[1..];
      forall j | 0 <= j < |rest|
        ensures NotBefore(s[0], rest[j])
      {
        assert rest[j] in multiset(rest);
        assert rest[j] in s[1..] || rest[j] == x;
      }
    }
  }

  lemma {:induction false} SortFalls(points: seq<Point>)
    ensures Falling(SortedDown(points)) && multiset(SortedDown(points)) == multiset(points)
    decreases |points|
  {
    if points != [] {
      SortFalls(points[1..]);
      InsertFalls(points[0], SortedDown(points[1..]));
      assert points == [points[0]] + points[1..];
    }
  }

  /** An absent rate counts as zero; one point dominates another when it is at least as good on
      both rates and better on one. */
  lemma DominatesExactly(a: Point, b: Point)
    ensures var pa := match a.precisionRate case Some(x) => x case None => 0.0;
            var pb := match b.precisionRate case Some(x) => x case None => 0.0;
            var ca := match a.coverageRate case Some(x) => x case None => 0.0;
            var cb := match b.coverageRate case Some(x) => x case None => 0.0;
            && Precision(a) == pa && Coverage(a) == ca
            && (Covers(a, b) <==> pa >= pb && ca >= cb)
            && (Dominates(a, b) <==> (pa > pb && ca >= cb) || (pa >= pb && ca > cb))
  {
  }

  // ----- the loop

  predicate StrictFrontier(kept: seq<Point>) {
    forall i, j :: 0 <= i < j < |kept| ==>
      Precision(kept[i]) > Precision(kept[j]) && Coverage(kept[i]) < Coverage(kept[j])
  }

  predicate Reached(kept: seq<Point>, p: Point) {
    exists k {:trigger Covers(kept[k], p)} :: 0 <= k < |kept| && Covers(kept[k], p)
  }

  predicate Undominated(points: seq<Point>, q: Point) {
    forall i {:trigger Dominates(points[i], q)} :: 0 <= i < |points| ==> !Dominates(points[i], q)
  }

  predicate KeptSound(points: seq<Point>, kept: seq<Point>) {
    forall k {:trigger Undominated(points, kept[k])} :: 0 <= k < |kept| ==> kept[k] in points && Undominated(points, kept[k])
  }

  predicate AllReached(points: seq<Point>, kept: seq<Point>) {
    forall i {:trigger Reached(kept, points[i])} :: 0 <= i < |points| ==> Reached(kept, points[i])
  }

  /** `kept` is the Pareto frontier of `points`. */
  predicate IsFrontier(points: seq<Point>, kept: seq<Point>) {
    StrictFrontier(kept) && KeptSound(points, kept) && AllReached(points, kept)
  }

  /** A point that comes later and covers no more than the last kept one changes nothing. */
  lemma Passed(seen: seq<Point>, kept: seq<Point>, x: Point)
    requires Falling(seen + [x]) && IsFrontier(seen, kept) && kept != []
    requires Coverage(x) <= Coverage(kept[|kept| - 1])
    ensures IsFrontier(seen + [x], kept)
  {
    LaterThanKept(seen, kept, x);
    PassedSound(seen, kept, x);
    assert Covers(kept[|kept| - 1], x);
    ReachedSnoc(seen, kept, kept, x);
  }

  lemma PassedSound(seen: seq<Point>, kept: seq<Point>, x: Point)
    requires StrictFrontier(kept) && KeptSound(seen, kept) && kept != [] && Coverage(x) <= Coverage(kept[|kept| - 1])
    requires forall k :: 0 <= k < |kept| ==> NotBefore(kept[k], x)
    ensures KeptSound(seen + [x], kept)
  {
    forall k | 0 <= k < |kept|
      ensures kept[k] in seen + [x] && Undominated(seen + [x], kept[k])
    {
      assert Undominated(seen, kept[k]) && kept[k] in seen;
      assert NotBefore(kept[k], x) && Coverage(x) <= Coverage(kept[|kept| - 1]);
      UndominatedSnoc(seen, x, kept[k]);
    }
  }

  lemma ReachedSnoc(seen: seq<Point>, kept: seq<Point>, more: seq<Point>, x: Point)
    requires AllReached(seen, kept) && kept <= more && Reached(more, x)
    ensures AllReached(seen + [x], more)
  {
    forall i | 0 <= i < |seen + [x]|
      ensures Reached(more, (seen + [x])[i])
    {
      if i < |seen| {
        assert Reached(kept, seen[i]);
        var k :| 0 <= k < |kept| && Covers(kept[k], seen[i]);
        assert more[k] == kept[k];
      }
    }
  }

  lemma UndominatedSnoc(seen: seq<Point>, x: Point, q: Point)
    requires Undominated(seen, q) && !Dominates(x, q)
    ensures Undominated(seen + [x], q)
  {
  }

  lemma LaterThanKept(seen: seq<Point>, kept: seq<Point>, x: Point)
    requires Falling(seen + [x]) && KeptSound(seen, kept)
    ensures forall k :: 0 <= k < |kept| ==> NotBefore(kept[k], x)
  {
    var all := seen + [x];
    forall k | 0 <= k < |kept|
      ensures NotBefore(kept[k], x)
    {
      assert Undominated(seen, kept[k]) && kept[k] in seen;
      var i :| 0 <= i < |seen| && seen[i] == kept[k];
      assert all[i] == kept[k] && all[|seen|] == x;
    }
  }

  /** A point that covers more than everything kept so far extends the frontier. */
  lemma Extended(seen: seq<Point>, kept: seq<Point>, x: Point)
    requires Falling(seen + [x]) && IsFrontier(seen, kept)
    requires kept == [] || Coverage(x) > Coverage(kept[|kept| - 1])
    ensures IsFrontier(seen + [x], kept + [x])
  {
    LaterThanKept(seen, kept, x);
    RisesAbove(kept, x);
    ExtendedSound(seen, kept, x);
    assert Covers((kept + [x])[|kept|], x);
    ReachedSnoc(seen, kept, kept + [x], x);
  }

  lemma ExtendedSound(seen: seq<Point>, kept: seq<Point>, x: Point)
    requires KeptSound(seen, kept) && AllReached(seen, kept)
    requires forall k :: 0 <= k < |kept| ==> NotBefore(kept[k], x) && Coverage(kept[k]) < Coverage(x)
    ensures KeptSound(seen + [x], kept + [x])
  {
    var more := kept + [x];
    NewUndominated(seen, kept, x);
    forall k | 0 <= k < |more|
      ensures more[k] in seen + [x] && Undominated(seen + [x], more[k])
    {
      if k < |kept| {
        assert more[k] == kept[k] && Undominated(seen, kept[k]) && kept[k] in seen;
        UndominatedSnoc(seen, x, kept[k]);
      } else {
        assert (seen + [x])[|seen|] == x;
      }
    }
  }

  lemma RisesAbove(kept: seq<Point>, x: Point)
    requires StrictFrontier(kept) && (kept == [] || Coverage(x) > Coverage(kept[|kept| - 1]))
    requires forall k :: 0 <= k < |kept| ==> NotBefore(kept[k], x)
    ensures StrictFrontier(kept + [x]) && forall k :: 0 <= k < |kept| ==> Coverage(kept[k]) < Coverage(x)
  {
    forall k | 0 <= k < |kept|
      ensures Coverage(kept[k]) < Coverage(x) && Precision(kept[k]) > Precision(x)
    {
      assert NotBefore(kept[k], x);
    }
  }

  lemma NewUndominated(seen: seq<Point>, kept: seq<Point>, x: Point)
    requires AllReached(seen, kept) && forall k :: 0 <= k < |kept| ==> Coverage(kept[k]) < Coverage(x)
    ensures Undominated(seen + [x], x)
  {
    forall i | 0 <= i < |seen|
      ensures !Dominates(seen[i], x)
    {
      assert Reached(kept, seen[i]);
      var k :| 0 <= k < |kept| && Covers(kept[k], seen[i]);
    }
  }

  function NextKept(kept: seq<Point>, x: Point): seq<Point> {
    if kept != [] && Coverage(x) <= Coverage(kept[|kept| - 1]) then kept else kept + [x]
  }

  lemma FrontierStep(points: seq<Point>, sorted: seq<Point>, seen: seq<Point>, i: nat, kept: seq<Point>) returns (more: seq<Point>)
    requires sorted == SortedDown(points) && i < |sorted| && seen == sorted[..i] && IsFrontier(seen, kept)
    ensures more == sorted[..i + 1] && IsFrontier(more, NextKept(kept, sorted[i]))
  {
    more := seen + [sorted[i]];
    FallingPrefix(points, sorted, i);
    if kept != [] && Coverage(sorted[i]) <= Coverage(kept[|kept| - 1]) {
      Passed(seen, kept, sorted[i]);
    } else {
      Extended(seen, kept, sorted[i]);
    }
  }

  lemma FallingPrefix(points: seq<Point>, sorted: seq<Point>, i: nat)
    requires sorted == SortedDown(points) && i < |sorted|
    ensures sorted[..i + 1] == sorted[..i] + [sorted[i]] && Falling(sorted[..i] + [sorted[i]])
  {
    SortFalls(points);
  }

  lemma FrontierDone(points: seq<Point>, sorted: seq<Point>, kept: seq<Point>)
    requires sorted == SortedDown(points) && IsFrontier(sorted, kept)
    ensures IsFrontier(points, kept)
  {
    SortFalls(points);
    SameFrontier(sorted, points, kept);
  }

  /** The loop of sweep returns the frontier: precision strictly falls and coverage strictly
      rises along it, every grid point is covered by a kept one, and none dominates a kept one. */
  method Frontier(points: seq<Point>) returns (kept: seq<Point>)
    ensures IsFrontier(points, kept)
  {
    var sorted := SortedDown(points);
    kept := [];
    ghost var seen: seq<Point> := [];
    var i := 0;
    while i < |sorted|
      invariant i <= |sorted| && seen == sorted[..i] && IsFrontier(seen, kept)
    {
      seen := FrontierStep(points, sorted, seen, i, kept);
      ghost var next := NextKept(kept, sorted[i]);
      if kept != [] && Coverage(sorted[i]) <= Coverage(kept[|kept| - 1]) {
        assert next == kept;
        i := i + 1;
        continue;
      }
      assert next == kept + [sorted[i]];
      kept := kept + [sorted[i]];
      i := i + 1;
    }
    assert seen == sorted;
    FrontierDone(points, sorted, kept);
  }

  /** The order of the points does not matter. */
  lemma SameFrontier(a: seq<Point>, b: seq<Point>, kept: seq<Point>)
    requires multiset(a) == multiset(b) && IsFrontier(a, kept)
    ensures IsFrontier(b, kept)
  {
    forall i | 0 <= i < |b|
      ensures Reached(kept, b[i])
    {
      var j := Elsewhere(b, a, i);
      assert Reached(kept, a[j]);
    }
    forall k | 0 <= k < |kept|
      ensures kept[k] in b && Undominated(b, kept[k])
    {
      assert Undominated(a, kept[k]) && kept[k] in a;
      assert kept[k] in multiset(a);
      SameDominance(a, b, kept[k]);
    }
  }

  lemma Elsewhere(a: seq<Point>, b: seq<Point>, i: nat) returns (j: nat)
    requires multiset(a) == multiset(b) && i < |a|
    ensures j < |b| && b[j] == a[i]
  {
    assert a[i] in multiset(a);
    assert a[i] in b;
    j :| 0 <= j < |b| && b[j] == a[i];
  }

  lemma SameDominance(a: seq<Point>, b: seq<Point>, q: Point)
    requires multiset(a) == multiset(b) && Undominated(a, q)
    ensures Undominated(b, q)
  {
    forall i | 0 <= i < |b|
      ensures !Dominates(b[i], q)
    {
      var j := Elsewhere(b, a, i);
      assert !Dominates(a[j], q);
    }
  }

  /** The scores of the frontier do not depend on the sort: any two frontiers of the same points
      show the same precision and coverage pairs. */
  lemma FrontierUnique(points: seq<Point>, a: seq<Point>, b: seq<Point>, i: nat)
    requires IsFrontier(points, a) && IsFrontier(points, b) && i < |a|
    ensures exists j :: 0 <= j < |b| && Precision(b[j]) == Precision(a[i]) && Coverage(b[j]) == Coverage(a[i])
  {
    assert Undominated(points, a[i]) && a[i] in points;
    var x :| 0 <= x < |points| && points[x] == a[i];
    assert Reached(b, points[x]);
    var j :| 0 <= j < |b| && Covers(b[j], a[i]);
    assert Undominated(points, b[j]) && b[j] in points;
    var y :| 0 <= y < |points| && points[y] == b[j];
    assert !Dominates(points[y], a[i]);
  }
}
