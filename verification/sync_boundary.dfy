/** Where the reconciliation guarantee ends: two clock readings that are equal. A sync that
    claims just before the connection is bound again, at the same instant at which the next run
    starts, counts as a read since the run, though it ran under the earlier binding. */
module SyncBoundary {
  import opened Common
  import opened IssueSync
  import opened SyncInvariants
  import opened SyncTheorems
  import opened SyncPromise

  const READ := Read(0, 0)

  /** An issue is linked, and an event makes a sync claim it. */
  const CLAIMED: seq<Step> := [SetConnected(true), Link(0, 0), Begin(0, 5, 0, true, None)]
  /** The connection is bound again and a run starts, all before the clock moves. */
  const STARTED: seq<Step> := [Rebind(true), StartRun]
  /** The earlier sync finishes, and its issue is the run's only target. */
  const FINISHED: seq<Step> := [Finish(5, Seen, false), Complete(0)]

  const HELD := Row(true, Accessible, 1, 0, Some(5), Some(190), None, 1, Some(0))
  const FETCH := Fetch(0, 1, 0, 0, 2)

  const W3: World := World(0, 3, true, 0, map[0 := Entry(HELD, [2], [], [READ])], map[5 := FETCH], None, None)
  const W5: World := W3.(tick := 5, revision := 1, run := Some(Run(0, 1, map[0 := Target(1, false)])))
  const SYNCED := Row(true, Accessible, 1, 1, None, None, None, 0, Some(0))
  const W7: World := W5.(tick := 7, entries := map[0 := Entry(SYNCED, [2], [Fetched(2)], [READ, READ])],
                         run := Some(Run(0, 1, map[0 := Target(1, true)])), lastReconciled := Some(0))

  lemma Two(w: World, s: seq<Step>)
    requires |s| == 2
    ensures RunSteps(w, s) == Apply(Apply(w, s[0]), s[1])
  {
    assert s[1..][1..] == [] && s[1..][0] == s[1];
    var v := Apply(Apply(w, s[0]), s[1]);
    assert RunSteps(v, []) == v;
  }

  lemma LinkedState()
    ensures Apply(Apply(EMPTY, SetConnected(true)), Link(0, 0))
            == World(0, 2, true, 0, map[0 := Entry(LinkedRow(0), [], [], [READ])], map[], None, None)
  {
    var w := Apply(EMPTY, SetConnected(true));
    assert AddRead(Entry(LinkedRow(0), [], [], []), READ) == Entry(LinkedRow(0), [], [], [READ]);
    assert w.entries == map[];
  }

  lemma ClaimedState()
    ensures Apply(World(0, 2, true, 0, map[0 := Entry(LinkedRow(0), [], [], [READ])], map[], None, None),
                  Begin(0, 5, 0, true, None)) == W3
  {
    var e := Entry(LinkedRow(0), [], [], [READ]);
    assert Padded<nat>([], 1, 2) == [2];
    assert Recorded(e, HELD, 2, Settled) == Entry(HELD, [2], [], [READ]);
    assert BeginRow(e.row, 5, 0, true, None) == (HELD, true);
  }

  lemma StartedState()
    ensures Apply(Apply(W3, Rebind(true)), StartRun) == W5
  {
    var w := Apply(W3, Rebind(true));
    assert AskedEntry(w.entries[0], w.tick) == w.entries[0];
    assert AskedEntries(w) == w.entries;
    assert TargetsOf(w.entries) == map[0 := Target(1, false)];
  }

  lemma FinishedState()
    ensures Apply(Apply(W5, Finish(5, Seen, false)), Complete(0)) == W7
  {
    var e := W5.entries[0];
    assert Padded([], 1, Fetched(2)) == [Fetched(2)];
    assert FinishRow(HELD, 5, 1, 0, Seen, false) == SYNCED;
    var d := Entry(SYNCED, [2], [Fetched(2)], [READ]);
    assert Recorded(e, SYNCED, 5, Fetched(2)) == d;
    assert AddRead(d, READ) == d.(readings := [READ, READ]);
    var v := Apply(W5, Finish(5, Seen, false));
    assert v == W5.(tick := 6, entries := map[0 := Entry(SYNCED, [2], [Fetched(2)], [READ, READ])]);
    assert Marked(W5.run.value, 0, 1) == Run(0, 1, map[0 := Target(1, true)]);
    assert AllDone(v.entries, Run(0, 1, map[0 := Target(1, true)]));
  }

  /** The run: the connection is reconciled under revision 1, yet every reading of its only
      active target ran under revision 0. */
  lemma SameInstantCounts(w: World)
    requires w == RunSteps(EMPTY, CLAIMED + (STARTED + FINISHED))
    ensures w.lastReconciled == Some(0) && w.run.Some? && w.run.value.revision == 1 && 0 in w.run.value.targets
    ensures 0 in w.entries && w.entries[0].row.active
    ensures forall k :: 0 <= k < |w.entries[0].readings| ==> w.entries[0].readings[k].revision == 0
  {
    StepsConcat(EMPTY, CLAIMED, STARTED + FINISHED);
    assert CLAIMED == [SetConnected(true), Link(0, 0)] + [Begin(0, 5, 0, true, None)];
    StepsConcat(EMPTY, [SetConnected(true), Link(0, 0)], [Begin(0, 5, 0, true, None)]);
    Two(EMPTY, [SetConnected(true), Link(0, 0)]);
    LinkedState();
    ClaimedState();
    StepsConcat(W3, STARTED, FINISHED);
    Two(W3, STARTED);
    StartedState();
    Two(W5, FINISHED);
    FinishedState();
  }

  /** With clock readings that differ the guarantee is the full one: a read that started after
      the run ran under exactly the run's revision. */
  lemma LaterReadsMatch(w: World, i: Id, k: nat)
    requires Reachable(w) && w.run.Some? && w.run.value.revision == w.revision
    requires i in w.entries && k < |w.entries[i].readings| && w.entries[i].readings[k].started > w.run.value.startedAt
    ensures w.entries[i].readings[k].revision == w.run.value.revision
  {
    ReachableInv(w);
    assert EntryGood(w, i, w.entries[i]);
  }
}
