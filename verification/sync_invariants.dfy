/** What holds in every reachable state of the sync machine, and what it means. */
module SyncInvariants {
  import opened Common
  import opened IssueSync

  // ----- one row

  /** Generation `g` (from 0) was completed by a fetch claimed no earlier than its request. */
  predicate Justified(e: Entry, g: nat) {
    g < |e.evidence| && g < |e.asked| && (e.evidence[g].Fetched? ==> e.evidence[g].claimed >= e.asked[g])
  }

  predicate EntryOk(e: Entry) {
    && e.row.completed <= e.row.requested
    && |e.asked| == e.row.requested && |e.evidence| == e.row.completed
    && (forall g :: 0 <= g < e.row.completed ==> Justified(e, g))
    && (e.row.lease.Some? <==> e.row.leaseExpires.Some?) && (e.row.lease.Some? ==> e.row.attempts >= 1)
    && e.readings != [] && e.row.lastSuccess == Some(e.readings[|e.readings| - 1].started)
  }

  lemma {:induction false} PaddedIs<T>(s: seq<T>, n: nat, x: T)
    ensures var p := Padded(s, n, x);
            && s <= p && |p| == (if |s| >= n then |s| else n) && forall i :: |s| <= i < |p| ==> p[i] == x
    decreases n - |s|
  {
    if |s| < n {
      PaddedIs(s + [x], n, x);
    }
  }

  /** A change that keeps both generations growing and completes with fair evidence. */
  lemma RecordedOk(e: Entry, row: Row, tick: nat, how: Evidence)
    requires EntryOk(e) && e.row.requested <= row.requested && e.row.completed <= row.completed <= row.requested
    requires (row.lease.Some? <==> row.leaseExpires.Some?) && (row.lease.Some? ==> row.attempts >= 1)
    requires row.lastSuccess == e.row.lastSuccess
    requires how.Fetched? ==>
               (&& row.requested == e.row.requested
                && forall g :: e.row.completed <= g < row.completed ==> e.asked[g] <= how.claimed)
    ensures EntryOk(Recorded(e, row, tick, how))
    ensures e.asked <= Recorded(e, row, tick, how).asked && e.evidence <= Recorded(e, row, tick, how).evidence
  {
    PaddedIs(e.asked, row.requested, tick);
    PaddedIs(e.evidence, row.completed, how);
    var d := Recorded(e, row, tick, how);
    forall g | 0 <= g < row.completed
      ensures Justified(d, g)
    {
      if g < e.row.completed {
        assert Justified(e, g);
      }
    }
  }

  // ----- fetches and the run

  /** What a fetch knows while it holds its row's lease. */
  predicate HolderOk(e: Entry, f: Fetch) {
    && e.row.completed <= f.target <= e.row.requested && f.target <= |e.asked|
    && (forall g :: 0 <= g < f.target ==> e.asked[g] <= f.claimed)
    && (forall g :: f.target <= g < |e.asked| ==> e.asked[g] > f.claimed)
  }

  predicate FetchOk(w: World, token: Token, f: Fetch) {
    && f.issue in w.entries && f.started <= w.now && f.revision <= w.revision && f.claimed < w.tick
    && (w.entries[f.issue].row.lease == Some(token) ==> HolderOk(w.entries[f.issue], f))
  }

  predicate LeaseKnown(w: World, i: Id) {
    i in w.entries && w.entries[i].row.lease.Some? ==>
      var t := w.entries[i].row.lease.value;
      t in w.fetches && w.fetches[t].issue == i
  }

  /** Something that started after the run did ran under the run's revision or a later one. */
  predicate After(run: Run, started: Time, revision: nat) {
    started > run.startedAt ==> revision >= run.revision
  }

  /** A read by a sync that started no earlier than the run, under the run's binding revision;
      when both started at the same clock reading, possibly an earlier revision. */
  predicate Serves(read: Read, run: Run) {
    read.started >= run.startedAt && read.revision <= run.revision && After(run, read.started, read.revision)
  }

  ghost predicate ReadSince(e: Entry, run: Run) {
    exists k :: 0 <= k < |e.readings| && Serves(e.readings[k], run)
  }

  predicate ReadingsOk(w: World, e: Entry) {
    forall k :: 0 <= k < |e.readings| ==>
      e.readings[k].started <= w.now && e.readings[k].revision <= w.revision
      && (w.run.Some? ==> After(w.run.value, e.readings[k].started, e.readings[k].revision))
  }

  ghost predicate RunOk(w: World) {
    w.run.Some? ==>
      var run := w.run.value;
      && run.startedAt <= w.now && run.revision <= w.revision
      && (forall t :: t in w.fetches ==> After(run, w.fetches[t].started, w.fetches[t].revision))
      && (forall i :: i in run.targets ==> i in w.entries && (run.targets[i].done ==> ReadSince(w.entries[i], run)))
  }

  predicate AskedBefore(e: Entry, tick: nat) {
    forall g :: 0 <= g < |e.asked| ==> e.asked[g] < tick
  }

  predicate EntryGood(w: World, i: Id, e: Entry) {
    EntryOk(e) && ReadingsOk(w, e) && LeaseKnown(w, i) && AskedBefore(e, w.tick)
  }

  ghost predicate EntriesOk(w: World) {
    forall i :: i in w.entries ==> EntryGood(w, i, w.entries[i])
  }

  ghost predicate FetchesOk(w: World) {
    forall t :: t in w.fetches ==> FetchOk(w, t, w.fetches[t])
  }

  ghost predicate Inv(w: World) {
    EntriesOk(w) && FetchesOk(w) && RunOk(w)
  }

  // ----- one entry changes

  /** A change of one row that starts no fetch and forgets no reading. */
  predicate RowMoves(r: Row, row: Row) {
    && r.requested <= row.requested && r.completed <= row.completed <= row.requested
    && (row.lease == r.lease || row.lease.None?) && (row.lease.Some? <==> row.leaseExpires.Some?)
    && (row.lease.Some? ==> row.completed == r.completed && row.attempts == r.attempts)
  }

  /** An entry that stays good in `v`, which differs from `w` only in it. */
  lemma OneEntryKeeps(w: World, v: World, issue: Id, e: Entry)
    requires Inv(w) && issue in w.entries
    requires v == w.(entries := w.entries[issue := e], tick := w.tick + 1)
    requires EntryOk(e) && ReadingsOk(w, e) && AskedBefore(e, v.tick) && w.entries[issue].readings <= e.readings
    requires e.row.lease == w.entries[issue].row.lease || e.row.lease.None?
    requires forall t :: t in w.fetches && e.row.lease == Some(t) && w.fetches[t].issue == issue ==> HolderOk(e, w.fetches[t])
    ensures Inv(v)
  {
    assert EntryGood(w, issue, w.entries[issue]);
    EntriesStayGood(w, v, issue);
    forall t | t in v.fetches
      ensures FetchOk(v, t, v.fetches[t])
    {
      assert FetchOk(w, t, w.fetches[t]);
    }
    SameRunOk(w, v);
  }

  /** The other entries stay good, and the changed one does if it is good by itself. */
  lemma EntriesStayGood(w: World, v: World, issue: Id)
    requires EntriesOk(w) && issue in v.entries && v.now == w.now && v.revision == w.revision && v.run == w.run
    requires v.entries == w.entries[issue := v.entries[issue]] && v.tick == w.tick + 1
    requires forall t :: t in w.fetches ==> t in v.fetches && v.fetches[t] == w.fetches[t]
    requires var e := v.entries[issue]; EntryOk(e) && ReadingsOk(w, e) && AskedBefore(e, v.tick) && LeaseKnown(v, issue)
    ensures EntriesOk(v)
  {
    forall i | i in v.entries
      ensures EntryGood(v, i, v.entries[i])
    {
      if i != issue {
        assert EntryGood(w, i, w.entries[i]);
      }
    }
  }

  /** The run stays sound while readings are only added. */
  lemma SameRunOk(w: World, v: World)
    requires RunOk(w) && v.run == w.run && w.now <= v.now && w.revision <= v.revision
    requires w.run.Some? ==> forall t :: t in v.fetches ==> After(w.run.value, v.fetches[t].started, v.fetches[t].revision)
    requires forall i :: i in w.entries ==> i in v.entries && w.entries[i].readings <= v.entries[i].readings
    ensures RunOk(v)
  {
    if v.run.Some? {
      forall i | i in v.run.value.targets && v.run.value.targets[i].done
        ensures ReadSince(v.entries[i], v.run.value)
      {
        assert ReadSince(w.entries[i], w.run.value);
        ReadSinceGrows(w.entries[i], v.entries[i], w.run.value);
      }
    }
  }

  lemma ReadSinceGrows(e: Entry, d: Entry, run: Run)
    requires ReadSince(e, run) && e.readings <= d.readings
    ensures ReadSince(d, run)
  {
    var k :| 0 <= k < |e.readings| && Serves(e.readings[k], run);
    assert d.readings[k] == e.readings[k];
  }

  lemma PutKeeps(w: World, issue: Id, row: Row, how: Evidence)
    requires Inv(w) && issue in w.entries && RowMoves(w.entries[issue].row, row)
    requires row.lastSuccess == w.entries[issue].row.lastSuccess
    requires how.Fetched? ==>
               (&& row.requested == w.entries[issue].row.requested
                && forall g :: w.entries[issue].row.completed <= g < row.completed ==> w.entries[issue].asked[g] <= how.claimed)
    ensures Inv(Put(w, issue, row, how).(tick := w.tick + 1))
  {
    var e := w.entries[issue];
    assert EntryGood(w, issue, e);
    RecordedOk(e, row, w.tick, how);
    PaddedIs(e.asked, row.requested, w.tick);
    var d := Recorded(e, row, w.tick, how);
    forall t | t in w.fetches && d.row.lease == Some(t) && w.fetches[t].issue == issue
      ensures HolderOk(d, w.fetches[t])
    {
      assert FetchOk(w, t, w.fetches[t]);
    }
    OneEntryKeeps(w, Put(w, issue, row, how).(tick := w.tick + 1), issue, d);
  }

  // ----- the steps that do more

  lemma ClockKeeps(w: World, v: World)
    requires Inv(w) && w.now <= v.now && w.revision <= v.revision
    requires v.entries == w.entries && v.fetches == w.fetches && v.run == w.run && v.tick == w.tick + 1
    ensures Inv(v)
  {
    forall i | i in v.entries
      ensures EntryGood(v, i, v.entries[i])
    {
      assert EntryGood(w, i, w.entries[i]);
    }
    forall t | t in v.fetches
      ensures FetchOk(v, t, v.fetches[t])
    {
      assert FetchOk(w, t, w.fetches[t]);
    }
  }

  /** A reading at a time no later than now, under the current revision. */
  lemma ReadNow(w: World, e: Entry, stamp: Time)
    requires Inv(w) && ReadingsOk(w, e) && stamp <= w.now
    ensures ReadingsOk(w, AddRead(e, Read(stamp, w.revision)))
  {
  }

  lemma LinkKeeps(w: World, issue: Id, stamp: Time)
    requires Inv(w) && stamp <= w.now
    ensures Inv(Apply(w, Link(issue, stamp)))
  {
    var v := Apply(w, Link(issue, stamp));
    if issue in w.entries {
      var e := w.entries[issue];
      assert EntryGood(w, issue, e);
      var d := e.(row := RelinkRow(e.row, stamp));
      ReadNow(w, d, stamp);
      forall t | t in w.fetches && e.row.lease == Some(t) && w.fetches[t].issue == issue
        ensures HolderOk(AddRead(d, Read(stamp, w.revision)), w.fetches[t])
      {
        assert FetchOk(w, t, w.fetches[t]);
      }
      RelinkedOk(e, stamp, w.revision);
      OneEntryKeeps(w, v, issue, AddRead(d, Read(stamp, w.revision)));
    } else {
      assert [] + [Read(stamp, w.revision)] == [Read(stamp, w.revision)];
      NewEntryKeeps(w, v, issue, stamp);
    }
  }

  lemma RelinkedOk(e: Entry, stamp: Time, revision: nat)
    requires EntryOk(e)
    ensures EntryOk(AddRead(e.(row := RelinkRow(e.row, stamp)), Read(stamp, revision)))
  {
    var d := AddRead(e.(row := RelinkRow(e.row, stamp)), Read(stamp, revision));
    forall g | 0 <= g < d.row.completed
      ensures Justified(d, g)
    {
      assert Justified(e, g);
    }
  }

  lemma NewEntryKeeps(w: World, v: World, issue: Id, stamp: Time)
    requires Inv(w) && issue !in w.entries && stamp <= w.now
    requires v == w.(entries := w.entries[issue := Entry(LinkedRow(stamp), [], [], [Read(stamp, w.revision)])],
                     tick := w.tick + 1)
    ensures Inv(v)
  {
    forall i | i in v.entries
      ensures EntryGood(v, i, v.entries[i])
    {
      assert i != issue ==> EntryGood(w, i, w.entries[i]);
    }
    forall t | t in v.fetches
      ensures FetchOk(v, t, v.fetches[t])
    {
      assert FetchOk(w, t, w.fetches[t]);
    }
  }

  lemma ClaimedFetches(w: World, v: World, issue: Id, token: Token, e: Entry, f: Fetch)
    requires FetchesOk(w) && issue in w.entries && token !in w.fetches && EntryOk(e) && AskedBefore(e, v.tick)
    requires v == w.(entries := w.entries[issue := e], fetches := w.fetches[token := f], tick := w.tick + 1)
    requires e.row.lease == Some(token) && f == Fetch(issue, e.row.requested, f.started, w.revision, w.tick) && f.started <= w.now
    ensures FetchesOk(v)
  {
    forall t | t in v.fetches
      ensures FetchOk(v, t, v.fetches[t])
    {
      if t != token {
        assert FetchOk(w, t, w.fetches[t]);
      }
    }
  }

  /** Claiming: a fetch that no other state knows takes the lease. */
  lemma ClaimKeeps(w: World, v: World, issue: Id, token: Token, e: Entry, f: Fetch)
    requires Inv(w) && issue in w.entries && token !in w.fetches
    requires v == w.(entries := w.entries[issue := e], fetches := w.fetches[token := f], tick := w.tick + 1)
    requires EntryOk(e) && ReadingsOk(w, e) && AskedBefore(e, v.tick) && e.readings == w.entries[issue].readings
    requires e.row.lease == Some(token) && f == Fetch(issue, e.row.requested, f.started, w.revision, w.tick) && f.started <= w.now
    ensures Inv(v)
  {
    EntriesStayGood(w, v, issue);
    ClaimedFetches(w, v, issue, token, e, f);
    SameRunOk(w, v);
  }

  lemma BeginKeeps(w: World, issue: Id, token: Token, asOf: Time, event: bool, unusable: Option<Lost>)
    requires Inv(w)
    ensures Inv(Apply(w, Begin(issue, token, asOf, event, unusable)))
  {
    var v := Apply(w, Begin(issue, token, asOf, event, unusable));
    if issue !in w.entries || token in w.fetches || asOf > w.now {
      ClockKeeps(w, v);
    } else {
      var e := w.entries[issue];
      assert EntryGood(w, issue, e);
      var (row, claimed) := BeginRow(e.row, token, asOf, event, unusable);
      if claimed {
        ClaimedKeeps(w, issue, token, asOf, event);
      } else {
        assert v == Put(w, issue, row, Settled).(tick := w.tick + 1);
        BegunRowMoves(e.row, token, asOf, event, unusable);
        PutKeeps(w, issue, row, Settled);
      }
    }
  }

  lemma BegunRowMoves(r: Row, token: Token, asOf: Time, event: bool, unusable: Option<Lost>)
    requires r.completed <= r.requested && (r.lease.Some? <==> r.leaseExpires.Some?)
    ensures var (row, claimed) := BeginRow(r, token, asOf, event, unusable);
            !claimed ==> RowMoves(r, row) && row.lastSuccess == r.lastSuccess
  {
  }

  lemma ClaimedKeeps(w: World, issue: Id, token: Token, asOf: Time, event: bool)
    requires Inv(w) && issue in w.entries && token !in w.fetches && asOf <= w.now
    requires BeginRow(w.entries[issue].row, token, asOf, event, None).1
    ensures Inv(Apply(w, Begin(issue, token, asOf, event, None)))
  {
    var e := w.entries[issue];
    assert EntryGood(w, issue, e);
    var row := BeginRow(e.row, token, asOf, event, None).0;
    RecordedOk(e, row, w.tick, Settled);
    PaddedIs(e.asked, row.requested, w.tick);
    ClaimKeeps(w, Apply(w, Begin(issue, token, asOf, event, None)), issue, token, Recorded(e, row, w.tick, Settled),
               Fetch(issue, row.requested, asOf, w.revision, w.tick));
  }

  lemma ReadThen(e: Entry, started: Time, revision: nat)
    requires e.readings != [] && EntryOk(e.(row := e.row.(lastSuccess := Some(e.readings[|e.readings| - 1].started))))
    requires e.row.lastSuccess == Some(started)
    ensures EntryOk(AddRead(e, Read(started, revision)))
  {
    var d := AddRead(e, Read(started, revision));
    var c := e.(row := e.row.(lastSuccess := Some(e.readings[|e.readings| - 1].started)));
    forall g | 0 <= g < d.row.completed
      ensures Justified(d, g)
    {
      assert Justified(c, g);
    }
  }

  /** A fetch that saw the issue: its generations complete and its reading is added. */
  /** The entry that a fetch which saw the issue leaves. */
  lemma SeenEntryOk(w: World, token: Token, e: Entry, f: Fetch)
    requires EntryOk(e) && HolderOk(e, f) && e.row.lease == Some(token) && ReadingsOk(w, e) && AskedBefore(e, w.tick)
    requires f.started <= w.now && f.revision <= w.revision && (w.run.Some? ==> After(w.run.value, f.started, f.revision))
    ensures var row := FinishRow(e.row, token, f.target, f.started, Seen, false);
            var d := AddRead(Recorded(e, row, w.tick, Fetched(f.claimed)), Read(f.started, f.revision));
            EntryOk(d) && ReadingsOk(w, d) && AskedBefore(d, w.tick + 1) && e.readings <= d.readings && d.row.lease.None?
  {
    var row := FinishRow(e.row, token, f.target, f.started, Seen, false);
    var quiet := row.(lastSuccess := e.row.lastSuccess);
    RecordedOk(e, quiet, w.tick, Fetched(f.claimed));
    PaddedIs(e.asked, row.requested, w.tick);
    var d := Recorded(e, row, w.tick, Fetched(f.claimed));
    assert Recorded(e, quiet, w.tick, Fetched(f.claimed)) == d.(row := quiet);
    ReadThen(d, f.started, f.revision);
  }

  lemma SeenKeeps(w: World, token: Token)
    requires Inv(w) && token in w.fetches && w.fetches[token].issue in w.entries
    requires w.entries[w.fetches[token].issue].row.lease == Some(token)
    ensures Inv(Apply(w, Finish(token, Seen, false)))
  {
    var f := w.fetches[token];
    var e := w.entries[f.issue];
    assert FetchOk(w, token, f);
    assert EntryGood(w, f.issue, e);
    SeenEntryOk(w, token, e, f);
    var v := Apply(w, Finish(token, Seen, false));
    OneEntryKeeps(w, v, f.issue, v.entries[f.issue]);
  }

  lemma FinishKeeps(w: World, token: Token, outcome: Outcome, rebound: bool)
    requires Inv(w)
    ensures Inv(Apply(w, Finish(token, outcome, rebound)))
  {
    if token !in w.fetches || w.fetches[token].issue !in w.entries
       || w.entries[w.fetches[token].issue].row.lease != Some(token)
    {
      ClockKeeps(w, Apply(w, Finish(token, outcome, rebound)));
    } else if !rebound && outcome.Seen? {
      SeenKeeps(w, token);
    } else {
      UnseenKeeps(w, token, outcome, rebound);
    }
  }

  lemma UnseenKeeps(w: World, token: Token, outcome: Outcome, rebound: bool)
    requires Inv(w) && token in w.fetches && w.fetches[token].issue in w.entries && (rebound || outcome.Gone?)
    requires w.entries[w.fetches[token].issue].row.lease == Some(token)
    ensures Inv(Apply(w, Finish(token, outcome, rebound)))
  {
    var f := w.fetches[token];
    var e := w.entries[f.issue];
    assert FetchOk(w, token, f);
    assert EntryGood(w, f.issue, e);
    var row := FinishRow(e.row, token, f.target, f.started, outcome, rebound);
    var how := if rebound then Settled else Fetched(f.claimed);
    assert Apply(w, Finish(token, outcome, rebound)) == Put(w, f.issue, row, how).(tick := w.tick + 1);
    PutKeeps(w, f.issue, row, how);
  }

  // ----- reconciliation runs

  lemma AskedEntryOk(e: Entry, tick: nat)
    requires EntryOk(e) && AskedBefore(e, tick)
    ensures var d := AskedEntry(e, tick);
            && EntryOk(d) && AskedBefore(d, tick + 1) && d.readings == e.readings && d.row.lease == e.row.lease
            && d.row.completed == e.row.completed && d.row.requested >= e.row.requested && e.asked <= d.asked
            && (d.row.active <==> e.row.active) && (d.row.active ==> Pending(d.row))
  {
    if e.row.active && !Pending(e.row) {
      RecordedOk(e, RequestRow(e.row), tick, Settled);
      PaddedIs(e.asked, e.row.requested + 1, tick);
    }
  }

  lemma StartEntries(w: World)
    requires Inv(w) && w.connected
    ensures EntriesOk(Apply(w, StartRun))
  {
    var v := Apply(w, StartRun);
    forall i | i in v.entries
      ensures EntryGood(v, i, v.entries[i])
    {
      assert EntryGood(w, i, w.entries[i]);
      AskedEntryOk(w.entries[i], w.tick);
      StartedReadings(w, v, w.entries[i]);
    }
  }

  lemma StartedFetch(w: World, v: World, t: Token)
    requires Inv(w) && t in w.fetches && v.fetches == w.fetches && v.now == w.now && v.revision == w.revision
    requires v.tick == w.tick + 1 && v.entries == AskedEntries(w)
    ensures FetchOk(v, t, v.fetches[t])
  {
    assert FetchOk(w, t, w.fetches[t]);
    var e := w.entries[w.fetches[t].issue];
    assert EntryGood(w, w.fetches[t].issue, e);
    AskedEntryOk(e, w.tick);
    PaddedIs(e.asked, e.row.requested + 1, w.tick);
  }

  lemma StartFetches(w: World)
    requires Inv(w) && w.connected
    ensures FetchesOk(Apply(w, StartRun)) && RunOk(Apply(w, StartRun))
  {
    var v := Apply(w, StartRun);
    forall t | t in v.fetches
      ensures FetchOk(v, t, v.fetches[t]) && After(v.run.value, v.fetches[t].started, v.fetches[t].revision)
    {
      assert FetchOk(w, t, w.fetches[t]);
      StartedFetch(w, v, t);
    }
  }

  lemma StartKeeps(w: World)
    requires Inv(w) && w.connected
    ensures Inv(Apply(w, StartRun))
  {
    StartEntries(w);
    StartFetches(w);
  }

  /** Nothing started later than the run that starts now. */
  lemma StartedReadings(w: World, v: World, e: Entry)
    requires ReadingsOk(w, e) && v.now == w.now && v.revision == w.revision
    requires v.run.Some? && v.run.value.startedAt == w.now
    requires v.run.value.revision == w.revision
    ensures ReadingsOk(v, e)
  {
  }

  lemma CompletedRunOk(w: World, issue: Id)
    requires Inv(w) && MayComplete(w, issue)
    ensures RunOk(Apply(w, Complete(issue)))
  {
    var v := Apply(w, Complete(issue));
    var run, e := w.run.value, w.entries[issue];
    assert EntryGood(w, issue, e);
    assert Serves(e.readings[|e.readings| - 1], run);
    forall i | i in v.run.value.targets && v.run.value.targets[i].done
      ensures ReadSince(v.entries[i], v.run.value)
    {
      assert i != issue ==> ReadSince(w.entries[i], run);
      SameRunServes(v.entries[i], run, v.run.value);
    }
  }

  lemma CompleteKeeps(w: World, issue: Id)
    requires Inv(w) && MayComplete(w, issue)
    ensures Inv(Apply(w, Complete(issue)))
  {
    var v := Apply(w, Complete(issue));
    forall i | i in v.entries
      ensures EntryGood(v, i, v.entries[i])
    {
      assert EntryGood(w, i, w.entries[i]);
    }
    forall t | t in v.fetches
      ensures FetchOk(v, t, v.fetches[t])
    {
      assert FetchOk(w, t, w.fetches[t]);
    }
    CompletedRunOk(w, issue);
  }

  lemma SameRunServes(e: Entry, run: Run, other: Run)
    requires ReadSince(e, run) && other.startedAt == run.startedAt && other.revision == run.revision
    ensures ReadSince(e, other)
  {
    var k :| 0 <= k < |e.readings| && Serves(e.readings[k], run);
    assert Serves(e.readings[k], other);
  }

  lemma PutStepKeeps(w: World, v: World, i: Id, row: Row)
    requires Inv(w) && i in w.entries && v == Put(w, i, row, Settled).(tick := w.tick + 1)
    requires w.entries[i].row.requested <= row.requested && row.completed == w.entries[i].row.completed
    requires row.lease == w.entries[i].row.lease && row.leaseExpires == w.entries[i].row.leaseExpires
    requires row.attempts == w.entries[i].row.attempts
    requires row.lastSuccess == w.entries[i].row.lastSuccess
    ensures Inv(v)
  {
    assert EntryGood(w, i, w.entries[i]);
    PutKeeps(w, i, row, Settled);
  }

  lemma RowStepKeeps(w: World, step: Step)
    requires Inv(w)
    requires step.Unlink? || step.Refresh? || step.Request? || step.SetAccess?
    ensures Inv(Apply(w, step))
  {
    var v := Apply(w, step);
    if step.issue !in w.entries {
      ClockKeeps(w, v);
    } else {
      var r := w.entries[step.issue].row;
      match step
      case Unlink(i) => PutStepKeeps(w, v, i, r.(active := false));
      case Refresh(i) => PutStepKeeps(w, v, i, RefreshRow(r));
      case SetAccess(i, access) => PutStepKeeps(w, v, i, r.(access := access));
      case Request(i) => PutStepKeeps(w, v, i, RequestRow(r));
    }
  }

  lemma FailKeeps(w: World, token: Token, inaccessible: bool, again: Again)
    requires Inv(w)
    ensures Inv(Apply(w, Fail(token, inaccessible, again)))
  {
    if token !in w.fetches || w.fetches[token].issue !in w.entries {
      ClockKeeps(w, Apply(w, Fail(token, inaccessible, again)));
    } else {
      var issue := w.fetches[token].issue;
      assert EntryGood(w, issue, w.entries[issue]);
      var row := Failed(w, token, inaccessible, again);
      assert Apply(w, Fail(token, inaccessible, again)) == Put(w, issue, row, Settled).(tick := w.tick + 1);
      PutKeeps(w, issue, row, Settled);
    }
  }

  lemma InvStep(w: World, step: Step)
    requires Inv(w)
    ensures Inv(Apply(w, step))
  {
    match step
    case Advance(_) => ClockKeeps(w, Apply(w, step));
    case Rebind(_) => ClockKeeps(w, Apply(w, step));
    case SetConnected(_) => ClockKeeps(w, Apply(w, step));
    case Link(issue, stamp) => if stamp <= w.now { LinkKeeps(w, issue, stamp); } else { ClockKeeps(w, Apply(w, step)); }
    case Begin(issue, token, asOf, event, unusable) => BeginKeeps(w, issue, token, asOf, event, unusable);
    case Fail(token, inaccessible, again) => FailKeeps(w, token, inaccessible, again);
    case Finish(token, outcome, rebound) => FinishKeeps(w, token, outcome, rebound);
    case StartRun => if w.connected { StartKeeps(w); } else { ClockKeeps(w, Apply(w, step)); }
    case Complete(issue) => if MayComplete(w, issue) { CompleteKeeps(w, issue); } else { ClockKeeps(w, Apply(w, step)); }
    case _ => RowStepKeeps(w, step);
  }

  lemma {:induction false} RunKeeps(w: World, steps: seq<Step>)
    requires Inv(w)
    ensures Inv(RunSteps(w, steps))
    decreases |steps|
  {
    if steps != [] {
      InvStep(w, steps[0]);
      RunKeeps(Apply(w, steps[0]), steps[1..]);
    }
  }

  lemma ReachableInv(w: World)
    requires Reachable(w)
    ensures Inv(w)
  {
    var steps :| RunSteps(EMPTY, steps) == w;
    RunKeeps(EMPTY, steps);
  }
}
