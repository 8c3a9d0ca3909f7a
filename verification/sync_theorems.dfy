/** Generations only grow, no request is completed by an older fetch, and a connection counts
    as reconciled only when its active issues have been read. */
module SyncTheorems {
  import opened Common
  import opened IssueSync
  import opened SyncInvariants

  // ----- generations

  /** Requests and completions of one row are only ever added to. */
  predicate Grown(e: Entry, d: Entry) {
    && e.row.requested <= d.row.requested && e.row.completed <= d.row.completed
    && e.asked <= d.asked && e.evidence <= d.evidence
  }

  lemma PutGrows(w: World, issue: Id, row: Row, how: Evidence)
    requires issue in w.entries && w.entries[issue].row.requested <= row.requested
    requires w.entries[issue].row.completed <= row.completed
    ensures forall i :: i in w.entries ==> i in Put(w, issue, row, how).entries && Grown(w.entries[i], Put(w, issue, row, how).entries[i])
  {
    PaddedIs(w.entries[issue].asked, row.requested, w.tick);
    PaddedIs(w.entries[issue].evidence, row.completed, how);
  }

  ghost predicate AllGrown(w: World, v: World) {
    forall i :: i in w.entries ==> i in v.entries && Grown(w.entries[i], v.entries[i])
  }

  /** A step that puts a row with no smaller generations. */
  /** A step that puts a row with no smaller generations. */
  lemma PutStepGrows(w: World, v: World, issue: Id, row: Row, how: Evidence)
    requires issue in w.entries && v.entries == Put(w, issue, row, how).entries
    requires w.entries[issue].row.requested <= row.requested && w.entries[issue].row.completed <= row.completed
    ensures AllGrown(w, v)
  {
    PutGrows(w, issue, row, how);
  }

  /** What a fetch may complete is never less than what is completed. */
  lemma FinishedGrows(w: World, token: Token, outcome: Outcome, rebound: bool)
    requires Inv(w) && token in w.fetches && w.fetches[token].issue in w.entries
    ensures var f := w.fetches[token];
            var r := w.entries[f.issue].row;
            var row := FinishRow(r, token, f.target, f.started, outcome, rebound);
            r.requested <= row.requested && r.completed <= row.completed
  {
    assert FetchOk(w, token, w.fetches[token]);
    assert EntryGood(w, w.fetches[token].issue, w.entries[w.fetches[token].issue]);
  }

  lemma FinishGrows(w: World, token: Token, outcome: Outcome, rebound: bool)
    requires Inv(w)
    ensures AllGrown(w, Do(w, Finish(token, outcome, rebound)))
  {
    if token in w.fetches && w.fetches[token].issue in w.entries {
      var f, v := w.fetches[token], Do(w, Finish(token, outcome, rebound));
      FinishedGrows(w, token, outcome, rebound);
      var row := FinishRow(w.entries[f.issue].row, token, f.target, f.started, outcome, rebound);
      var how := if rebound then Settled else Fetched(f.claimed);
      if w.entries[f.issue].row.lease == Some(token) {
        PutGrows(w, f.issue, row, how);
      }
    }
  }

  lemma StartGrows(w: World)
    requires Inv(w)
    ensures AllGrown(w, Do(w, StartRun))
  {
    forall i | i in w.entries
      ensures Grown(w.entries[i], AskedEntry(w.entries[i], w.tick))
    {
      assert EntryGood(w, i, w.entries[i]);
      PaddedIs(w.entries[i].asked, w.entries[i].row.requested + 1, w.tick);
      PaddedIs(w.entries[i].evidence, w.entries[i].row.completed, Settled);
    }
  }

  lemma BegunRowGrows(r: Row, token: Token, asOf: Time, event: bool, unusable: Option<Lost>)
    requires r.completed <= r.requested
    ensures var row := BeginRow(r, token, asOf, event, unusable).0;
            r.requested <= row.requested && r.completed <= row.completed
  {
  }

  lemma BeginGrows(w: World, issue: Id, token: Token, asOf: Time, event: bool, unusable: Option<Lost>)
    requires Inv(w)
    ensures AllGrown(w, Do(w, Begin(issue, token, asOf, event, unusable)))
  {
    if issue in w.entries && token !in w.fetches && asOf <= w.now {
      assert EntryGood(w, issue, w.entries[issue]);
      BegunRowGrows(w.entries[issue].row, token, asOf, event, unusable);
      PutStepGrows(w, Do(w, Begin(issue, token, asOf, event, unusable)), issue,
                   BeginRow(w.entries[issue].row, token, asOf, event, unusable).0, Settled);
    }
  }

  lemma UnlinkGrows(w: World, i: Id)
    ensures AllGrown(w, Do(w, Unlink(i)))
  {
    if i in w.entries {
      PutStepGrows(w, Do(w, Unlink(i)), i, w.entries[i].row.(active := false), Settled);
    }
  }

  lemma RefreshGrows(w: World, i: Id)
    ensures AllGrown(w, Do(w, Refresh(i)))
  {
    if i in w.entries {
      PutStepGrows(w, Do(w, Refresh(i)), i, RefreshRow(w.entries[i].row), Settled);
    }
  }

  lemma RequestGrows(w: World, i: Id)
    ensures AllGrown(w, Do(w, Request(i)))
  {
    if i in w.entries {
      PutStepGrows(w, Do(w, Request(i)), i, RequestRow(w.entries[i].row), Settled);
    }
  }

  lemma SetAccessGrows(w: World, i: Id, access: Lost)
    ensures AllGrown(w, Do(w, SetAccess(i, access)))
  {
    if i in w.entries {
      PutStepGrows(w, Do(w, SetAccess(i, access)), i, w.entries[i].row.(access := access), Settled);
    }
  }

  lemma FailGrows(w: World, token: Token, inaccessible: bool, again: Again)
    ensures AllGrown(w, Do(w, Fail(token, inaccessible, again)))
  {
    if token in w.fetches && w.fetches[token].issue in w.entries {
      var i := w.fetches[token].issue;
      PutStepGrows(w, Do(w, Fail(token, inaccessible, again)), i, Failed(w, token, inaccessible, again), Settled);
    }
  }

  lemma LinkGrows(w: World, issue: Id, stamp: Time)
    ensures AllGrown(w, Do(w, Link(issue, stamp)))
  {
  }

  lemma StepGrows(w: World, step: Step)
    requires Inv(w)
    ensures AllGrown(w, Do(w, step))
  {
    match step
    case Advance(_) =>
    case Rebind(_) =>
    case SetConnected(_) =>
    case Link(issue, stamp) => LinkGrows(w, issue, stamp);
    case Begin(issue, token, asOf, event, unusable) => BeginGrows(w, issue, token, asOf, event, unusable);
    case Fail(token, inaccessible, again) => FailGrows(w, token, inaccessible, again);
    case Finish(token, outcome, rebound) => FinishGrows(w, token, outcome, rebound);
    case StartRun => StartGrows(w);
    case Complete(_) =>
    case Unlink(i) => UnlinkGrows(w, i);
    case Refresh(i) => RefreshGrows(w, i);
    case Request(i) => RequestGrows(w, i);
    case SetAccess(i, access) => SetAccessGrows(w, i, access);
  }

  /** Over any run both generations only grow, and what was requested or completed stays. */
  lemma {:induction false} GenerationsGrow(w: World, steps: seq<Step>)
    requires Inv(w)
    ensures AllGrown(w, RunSteps(w, steps))
    decreases |steps|
  {
    if steps != [] {
      StepGrows(w, steps[0]);
      InvStep(w, steps[0]);
      GenerationsGrow(Apply(w, steps[0]), steps[1..]);
    }
  }

  /** In every reachable state a completed generation was settled without a fetch, or completed
      by a fetch that claimed the row no earlier than the generation was requested. */
  lemma CompletedAfterRequest(w: World, i: Id, g: nat)
    requires Reachable(w) && i in w.entries
    ensures w.entries[i].row.completed <= w.entries[i].row.requested
    ensures g < w.entries[i].row.completed ==> Justified(w.entries[i], g)
  {
    ReachableInv(w);
    assert EntryGood(w, i, w.entries[i]);
    assert g < w.entries[i].row.completed ==> Justified(w.entries[i], g);
  }

  /** A fetch completes exactly the generations requested no later than its claim: whatever was
      asked for later is still pending afterwards. */
  lemma FetchLeavesLaterRequests(w: World, token: Token, outcome: Outcome)
    requires Inv(w) && token in w.fetches
    requires w.entries[w.fetches[token].issue].row.lease == Some(token)
    ensures var f, v := w.fetches[token], Apply(w, Finish(token, outcome, false));
            var e := v.entries[f.issue];
            && e.row.completed == f.target && e.row.lease.None? && e.asked == w.entries[f.issue].asked
            && (forall g :: 0 <= g < |e.asked| ==> (g < e.row.completed <==> e.asked[g] <= f.claimed))
            && ((exists g :: 0 <= g < |e.asked| && e.asked[g] > f.claimed) <==> Pending(e.row))
  {
    var f := w.fetches[token];
    assert FetchOk(w, token, f);
    var was := w.entries[f.issue];
    assert EntryGood(w, f.issue, was) && HolderOk(was, f);
    var e := Apply(w, Finish(token, outcome, false)).entries[f.issue];
    assert e.row == FinishRow(was.row, token, f.target, f.started, outcome, false) && e.asked == was.asked;
    if Pending(e.row) {
      assert e.asked[f.target] > f.claimed;
    }
  }

  /** An event that arrives while another sync holds the lease claims nothing: it is one more
      generation, dated after that sync's claim, so it outlives the fetch. */
  lemma EventDuringFetchStaysPending(w: World, holder: Token, token: Token, asOf: Time, unusable: Option<Lost>, outcome: Outcome)
    requires Inv(w) && holder in w.fetches && token !in w.fetches && asOf <= w.now
    requires w.entries[w.fetches[holder].issue].row.lease == Some(holder)
    requires w.entries[w.fetches[holder].issue].row.leaseExpires.value > asOf
    ensures var i := w.fetches[holder].issue;
            var v := Apply(w, Begin(i, token, asOf, true, unusable));
            && v.fetches == w.fetches && v.entries[i].row.lease == Some(holder)
            && Pending(Apply(v, Finish(holder, outcome, false)).entries[i].row)
  {
    var f := w.fetches[holder];
    var e := w.entries[f.issue];
    assert FetchOk(w, holder, f);
    assert EntryGood(w, f.issue, e);
    var v := Apply(w, Begin(f.issue, token, asOf, true, unusable));
    InvStep(w, Begin(f.issue, token, asOf, true, unusable));
    PaddedIs(e.asked, e.row.requested + 1, w.tick);
    assert v.entries[f.issue].asked[e.row.requested] == w.tick > f.claimed;
    FetchLeavesLaterRequests(v, holder, outcome);
  }

  // ----- a superseded fetch

  /** The row's lease is no longer this fetch's. */
  predicate Superseded(w: World, token: Token) {
    && token in w.fetches
    && (w.fetches[token].issue in w.entries ==> w.entries[w.fetches[token].issue].row.lease != Some(token))
  }

  lemma SupersededStep(w: World, step: Step, token: Token)
    requires Superseded(w, token)
    ensures Superseded(Apply(w, step), token) && Apply(w, step).fetches[token] == w.fetches[token]
  {
  }

  /** Once another sync has taken the lease, the late fetch never writes its row again. */
  lemma {:induction false} SupersededForever(w: World, steps: seq<Step>, token: Token, outcome: Outcome, rebound: bool)
    requires Superseded(w, token)
    ensures var v := RunSteps(w, steps); Superseded(v, token) && Do(v, Finish(token, outcome, rebound)) == v
    decreases |steps|
  {
    if steps != [] {
      SupersededStep(w, steps[0], token);
      SupersededForever(Apply(w, steps[0]), steps[1..], token, outcome, rebound);
    }
  }

  // ----- reconciliation

  /** last_reconciled_at moves only when every target that is still active has been read
      successfully since the run started, under the run's binding. */
  lemma ReconciledMeansRead(w: World, step: Step)
    requires Reachable(w) && Apply(w, step).lastReconciled != w.lastReconciled
    ensures var v := Apply(w, step);
            && v.run.Some? && v.run.value.revision == v.revision && v.lastReconciled == Some(v.now)
            && forall i :: i in v.run.value.targets && i in v.entries && v.entries[i].row.active ==> ReadSince(v.entries[i], v.run.value)
  {
    var v := Apply(w, step);
    ReachableInv(w);
    InvStep(w, step);
    OnlyRunsReconcile(w, step);
    forall i | i in v.run.value.targets && i in v.entries && v.entries[i].row.active
      ensures ReadSince(v.entries[i], v.run.value)
    {
      assert v.run.value.targets[i].done;
    }
  }

  /** Only starting a run or completing a target moves last_reconciled_at, and only when no
      active target is left undone. */
  lemma OnlyRunsReconcile(w: World, step: Step)
    requires Inv(w) && Apply(w, step).lastReconciled != w.lastReconciled
    ensures var v := Apply(w, step);
            && v.run.Some? && v.run.value.revision == v.revision && v.lastReconciled == Some(v.now)
            && AllDone(v.entries, v.run.value)
  {
  }

  /** When a run starts, its targets are exactly the active issues, each with a pending
      generation, and the connection counts as reconciled at once only if there are none. */
  lemma RunTargetsActive(w: World)
    requires Inv(w) && w.connected
    ensures var v := Apply(w, StartRun);
            && v.run.Some? && v.run.value.startedAt == w.now && v.run.value.revision == w.revision
            && (forall i :: i in v.run.value.targets <==> i in w.entries && w.entries[i].row.active)
            && (forall i :: i in v.run.value.targets ==>
                  && !v.run.value.targets[i].done && Pending(v.entries[i].row)
                  && v.run.value.targets[i].generation == v.entries[i].row.requested)
            && (v.lastReconciled != w.lastReconciled ==> v.run.value.targets == map[])
  {
    var v := Apply(w, StartRun);
    forall i | i in w.entries
      ensures v.entries[i].row.active == w.entries[i].row.active
      ensures v.entries[i].row.active ==> Pending(v.entries[i].row)
    {
      assert EntryGood(w, i, w.entries[i]);
      AskedEntryOk(w.entries[i], w.tick);
    }
  }
}
