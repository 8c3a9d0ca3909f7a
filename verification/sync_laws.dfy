/** What each step of the sync machine does to its row, exactly: when it acts, every field it
    leaves, and how long a failed sync waits. */
module SyncLaws {
  import opened Common
  import opened Retries
  import opened IssueSync
  import opened SyncInvariants

  /** The world after a step that leaves this row for this issue and touches nothing else that
      the rows, the connection or the run hold. */
  ghost predicate Leaves(w: World, v: World, i: Id, row: Row)
    requires i in w.entries
  {
    && v.now == w.now && v.tick == w.tick + 1 && v.connected == w.connected && v.revision == w.revision
    && v.run == w.run && v.lastReconciled == w.lastReconciled
    && i in v.entries && v.entries == w.entries[i := v.entries[i]] && v.entries[i].row == row
  }

  // ----- links, requests, refreshes

  lemma LinkExactly(w: World, i: Id, stamp: Time)
    requires stamp <= w.now
    ensures var v := Apply(w, Link(i, stamp));
            && v == w.(entries := w.entries[i := v.entries[i]], tick := w.tick + 1)
            && v.entries[i].row == (if i in w.entries
                                    then w.entries[i].row.(active := true, access := Accessible, lastSuccess := Some(stamp))
                                    else Row(true, Accessible, 0, 0, None, None, None, 0, Some(stamp)))
            && v.entries[i].readings == (if i in w.entries then w.entries[i].readings else []) + [Read(stamp, w.revision)]
  {
  }

  lemma RowStepsExactly(w: World, i: Id, access: Lost)
    requires i in w.entries
    ensures var r := w.entries[i].row;
            && Leaves(w, Apply(w, Unlink(i)), i, r.(active := false))
            && Leaves(w, Apply(w, Request(i)), i, r.(requested := r.requested + 1))
            && Leaves(w, Apply(w, SetAccess(i, access)), i, r.(access := access))
            && Leaves(w, Apply(w, Refresh(i)), i, if r.requested <= r.completed && r.lease.None? then r.(requested := r.requested + 1) else r)
  {
  }

  // ----- one sync

  /** An event always counts. A sync waits for a retry date or another lease; it settles what is
      pending when the connection or the binding cannot be used; else it claims for 190 seconds. */
  lemma BeginExactly(w: World, i: Id, token: Token, asOf: Time, event: bool, unusable: Option<Lost>)
    requires Inv(w) && i in w.entries && token !in w.fetches && asOf <= w.now
    ensures var v, r := Apply(w, Begin(i, token, asOf, event, unusable)), w.entries[i].row;
            var asked := r.(requested := if event then r.requested + 1 else r.requested);
            var waits := (r.retryAt.Some? && r.retryAt.value > asOf) || (r.leaseExpires.Some? && r.leaseExpires.value > asOf);
            && Leaves(w, v, i, if waits then asked
                               else if unusable.Some?
                               then asked.(access := unusable.value, completed := asked.requested, lease := None, leaseExpires := None)
                               else asked.(lease := Some(token), leaseExpires := Some(asOf + 190), attempts := r.attempts + 1))
            && v.fetches == if waits || unusable.Some? then w.fetches
                            else w.fetches[token := Fetch(i, asked.requested, asOf, w.revision, w.tick)]
  {
    assert EntryGood(w, i, w.entries[i]);
  }

  /** A failed sync writes only under its lease. It completes nothing; it takes the access away
      only for the codes that say the issue cannot be read, and is tried again after the usual
      wait, counted from its start, or never. */
  lemma FailExactly(w: World, token: Token, inaccessible: bool, again: Again)
    requires Inv(w) && token in w.fetches
    ensures var v, f := Apply(w, Fail(token, inaccessible, again)), w.fetches[token];
            f.issue in w.entries && f.issue in v.entries && v.fetches == w.fetches
            && var r, retry := w.entries[f.issue].row, v.entries[f.issue].row.retryAt;
               && Leaves(w, v, f.issue,
                         if r.lease != Some(token) then r
                         else r.(access := if inaccessible then Inaccessible else r.access, retryAt := retry,
                                 lease := None, leaseExpires := None))
               && (r.lease == Some(token) ==>
                     && (again.Never? <==> retry.None?)
                     && (again.Later? ==> Waits(retry.value - f.started, r.attempts, again.retryAfter)))
  {
    var f := w.fetches[token];
    assert FetchOk(w, token, f) && EntryGood(w, f.issue, w.entries[f.issue]);
    if again.Later? && w.entries[f.issue].row.lease == Some(token) {
      DelayWaits(w.entries[f.issue].row.attempts, again.retryAfter, f.started, again.jitter);
    }
  }

  /** A finished sync writes only under its lease. After a change of binding everything pending is
      settled; an issue that was seen is accessible and dated by the sync's start; one that is
      gone is deleted when a deletion event said so, inaccessible otherwise, and keeps its date. */
  lemma FinishExactly(w: World, token: Token, outcome: Outcome, rebound: bool)
    requires Inv(w) && token in w.fetches
    ensures var v, f := Apply(w, Finish(token, outcome, rebound)), w.fetches[token];
            f.issue in w.entries && v.fetches == w.fetches
            && var r := w.entries[f.issue].row;
               var free := r.(completed := f.target, lease := None, leaseExpires := None);
               && Leaves(w, v, f.issue,
                         if r.lease != Some(token) then r
                         else if rebound then free.(access := Inaccessible, completed := r.requested)
                         else if outcome.Seen?
                         then free.(access := Accessible, lastSuccess := Some(f.started), attempts := 0, retryAt := None)
                         else free.(access := if outcome.deleted then Deleted else Inaccessible))
               && v.entries[f.issue].readings == if r.lease == Some(token) && !rebound && outcome.Seen?
                                                 then w.entries[f.issue].readings + [Read(f.started, f.revision)]
                                                 else w.entries[f.issue].readings
  {
    var f := w.fetches[token];
    assert FetchOk(w, token, f) && EntryGood(w, f.issue, w.entries[f.issue]);
  }

  // ----- waits are kept

  predicate EarlyBegins(steps: seq<Step>, i: Id, due: Time) {
    forall k :: 0 <= k < |steps| && steps[k].Begin? && steps[k].issue == i ==> steps[k].asOf < due
  }

  /** A row that waits for its retry date and holds no lease. */
  predicate WaitsUntil(w: World, i: Id, due: Time, completed: nat) {
    && i in w.entries && w.entries[i].row.lease.None? && w.entries[i].row.completed == completed
    && w.entries[i].row.retryAt.Some? && w.entries[i].row.retryAt.value >= due
  }

  lemma WaitStep(w: World, step: Step, i: Id, due: Time, completed: nat)
    requires WaitsUntil(w, i, due, completed) && (step.Begin? && step.issue == i ==> step.asOf < due)
    ensures WaitsUntil(Apply(w, step), i, due, completed)
  {
  }

  /** Before its retry date no sync claims or settles the row: its requests stay pending. */
  lemma {:induction false} NoSyncBeforeRetry(w: World, steps: seq<Step>, i: Id, due: Time, completed: nat)
    requires WaitsUntil(w, i, due, completed) && EarlyBegins(steps, i, due)
    ensures WaitsUntil(RunSteps(w, steps), i, due, completed)
    decreases |steps|
  {
    if steps != [] {
      WaitStep(w, steps[0], i, due, completed);
      NoSyncBeforeRetry(Apply(w, steps[0]), steps[1..], i, due, completed);
    }
  }

  // ----- reconciliation runs

  lemma AskedExactly(e: Entry, tick: nat)
    ensures AskedEntry(e, tick).readings == e.readings
    ensures AskedEntry(e, tick).row
            == if e.row.active && e.row.requested <= e.row.completed then e.row.(requested := e.row.requested + 1) else e.row
  {
  }

  lemma TargetsExactly(w: World)
    ensures var entries := AskedEntries(w);
            && entries.Keys == w.entries.Keys
            && (forall i :: i in w.entries ==> entries[i] == AskedEntry(w.entries[i], w.tick))
            && (forall i :: i in TargetsOf(entries) <==> i in w.entries && w.entries[i].row.active)
            && (forall i :: i in TargetsOf(entries) ==> TargetsOf(entries)[i] == Target(entries[i].row.requested, false))
            && (TargetsOf(entries) == map[] <==> forall i :: i in w.entries ==> !w.entries[i].row.active)
  {
    var entries := AskedEntries(w);
    forall i | i in w.entries
      ensures entries[i] == AskedEntry(w.entries[i], w.tick) && (entries[i].row.active <==> w.entries[i].row.active)
    {
      AskedExactly(w.entries[i], w.tick);
    }
    if TargetsOf(entries) != map[] {
      var i :| i in TargetsOf(entries);
      assert w.entries[i].row.active;
    }
  }

  /** A run dates itself, takes the binding of the moment, and asks for every active issue that is
      not pending already; without active issues the connection is reconciled at once. */
  lemma StartExactly(w: World)
    requires w.connected
    ensures var v := Apply(w, StartRun);
            && v == w.(tick := w.tick + 1, entries := v.entries, run := v.run, lastReconciled := v.lastReconciled)
            && v.run.Some? && v.run.value.startedAt == w.now && v.run.value.revision == w.revision
            && v.entries.Keys == w.entries.Keys
            && (forall i :: i in w.entries ==>
                  && v.entries[i].readings == w.entries[i].readings
                  && v.entries[i].row == if w.entries[i].row.active && w.entries[i].row.requested <= w.entries[i].row.completed
                                         then w.entries[i].row.(requested := w.entries[i].row.requested + 1) else w.entries[i].row)
            && (forall i :: i in v.run.value.targets <==> i in w.entries && w.entries[i].row.active)
            && (forall i :: i in v.run.value.targets ==> v.run.value.targets[i] == Target(v.entries[i].row.requested, false))
            && v.lastReconciled == if forall i :: i in w.entries ==> !w.entries[i].row.active then Some(w.now) else w.lastReconciled
  {
    TargetsExactly(w);
    var v := Apply(w, StartRun);
    assert v.entries == AskedEntries(w) && v.run.value.targets == TargetsOf(v.entries);
    forall i | i in w.entries
      ensures v.entries[i].readings == w.entries[i].readings
      ensures v.entries[i].row == if w.entries[i].row.active && w.entries[i].row.requested <= w.entries[i].row.completed
                                  then w.entries[i].row.(requested := w.entries[i].row.requested + 1) else w.entries[i].row
    {
      AskedExactly(w.entries[i], w.tick);
    }
  }

  /** What the clock, the binding and a step without effect leave. */
  lemma OutsideExactly(w: World, seconds: nat, connected: bool)
    ensures Apply(w, Advance(seconds)) == w.(now := w.now + seconds, tick := w.tick + 1)
    ensures Apply(w, Rebind(connected)) == w.(revision := w.revision + 1, connected := connected, tick := w.tick + 1)
    ensures Apply(w, SetConnected(connected)) == w.(connected := connected, tick := w.tick + 1)
    ensures !w.connected ==> Apply(w, StartRun) == w.(tick := w.tick + 1)
  {
  }

  /** A target is marked done exactly when its issue is accessible, was read since the run started
      and has completed the run's generation, all under the run's own binding. */
  lemma CompleteExactly(w: World, i: Id)
    ensures var v := Apply(w, Complete(i));
            && v == w.(tick := w.tick + 1, run := v.run, lastReconciled := v.lastReconciled)
            && (v.run.Some? <==> w.run.Some?)
            && (w.run.Some? ==>
                  && v.run.value.startedAt == w.run.value.startedAt && v.run.value.revision == w.run.value.revision
                  && v.run.value.targets.Keys == w.run.value.targets.Keys
                  && forall j :: j in w.run.value.targets ==>
                       v.run.value.targets[j]
                       == w.run.value.targets[j].(
                            done := w.run.value.targets[j].done
                                    || (j == i && i in w.entries && w.run.value.revision == w.revision
                                        && w.entries[i].row.access == Accessible && w.entries[i].row.lastSuccess.Some?
                                        && w.entries[i].row.lastSuccess.value >= w.run.value.startedAt
                                        && w.entries[i].row.completed >= w.run.value.targets[i].generation)))
  {
  }
}
