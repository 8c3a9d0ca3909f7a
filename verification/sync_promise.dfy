/** The promise of a reconciliation run, and exactly when it is kept: whenever the run makes the
    connection count as reconciled, every active target has been read under the run's binding. */
module SyncPromise {
  import opened Common
  import opened IssueSync
  import opened SyncInvariants
  import opened SyncTheorems

  // ----- the promise

  /** A read under the run's own binding that started no earlier than the run. */
  predicate Own(read: Read, run: Run) {
    read.started >= run.startedAt && read.revision == run.revision
  }

  ghost predicate OwnRead(e: Entry, run: Run) {
    exists k :: 0 <= k < |e.readings| && Own(e.readings[k], run)
  }

  predicate NoNewRun(steps: seq<Step>) {
    forall i :: 0 <= i < |steps| ==> !steps[i].StartRun?
  }

  /** Completing this issue's target now would reconcile the connection. */
  ghost predicate Reconciles(w: World, issue: Id) {
    MayComplete(w, issue) && AllDone(w.entries, Marked(w.run.value, issue, w.entries[issue].row.completed))
  }

  ghost predicate ActiveRead(w: World) {
    && w.run.Some?
    && forall i :: i in w.run.value.targets && i in w.entries && w.entries[i].row.active ==> OwnRead(w.entries[i], w.run.value)
  }

  /** Until the next run starts, the connection is reconciled only after every active target
      was read under the run's binding. */
  ghost predicate KeepsPromise(w: World) {
    forall steps, issue :: NoNewRun(steps) && Reconciles(RunSteps(w, steps), issue) ==> ActiveRead(RunSteps(w, steps))
  }

  // ----- its exact condition

  /** The sync `f` started at or after the run's clock reading, under another binding. */
  predicate Foreign(f: Fetch, run: Run) {
    f.started >= run.startedAt && f.revision != run.revision
  }

  /** The row's lease belongs to a foreign sync that is going to complete generation `g`. */
  predicate HeldBy(w: World, i: Id, g: nat)
    requires w.run.Some? && i in w.entries
  {
    var lease := w.entries[i].row.lease;
    && lease.Some? && lease.value in w.fetches && w.fetches[lease.value].issue == i
    && Foreign(w.fetches[lease.value], w.run.value) && g <= w.fetches[lease.value].target
  }

  /** A foreign sync is about to stand in for the read that the run asked of this target. */
  ghost predicate Straddled(w: World, i: Id)
    requires w.run.Some? && i in w.run.value.targets
  {
    i in w.entries && !OwnRead(w.entries[i], w.run.value) && HeldBy(w, i, w.run.value.targets[i].generation)
  }

  // ----- without such a sync the promise is kept

  /** Nothing that may be marked done: the generation is open, or the row does not look read. */
  predicate Unready(r: Row, run: Run, g: nat) {
    r.completed < g || r.access != Accessible || r.lastSuccess.None? || r.lastSuccess.value < run.startedAt
  }

  ghost predicate Guarded(w: World, i: Id)
    requires w.run.Some? && i in w.run.value.targets
  {
    var run := w.run.value;
    && i in w.entries && run.revision <= w.revision
    && (OwnRead(w.entries[i], run)
        || (&& !run.targets[i].done
            && (w.revision == run.revision ==>
                  !HeldBy(w, i, run.targets[i].generation) && Unready(w.entries[i].row, run, run.targets[i].generation))))
  }

  ghost predicate AllGuarded(w: World) {
    w.run.Some? && forall i :: i in w.run.value.targets ==> Guarded(w, i)
  }

  lemma OwnReadStays(e: Entry, d: Entry, run: Run, other: Run)
    requires OwnRead(e, run) && e.readings <= d.readings
    requires other.startedAt == run.startedAt && other.revision == run.revision
    ensures OwnRead(d, other)
  {
    var k :| 0 <= k < |e.readings| && Own(e.readings[k], run);
    assert d.readings[k] == e.readings[k];
  }

  lemma AddedIsOwn(e: Entry, read: Read, run: Run)
    requires Own(read, run)
    ensures OwnRead(AddRead(e, read), run)
  {
    assert AddRead(e, read).readings[|e.readings|] == read;
  }

  /** One entry changes, and the changed row is still no ground for marking its target. */
  lemma EntryStaysGuarded(w: World, v: World, i: Id, e: Entry)
    requires AllGuarded(w) && i in w.entries && v == w.(entries := w.entries[i := e], tick := v.tick)
    requires w.entries[i].readings <= e.readings
    requires i in w.run.value.targets && w.revision == w.run.value.revision && !OwnRead(w.entries[i], w.run.value) ==>
               || OwnRead(e, w.run.value)
               || (&& (e.row.lease == w.entries[i].row.lease || e.row.lease.None?)
                   && Unready(e.row, w.run.value, w.run.value.targets[i].generation))
    ensures AllGuarded(v)
  {
    var run := w.run.value;
    forall j | j in run.targets
      ensures Guarded(v, j)
    {
      assert Guarded(w, j);
      if OwnRead(w.entries[j], run) {
        OwnReadStays(w.entries[j], v.entries[j], run, run);
      }
    }
  }

  lemma FinishGuarded(w: World, token: Token, outcome: Outcome, rebound: bool)
    requires AllGuarded(w)
    ensures AllGuarded(Apply(w, Finish(token, outcome, rebound)))
  {
    var v := Apply(w, Finish(token, outcome, rebound));
    if token in w.fetches && w.fetches[token].issue in w.entries
       && w.entries[w.fetches[token].issue].row.lease == Some(token)
    {
      var f, run := w.fetches[token], w.run.value;
      var e, d := w.entries[f.issue], v.entries[f.issue];
      if f.issue in run.targets {
        assert Guarded(w, f.issue);
        if !rebound && outcome.Seen? && Own(Read(f.started, f.revision), run) {
          AddedIsOwn(d.(readings := e.readings), Read(f.started, f.revision), run);
        }
      }
      EntryStaysGuarded(w, v, f.issue, d);
    } else {
      SameGuarded(w, v);
    }
  }

  lemma LinkGuarded(w: World, issue: Id, stamp: Time)
    requires AllGuarded(w)
    ensures AllGuarded(Apply(w, Link(issue, stamp)))
  {
    var v, run := Apply(w, Link(issue, stamp)), w.run.value;
    if stamp > w.now {
      SameGuarded(w, v);
    } else if issue in w.entries {
      if w.revision == run.revision && stamp >= run.startedAt {
        AddedIsOwn(w.entries[issue].(row := RelinkRow(w.entries[issue].row, stamp)), Read(stamp, w.revision), run);
      }
      EntryStaysGuarded(w, v, issue, v.entries[issue]);
    } else {
      forall i | i in run.targets
        ensures Guarded(v, i)
      {
        assert Guarded(w, i);
      }
    }
  }

  lemma SameGuarded(w: World, v: World)
    requires AllGuarded(w) && v.entries == w.entries && v.fetches == w.fetches && v.run == w.run
    requires w.revision <= v.revision
    ensures AllGuarded(v)
  {
    forall i | i in v.run.value.targets
      ensures Guarded(v, i)
    {
      assert Guarded(w, i);
    }
  }

  /** A change of the row alone that completes nothing, or takes the access away. */
  predicate Harmless(r: Row, row: Row) {
    && (row.lease == r.lease || row.lease.None?) && row.lastSuccess == r.lastSuccess
    && ((row.completed == r.completed && row.access == r.access) || row.access != Accessible)
  }

  lemma PutGuarded(w: World, i: Id, row: Row, how: Evidence)
    requires AllGuarded(w) && i in w.entries && Harmless(w.entries[i].row, row)
    ensures AllGuarded(Put(w, i, row, how).(tick := w.tick + 1))
  {
    var v := Put(w, i, row, how).(tick := w.tick + 1);
    if i in w.run.value.targets {
      assert Guarded(w, i);
    }
    EntryStaysGuarded(w, v, i, v.entries[i]);
  }

  lemma BeginGuarded(w: World, issue: Id, token: Token, asOf: Time, event: bool, unusable: Option<Lost>)
    requires AllGuarded(w)
    ensures AllGuarded(Apply(w, Begin(issue, token, asOf, event, unusable)))
  {
    var v, run := Apply(w, Begin(issue, token, asOf, event, unusable)), w.run.value;
    if issue !in w.entries || token in w.fetches || asOf > w.now {
      SameGuarded(w, v);
    } else {
      var (row, claimed) := BeginRow(w.entries[issue].row, token, asOf, event, unusable);
      if !claimed {
        assert v == Put(w, issue, row, Settled).(tick := w.tick + 1);
        PutGuarded(w, issue, row, Settled);
      } else {
        ClaimGuarded(w, v, issue, token, row, v.fetches[token]);
      }
    }
  }

  /** A claim under the run's binding starts no foreign sync. */
  lemma ClaimGuarded(w: World, v: World, issue: Id, token: Token, row: Row, f: Fetch)
    requires AllGuarded(w) && issue in w.entries && token !in w.fetches && f.revision == w.revision
    requires issue in v.entries
    requires v == w.(entries := w.entries[issue := v.entries[issue]], fetches := w.fetches[token := f], tick := v.tick)
    requires v.entries[issue].row == row && v.entries[issue].readings == w.entries[issue].readings
    requires row.lease == Some(token) && row.completed == w.entries[issue].row.completed
    requires row.access == w.entries[issue].row.access && row.lastSuccess == w.entries[issue].row.lastSuccess
    ensures AllGuarded(v)
  {
    var run := w.run.value;
    forall i | i in run.targets
      ensures Guarded(v, i)
    {
      assert Guarded(w, i);
      if OwnRead(w.entries[i], run) {
        OwnReadStays(w.entries[i], v.entries[i], run, run);
      }
    }
  }

  lemma CompleteGuarded(w: World, issue: Id)
    requires AllGuarded(w)
    ensures AllGuarded(Apply(w, Complete(issue)))
  {
    var v, run := Apply(w, Complete(issue)), w.run.value;
    forall i | i in v.run.value.targets
      ensures Guarded(v, i)
    {
      assert Guarded(w, i);
      if OwnRead(w.entries[i], run) {
        OwnReadStays(w.entries[i], v.entries[i], run, v.run.value);
      }
    }
  }

  lemma GuardedStep(w: World, step: Step)
    requires AllGuarded(w) && !step.StartRun?
    ensures AllGuarded(Apply(w, step))
  {
    match step
    case Link(issue, stamp) => LinkGuarded(w, issue, stamp);
    case Begin(issue, token, asOf, event, unusable) => BeginGuarded(w, issue, token, asOf, event, unusable);
    case Finish(token, outcome, rebound) => FinishGuarded(w, token, outcome, rebound);
    case Complete(issue) => CompleteGuarded(w, issue);
    case Fail(token, inaccessible, again) =>
      if token in w.fetches && w.fetches[token].issue in w.entries {
        var i := w.fetches[token].issue;
        PutGuarded(w, i, Failed(w, token, inaccessible, again), Settled);
      } else {
        SameGuarded(w, Apply(w, step));
      }
    case Unlink(i) => if i in w.entries { PutGuarded(w, i, w.entries[i].row.(active := false), Settled); }
    case Refresh(i) => if i in w.entries { PutGuarded(w, i, RefreshRow(w.entries[i].row), Settled); }
    case Request(i) => if i in w.entries { PutGuarded(w, i, RequestRow(w.entries[i].row), Settled); }
    case SetAccess(i, access) => if i in w.entries { PutGuarded(w, i, w.entries[i].row.(access := access), Settled); }
    case _ => SameGuarded(w, Apply(w, step));
  }

  lemma {:induction false} GuardedForever(w: World, steps: seq<Step>)
    requires AllGuarded(w) && NoNewRun(steps)
    ensures AllGuarded(RunSteps(w, steps))
    decreases |steps|
  {
    if steps != [] {
      GuardedStep(w, steps[0]);
      GuardedForever(Apply(w, steps[0]), steps[1..]);
    }
  }

  lemma GuardedMeansRead(w: World, issue: Id)
    requires AllGuarded(w) && Reconciles(w, issue)
    ensures ActiveRead(w)
  {
    forall i | i in w.run.value.targets && i in w.entries && w.entries[i].row.active
      ensures OwnRead(w.entries[i], w.run.value)
    {
      assert Guarded(w, i);
      assert i in Marked(w.run.value, issue, w.entries[issue].row.completed).targets;
    }
  }

  // ----- with one the promise can be broken

  lemma {:induction false} StepsConcat(w: World, a: seq<Step>, b: seq<Step>)
    ensures RunSteps(w, a + b) == RunSteps(RunSteps(w, a), b)
    decreases |a|
  {
    if a == [] {
      assert a + b == b;
    } else {
      assert (a + b)[1..] == a[1..] + b;
      StepsConcat(Apply(w, a[0]), a[1..], b);
    }
  }

  lemma OneStep(w: World, step: Step)
    ensures RunSteps(w, [step]) == Apply(w, step)
  {
    assert RunSteps(Apply(w, step), [step][1..]) == Apply(w, step);
  }

  /** What unlinking other issues leaves alone. */
  ghost predicate Cleared(w: World, v: World, keep: Id, others: set<Id>) {
    && v.run == w.run && v.revision == w.revision && v.fetches == w.fetches
    && keep in w.entries && keep in v.entries && v.entries[keep] == w.entries[keep]
    && v.entries.Keys == w.entries.Keys
    && forall i :: i in v.entries && i != keep ==> (v.entries[i].row.active ==> w.entries[i].row.active && i !in others)
  }

  lemma {:induction false} Clear(w: World, keep: Id, others: set<Id>) returns (steps: seq<Step>)
    requires keep in w.entries && keep !in others
    ensures NoNewRun(steps) && Cleared(w, RunSteps(w, steps), keep, others)
    decreases |others|
  {
    if others == {} {
      steps := [];
      assert RunSteps(w, steps) == w;
    } else {
      var i :| i in others;
      var v := Apply(w, Unlink(i));
      assert Cleared(w, v, keep, {i});
      var rest := Clear(v, keep, others - {i});
      steps := [Unlink(i)] + rest;
      assert steps[1..] == rest && RunSteps(w, steps) == RunSteps(v, rest);
    }
  }

  lemma LateFinish(w: World, i: Id)
    requires w.run.Some? && i in w.run.value.targets && w.run.value.revision == w.revision
    requires Straddled(w, i) && w.entries[i].row.active
    requires forall j :: j in w.entries && j != i ==> !w.entries[j].row.active
    ensures var u := Apply(w, Finish(w.entries[i].row.lease.value, Seen, false));
            Reconciles(u, i) && !ActiveRead(u)
  {
    var t := w.entries[i].row.lease.value;
    var u, f, run := Apply(w, Finish(t, Seen, false)), w.fetches[t], w.run.value;
    var e := u.entries[i];
    assert e.row.completed == f.target && e.row.active;
    assert e.readings == w.entries[i].readings + [Read(f.started, f.revision)];
    forall k | 0 <= k < |e.readings|
      ensures !Own(e.readings[k], run)
    {
      assert k < |w.entries[i].readings| ==> e.readings[k] == w.entries[i].readings[k];
    }
  }

  lemma StraddledBreaks(w: World, i: Id)
    requires w.run.Some? && i in w.run.value.targets && w.run.value.revision == w.revision
    requires Straddled(w, i) && w.entries[i].row.active
    ensures !KeepsPromise(w)
  {
    var steps := Clear(w, i, w.entries.Keys - {i});
    var v := RunSteps(w, steps);
    assert Straddled(v, i);
    LateFinish(v, i);
    var last := Finish(v.entries[i].row.lease.value, Seen, false);
    StepsConcat(w, steps, [last]);
    OneStep(v, last);
    assert NoNewRun(steps + [last]);
  }

  // ----- when every reading is the run's own

  /** Every reading since the run started ran under its binding. */
  predicate ReadingsOwn(e: Entry, run: Run) {
    forall k :: 0 <= k < |e.readings| && e.readings[k].started >= run.startedAt ==> e.readings[k].revision == run.revision
  }

  predicate AllOwn(w: World, run: Run) {
    forall i :: i in w.entries ==> ReadingsOwn(w.entries[i], run)
  }

  predicate HolderOwn(w: World, i: Id, run: Run)
    requires i in w.entries
  {
    var lease := w.entries[i].row.lease;
    lease.Some? && lease.value in w.fetches && w.fetches[lease.value].issue == i ==> !Foreign(w.fetches[lease.value], run)
  }

  /** No reading so far, and no sync that still holds its row's lease, is foreign. */
  predicate Clean(w: World, run: Run) {
    AllOwn(w, run) && forall i :: i in w.entries ==> HolderOwn(w, i, run)
  }

  /** Every reading until the next run or binding is the run's own. */
  ghost predicate AlwaysOwn(w: World, run: Run) {
    forall steps :: NoNewRun(steps) && RunSteps(w, steps).revision == run.revision ==> AllOwn(RunSteps(w, steps), run)
  }

  ghost predicate StillClean(w: World, run: Run) {
    run.revision <= w.revision && (run.revision == w.revision ==> Clean(w, run))
  }

  lemma OneEntryClean(w: World, v: World, i: Id, e: Entry, run: Run)
    requires StillClean(w, run) && v == w.(entries := w.entries[i := e], tick := v.tick)
    requires run.revision == w.revision ==> ReadingsOwn(e, run)
    requires e.row.lease.None? || (i in w.entries && e.row.lease == w.entries[i].row.lease)
    ensures StillClean(v, run)
  {
    if run.revision == w.revision {
      forall j | j in v.entries
        ensures ReadingsOwn(v.entries[j], run) && HolderOwn(v, j, run)
      {
        assert j in w.entries ==> HolderOwn(w, j, run);
      }
    }
  }

  lemma PutClean(w: World, i: Id, row: Row, how: Evidence, run: Run)
    requires StillClean(w, run) && i in w.entries && (row.lease == w.entries[i].row.lease || row.lease.None?)
    ensures StillClean(Put(w, i, row, how).(tick := w.tick + 1), run)
  {
    assert run.revision == w.revision ==> ReadingsOwn(w.entries[i], run);
    OneEntryClean(w, Put(w, i, row, how).(tick := w.tick + 1), i, Recorded(w.entries[i], row, w.tick, how), run);
  }

  lemma BeginClean(w: World, issue: Id, token: Token, asOf: Time, event: bool, unusable: Option<Lost>, run: Run)
    requires StillClean(w, run)
    ensures StillClean(Apply(w, Begin(issue, token, asOf, event, unusable)), run)
  {
    var v := Apply(w, Begin(issue, token, asOf, event, unusable));
    if issue in w.entries && token !in w.fetches && asOf <= w.now {
      var (row, claimed) := BeginRow(w.entries[issue].row, token, asOf, event, unusable);
      if !claimed {
        assert v == Put(w, issue, row, Settled).(tick := w.tick + 1);
        PutClean(w, issue, row, Settled, run);
      } else if run.revision == w.revision {
        forall i | i in v.entries
          ensures ReadingsOwn(v.entries[i], run) && HolderOwn(v, i, run)
        {
          assert ReadingsOwn(w.entries[i], run) && HolderOwn(w, i, run);
        }
      }
    }
  }

  lemma FinishClean(w: World, token: Token, outcome: Outcome, rebound: bool, run: Run)
    requires StillClean(w, run)
    ensures StillClean(Apply(w, Finish(token, outcome, rebound)), run)
  {
    var v := Apply(w, Finish(token, outcome, rebound));
    if token in w.fetches && w.fetches[token].issue in w.entries
       && w.entries[w.fetches[token].issue].row.lease == Some(token)
    {
      var i := w.fetches[token].issue;
      if run.revision == w.revision {
        assert ReadingsOwn(w.entries[i], run) && HolderOwn(w, i, run);
      }
      OneEntryClean(w, v, i, v.entries[i], run);
    }
  }

  lemma LinkClean(w: World, issue: Id, stamp: Time, run: Run)
    requires StillClean(w, run)
    ensures StillClean(Apply(w, Link(issue, stamp)), run)
  {
    var v := Apply(w, Link(issue, stamp));
    if stamp <= w.now {
      assert run.revision == w.revision && issue in w.entries ==> ReadingsOwn(w.entries[issue], run);
      OneEntryClean(w, v, issue, v.entries[issue], run);
    }
  }

  lemma FailClean(w: World, token: Token, inaccessible: bool, again: Again, run: Run)
    requires StillClean(w, run)
    ensures StillClean(Apply(w, Fail(token, inaccessible, again)), run)
  {
    if token in w.fetches && w.fetches[token].issue in w.entries {
      var i := w.fetches[token].issue;
      PutClean(w, i, Failed(w, token, inaccessible, again), Settled, run);
    }
  }

  lemma RowStepClean(w: World, step: Step, run: Run)
    requires StillClean(w, run) && (step.Unlink? || step.Refresh? || step.Request? || step.SetAccess?)
    ensures StillClean(Apply(w, step), run)
  {
    if step.issue in w.entries {
      var r := w.entries[step.issue].row;
      match step
      case Unlink(i) => PutClean(w, i, r.(active := false), Settled, run);
      case Refresh(i) => PutClean(w, i, RefreshRow(r), Settled, run);
      case Request(i) => PutClean(w, i, RequestRow(r), Settled, run);
      case SetAccess(i, access) => PutClean(w, i, r.(access := access), Settled, run);
    }
  }

  lemma SameClean(w: World, v: World, run: Run)
    requires StillClean(w, run) && v.entries == w.entries && v.fetches == w.fetches && w.revision <= v.revision
    ensures StillClean(v, run)
  {
    if run.revision == v.revision {
      forall i | i in v.entries
        ensures ReadingsOwn(v.entries[i], run) && HolderOwn(v, i, run)
      {
        assert ReadingsOwn(w.entries[i], run) && HolderOwn(w, i, run);
      }
    }
  }

  lemma CleanStep(w: World, step: Step, run: Run)
    requires StillClean(w, run) && !step.StartRun?
    ensures StillClean(Apply(w, step), run)
  {
    match step
    case Link(issue, stamp) => LinkClean(w, issue, stamp, run);
    case Begin(issue, token, asOf, event, unusable) => BeginClean(w, issue, token, asOf, event, unusable, run);
    case Finish(token, outcome, rebound) => FinishClean(w, token, outcome, rebound, run);
    case Fail(token, inaccessible, again) => FailClean(w, token, inaccessible, again, run);
    case Unlink(_) => RowStepClean(w, step, run);
    case Refresh(_) => RowStepClean(w, step, run);
    case Request(_) => RowStepClean(w, step, run);
    case SetAccess(_, _) => RowStepClean(w, step, run);
    case _ => SameClean(w, Apply(w, step), run);
  }

  lemma {:induction false} CleanForever(w: World, steps: seq<Step>, run: Run)
    requires StillClean(w, run) && NoNewRun(steps)
    ensures StillClean(RunSteps(w, steps), run)
    decreases |steps|
  {
    if steps != [] {
      CleanStep(w, steps[0], run);
      CleanForever(Apply(w, steps[0]), steps[1..], run);
    }
  }

  lemma ForeignFinish(w: World, i: Id, run: Run)
    requires i in w.entries && !HolderOwn(w, i, run)
    ensures var v := Apply(w, Finish(w.entries[i].row.lease.value, Seen, false));
            v.revision == w.revision && !AllOwn(v, run)
  {
    var t := w.entries[i].row.lease.value;
    var v, f := Apply(w, Finish(t, Seen, false)), w.fetches[t];
    assert v.entries[i].readings[|w.entries[i].readings|] == Read(f.started, f.revision);
    assert !ReadingsOwn(v.entries[i], run);
  }

  // ----- main results

  /** Whatever happens until the next run or binding, every reading since a run started is the
      run's own if and only if none so far, and no sync that still holds its lease, is foreign. */
  lemma ReadingsOwnExactly(w: World)
    requires Reachable(w) && w.run.Some? && w.run.value.revision == w.revision
    ensures AlwaysOwn(w, w.run.value) <==> Clean(w, w.run.value)
  {
    var run := w.run.value;
    if Clean(w, run) {
      forall steps | NoNewRun(steps) && RunSteps(w, steps).revision == run.revision
        ensures AllOwn(RunSteps(w, steps), run)
      {
        CleanForever(w, steps, run);
      }
    } else if !AllOwn(w, run) {
      assert NoNewRun([]) && RunSteps(w, []) == w;
    } else {
      var i :| i in w.entries && !HolderOwn(w, i, run);
      var last := Finish(w.entries[i].row.lease.value, Seen, false);
      ForeignFinish(w, i, run);
      OneStep(w, last);
      assert NoNewRun([last]);
    }
  }

  /** `Reconciles` is what moves last_reconciled_at between the starts of runs. */
  lemma ReconcilesExactly(w: World, step: Step)
    requires !step.StartRun?
    ensures Apply(w, step).lastReconciled
            == if step.Complete? && Reconciles(w, step.issue) then Some(w.now) else w.lastReconciled
  {
  }

  lemma StartGuarded(w: World)
    requires Inv(w) && w.connected
    ensures var v := Apply(w, StartRun);
            v.run.Some? && v.run.value.revision == v.revision && forall i :: i in v.run.value.targets ==>
              i in v.entries && v.entries[i].row.active && (!Straddled(v, i) ==> Guarded(v, i))
  {
    RunTargetsActive(w);
  }

  lemma GuardedKeepsPromise(w: World)
    requires AllGuarded(w)
    ensures KeepsPromise(w)
  {
    forall steps, issue | NoNewRun(steps) && Reconciles(RunSteps(w, steps), issue)
      ensures ActiveRead(RunSteps(w, steps))
    {
      GuardedForever(w, steps);
      GuardedMeansRead(RunSteps(w, steps), issue);
    }
  }

  /** A run keeps its promise, whatever happens until the next one, if and only if no target
      that it starts with is held by a sync of another binding that started at the same clock
      reading and is going to complete the generation the run asks for. */
  lemma PromiseKeptExactly(w: World)
    requires Reachable(w) && w.connected
    ensures var v := Apply(w, StartRun);
            KeepsPromise(v) <==> forall i :: i in v.run.value.targets ==> !Straddled(v, i)
  {
    var v := Apply(w, StartRun);
    ReachableInv(w);
    StartGuarded(w);
    if i :| i in v.run.value.targets && Straddled(v, i) {
      StraddledBreaks(v, i);
    } else {
      GuardedKeepsPromise(v);
    }
  }
}
