/** What the match-run machine guarantees over every interleaving. */
module MatchTheorems {
  import opened Common
  import opened Retries
  import opened MatchContract
  import opened MatchRetrieval
  import opened MatchRuns
  import opened MatchInvariants
  import opened MatchSteps

  /** The request rebuilt from the records as they are now. */
  function RequestNow(w: World, k: Worker, loaded: seq<Loaded>): Request
    requires k.report in w.records.reports
  {
    Request(k.report, w.records.reports[k.report].version, w.records.reports[k.report].text, Candidates(loaded))
  }

  /** When a save ends a run, the request that was sent is the one the records give at that
      moment, text for text, though the worker read them earlier and not all at once. */
  lemma SavedRequestIsCurrent(w: World, token: Token, names: set<string>)
    requires Reachable(w, names) && token in w.workers && w.workers[token].pc.Saving?
    requires w.workers[token].run in w.runs && DoSave(w, token).runs[w.workers[token].run].state in {Ranked, Abstained}
    requires w.runs[w.workers[token].run].state == Running
    ensures var k := w.workers[token];
            && CurrentReport(w.records, k.report, k.reportVersion)
            && k.seen.Some? && k.seen == w.runs[k.run].candidates
            && LoadCandidates(w.records, IdsOf(k.seen.value), k.cap).Some?
            && k.pc.request == RequestNow(w, k, LoadCandidates(w.records, IdsOf(k.seen.value), k.cap).value)
  {
    ReachableInv(w, names);
    var k := w.workers[token];
    assert WorkerOk(w.history, k, names);
    assert Holds(w.runs[k.run], token) && StillCurrent(w, k);
    assert LeaseKnown(w, k.run);
    var now := LoadCandidates(w.records, IdsOf(k.seen.value), k.cap).value;
    ProblemsFaithful(w.records, w.history, IdsOf(k.seen.value));
    ReportsFaithful(w.records, w.history, LoadProblems(w.records, IdsOf(k.seen.value)).value, k.cap);
    SameSnapshotSameRequest(w.history, now, k.pc.loaded);
    assert ReportKnown(w.history, k.report, w.records.reports[k.report]);
  }

  /** Runs of one report are active one at a time, each is claimed at most three times, its
      failure and abstention match its state, and its suggestions are distinct recorded
      candidates in strictly falling rank. */
  lemma EveryRunIsSound(w: World, names: set<string>, a: Id, b: Id)
    requires Reachable(w, names) && a in w.runs && b in w.runs
    ensures Active(w.runs[a]) && Active(w.runs[b]) && w.runs[a].report == w.runs[b].report ==> a == b
    ensures w.runs[a].attempts <= 3
    ensures Constrained(w.runs[a]) && SuggestionsOk(w.runs[a])
  {
    ReachableInv(w, names);
    assert RunOk(w.runs[a]);
  }

  // ----- superseded workers

  /** The worker exists and its run is not, or no longer, leased to it. */
  predicate Lost(w: World, token: Token) {
    token in w.workers && (w.workers[token].run in w.runs ==> !Holds(w.runs[w.workers[token].run], token))
  }

  /** A worker without the lease changes no run and no record. */
  lemma LostWritesNothing(w: World, token: Token, step: WorkerStep, names: set<string>)
    requires Lost(w, token)
    ensures DoWork(w, token, step, names).runs == w.runs
    ensures DoWork(w, token, step, names).records == w.records
    ensures Lost(DoWork(w, token, step, names), token)
  {
  }

  lemma RequestKeepsLost(w: World, report: Id, run: Id, cap: nat, token: Token)
    requires Lost(w, token)
    ensures Lost(RequestMatch(w, report, run, cap), token)
  {
  }

  lemma OthersKeepLost(w: World, other: Token, step: WorkerStep, names: set<string>, token: Token)
    requires Lost(w, token) && other in w.workers && other != token
    ensures Lost(DoWork(w, other, step, names), token)
  {
    if step.GiveUp? && w.workers[other].pc.MarkingStale? {
      var k := w.workers[other];
      if k.run in w.runs && Holds(w.runs[k.run], other) {
        var v := PassTo(w, other, Done);
        RequestKeepsLost(v.(runs := v.runs[k.run := StaleRun(v.runs[k.run])]), k.report, step.replacement, k.cap, token);
      }
    }
  }

  lemma LostStep(w: World, step: Step, names: set<string>, token: Token)
    requires Lost(w, token)
    ensures Lost(Apply(w, step, names), token)
  {
    match step
    case NewReport(id, text, at, run, cap) =>
      if !(id in w.records.reports || id in w.records.order || at > |w.records.order|) {
        RequestKeepsLost(WriteReport(w, id, Report(1, text, true, None), w.records.order[..at] + [id] + w.records.order[at..]),
                         id, run, cap, token);
      }
    case ChangeReport(id, text, isNew, problem, rerun, cap) =>
      if id in w.records.reports && rerun.Some? {
        RequestKeepsLost(WriteReport(w, id, Report(w.records.reports[id].version + 1, text, isNew, problem), w.records.order),
                         id, rerun.value, cap, token);
      }
    case Work(other, work) =>
      if other == token {
        LostWritesNothing(w, token, work, names);
      } else if other in w.workers {
        OthersKeepLost(w, other, work, names, token);
      }
    case _ =>
  }

  /** Once superseded, expired or finished, a worker never gets its run back, however long it
      goes on. */
  lemma {:induction false} LostForever(w: World, steps: seq<Step>, names: set<string>, token: Token)
    requires Lost(w, token)
    ensures Lost(RunSteps(w, steps, names), token)
    decreases |steps|
  {
    if steps != [] {
      LostStep(w, steps[0], names, token);
      LostForever(Apply(w, steps[0], names), steps[1..], names, token);
    }
  }

  /** A report's change takes every lease of its active runs away. */
  lemma SupersededLoses(w: World, report: Id, run: Id, cap: nat, token: Token)
    requires report in w.records.reports && w.records.reports[report].isNew && run !in w.runs
    requires token in w.workers && w.workers[token].run in w.runs && w.runs[w.workers[token].run].report == report
    ensures Lost(RequestMatch(w, report, run, cap), token)
  {
  }
}
