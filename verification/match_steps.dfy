/** Each step of the match-run machine keeps the invariant. */
module MatchSteps {
  import opened Common
  import opened Retries
  import opened MatchContract
  import opened MatchRetrieval
  import opened MatchRuns
  import opened MatchInvariants

  // ----- rows

  lemma StaleRunOk(r: MatchRun)
    requires RunOk(r) && Active(r)
    ensures RunOk(StaleRun(r))
  {
  }

  lemma FailRunOk(r: MatchRun, token: Token, category: Category, now: Time, jitter: nat)
    requires RunOk(r) && category != StaleSnapshot
    ensures RunOk(FailRun(r, token, category, now, jitter))
  {
  }

  lemma ClaimRunOk(r: MatchRun, token: Token, asOf: Time)
    requires RunOk(r)
    ensures RunOk(ClaimRun(r, token, asOf))
  {
  }

  lemma RecordRunOk(r: MatchRun, token: Token, snapshot: Snapshot)
    requires RunOk(r)
    ensures RunOk(RecordRun(r, token, snapshot))
  {
  }

  /** An accepted ranking is saved in strict order over the recorded candidates. */
  lemma SaveRunOk(r: MatchRun, token: Token, answer: Answer, request: Request, loaded: seq<Loaded>, names: set<string>)
    requires RunOk(r) && Valid(answer, request, names)
    requires request.candidates == Candidates(loaded) && r.candidates == Some(SnapshotOf(loaded))
    ensures RunOk(SaveRun(r, token, answer))
  {
    if answer.RankedAnswer? {
      var s := answer.suggestions;
      AcceptableIsStrict(s, Offers(request.candidates), names);
      assert DistinctProblems(s) && Strict(s);
      forall i | 0 <= i < |s|
        ensures IsCandidate(SnapshotOf(loaded), s[i].problem)
      {
        OfferIsSeen(loaded, s[i].problem);
      }
      assert Holds(r, token) ==> SuggestionsOk(SaveRun(r, token, answer));
    }
  }

  lemma OfferIsSeen(loaded: seq<Loaded>, id: Id)
    requires exists o :: o in Offers(Candidates(loaded)) && o.id == id
    ensures IsCandidate(SnapshotOf(loaded), id)
  {
    var o :| o in Offers(Candidates(loaded)) && o.id == id;
    var j :| 0 <= j < |loaded| && Offers(Candidates(loaded))[j] == o;
    assert SnapshotOf(loaded)[j].id == id;
  }

  // ----- one run changes

  /** A run's change that makes nothing active and hands the lease to nobody. */
  predicate RunMoves(r: MatchRun, s: MatchRun) {
    && s.report == r.report && s.reportVersion == r.reportVersion && s.cap == r.cap && s.candidates == r.candidates
    && (Active(s) ==> Active(r)) && (s.lease == r.lease || s.lease.None?)
  }

  lemma OneRunKeeps(w: World, id: Id, s: MatchRun)
    requires RunsOk(w) && OneActive(w.runs) && id in w.runs && RunOk(s) && RunMoves(w.runs[id], s)
    ensures RunsOk(w.(runs := w.runs[id := s])) && OneActive(w.runs[id := s])
  {
    var v := w.(runs := w.runs[id := s]);
    forall x | x in v.runs
      ensures RunOk(v.runs[x]) && LeaseKnown(v, x)
    {
      assert RunOk(w.runs[x]) && LeaseKnown(w, x);
    }
  }

  /** Only the worker's place changes. */
  lemma PassKeeps(w: World, token: Token, pc: Pc, names: set<string>)
    requires Inv(w, names) && token in w.workers && WorkerOk(w.history, w.workers[token].(pc := pc), names)
    ensures Inv(PassTo(w, token, pc), names)
  {
    var v := PassTo(w, token, pc);
    forall x | x in v.runs
      ensures RunOk(v.runs[x]) && LeaseKnown(v, x)
    {
      assert RunOk(w.runs[x]) && LeaseKnown(w, x);
    }
  }

  lemma PutKeeps(w: World, id: Id, s: MatchRun, names: set<string>)
    requires Inv(w, names) && id in w.runs && RunOk(s) && RunMoves(w.runs[id], s)
    ensures Inv(w.(runs := w.runs[id := s]), names)
  {
    OneRunKeeps(w, id, s);
  }

  // ----- queueing

  lemma SupersededKeeps(w: World, report: Id)
    requires RunsOk(w) && OneActive(w.runs)
    ensures RunsOk(w.(runs := Superseded(w.runs, report))) && OneActive(Superseded(w.runs, report))
    ensures forall k :: k in Superseded(w.runs, report) && Active(Superseded(w.runs, report)[k]) ==>
              Superseded(w.runs, report)[k].report != report
  {
    var v := w.(runs := Superseded(w.runs, report));
    forall x | x in v.runs
      ensures RunOk(v.runs[x]) && LeaseKnown(v, x)
    {
      assert RunOk(w.runs[x]) && LeaseKnown(w, x);
      if Active(w.runs[x]) {
        StaleRunOk(w.runs[x]);
      }
    }
    forall a, b | a in v.runs && b in v.runs && Active(v.runs[a]) && Active(v.runs[b]) && v.runs[a].report == v.runs[b].report
      ensures a == b
    {
      assert Active(w.runs[a]) && Active(w.runs[b]);
    }
  }

  lemma QueueKeeps(w: World, run: Id, r: MatchRun)
    requires RunsOk(w) && OneActive(w.runs) && run !in w.runs && RunOk(r) && r.lease.None?
    requires forall k :: k in w.runs && Active(w.runs[k]) ==> w.runs[k].report != r.report
    ensures RunsOk(w.(runs := w.runs[run := r])) && OneActive(w.runs[run := r])
  {
    var v := w.(runs := w.runs[run := r]);
    forall x | x in v.runs
      ensures RunOk(v.runs[x]) && LeaseKnown(v, x)
    {
      assert x != run ==> RunOk(w.runs[x]) && LeaseKnown(w, x);
    }
  }

  lemma RequestKeeps(w: World, report: Id, run: Id, cap: nat, names: set<string>)
    requires Inv(w, names)
    ensures Inv(RequestMatch(w, report, run, cap), names)
  {
    if report in w.records.reports && run !in w.runs && w.records.reports[report].isNew {
      SupersededKeeps(w, report);
      var v := w.(runs := Superseded(w.runs, report));
      var r := NewRun(report, w.records.reports[report].version, cap, w.now);
      QueueKeeps(v, run, r);
      var u := RequestMatch(w, report, run, cap);
      assert u == v.(runs := v.runs[run := r]);
      assert RunsOk(u) && OneActive(u.runs) && WorkersOk(u, names);
    }
  }

  // ----- records

  lemma RecordsKeep(w: World, records: Records, history: History, names: set<string>)
    requires Inv(w, names) && HistoryOk(records, history) && HistoryGrows(w.history, history)
    ensures Inv(w.(records := records, history := history), names)
  {
    var v := w.(records := records, history := history);
    forall x | x in v.runs
      ensures RunOk(v.runs[x]) && LeaseKnown(v, x)
    {
      assert RunOk(w.runs[x]) && LeaseKnown(w, x);
    }
    forall t | t in v.workers
      ensures WorkerOk(v.history, v.workers[t], names)
    {
      WorkerGrows(w.history, history, w.workers[t], names);
    }
  }

  /** A new version of a problem is new to the history. */
  lemma ProblemHistory(r: Records, h: History, id: Id, p: Problem)
    requires HistoryOk(r, h) && (if id in r.problems then p.version == r.problems[id].version + 1 else p.version == 1)
    ensures var s := r.(problems := r.problems[id := p]);
            var g := History(h.problems[(id, p.version) := p.text], h.reports);
            HistoryOk(s, g) && HistoryGrows(h, g)
  {
    var s := r.(problems := r.problems[id := p]);
    var g := History(h.problems[(id, p.version) := p.text], h.reports);
    forall x | x in s.problems
      ensures ProblemKnown(g, x, s.problems[x])
    {
      assert x != id ==> ProblemKnown(h, x, r.problems[x]);
    }
    forall x | x in s.reports
      ensures ReportKnown(g, x, s.reports[x])
    {
      assert ReportKnown(h, x, r.reports[x]);
    }
    assert (id, p.version) !in h.problems;
  }

  lemma ReportHistory(r: Records, h: History, id: Id, p: Report, order: seq<Id>)
    requires HistoryOk(r, h) && (if id in r.reports then p.version == r.reports[id].version + 1 else p.version == 1)
    ensures var s := Records(r.problems, r.reports[id := p], order);
            var g := History(h.problems, h.reports[(id, p.version) := p.text]);
            HistoryOk(s, g) && HistoryGrows(h, g)
  {
    var s := Records(r.problems, r.reports[id := p], order);
    var g := History(h.problems, h.reports[(id, p.version) := p.text]);
    forall x | x in s.reports
      ensures ReportKnown(g, x, s.reports[x])
    {
      assert x != id ==> ReportKnown(h, x, r.reports[x]);
    }
    forall x | x in s.problems
      ensures ProblemKnown(g, x, s.problems[x])
    {
      assert ProblemKnown(h, x, r.problems[x]);
    }
    assert (id, p.version) !in h.reports;
  }

  lemma ChangeProblemKeeps(w: World, id: Id, text: string, eligible: bool, names: set<string>)
    requires Inv(w, names)
    ensures Inv(DoChangeProblem(w, id, text, eligible), names)
  {
    var v := DoChangeProblem(w, id, text, eligible);
    ProblemHistory(w.records, w.history, id, v.records.problems[id]);
    RecordsKeep(w, v.records, v.history, names);
  }

  lemma WriteReportKeeps(w: World, id: Id, p: Report, order: seq<Id>, names: set<string>)
    requires Inv(w, names)
    requires if id in w.records.reports then p.version == w.records.reports[id].version + 1 else p.version == 1
    ensures Inv(WriteReport(w, id, p, order), names)
  {
    var v := WriteReport(w, id, p, order);
    ReportHistory(w.records, w.history, id, p, order);
    RecordsKeep(w, v.records, v.history, names);
  }

  lemma NewReportKeeps(w: World, id: Id, text: string, at: nat, run: Id, cap: nat, names: set<string>)
    requires Inv(w, names)
    ensures Inv(DoNewReport(w, id, text, at, run, cap), names)
  {
    if !(id in w.records.reports || id in w.records.order || at > |w.records.order|) {
      var p, order := Report(1, text, true, None), w.records.order[..at] + [id] + w.records.order[at..];
      WriteReportKeeps(w, id, p, order, names);
      RequestKeeps(WriteReport(w, id, p, order), id, run, cap, names);
    }
  }

  lemma ChangeReportKeeps(w: World, id: Id, text: string, isNew: bool, problem: Option<Id>, rerun: Option<Id>, cap: nat, names: set<string>)
    requires Inv(w, names)
    ensures Inv(DoChangeReport(w, id, text, isNew, problem, rerun, cap), names)
  {
    if id in w.records.reports {
      var p := Report(w.records.reports[id].version + 1, text, isNew, problem);
      assert DoChangeReport(w, id, text, isNew, problem, rerun, cap)
          == Rerun(WriteReport(w, id, p, w.records.order), id, rerun, cap);
      WriteReportKeeps(w, id, p, w.records.order, names);
      RerunKeeps(WriteReport(w, id, p, w.records.order), id, rerun, cap, names);
    }
  }

  lemma RerunKeeps(w: World, report: Id, run: Option<Id>, cap: nat, names: set<string>)
    requires Inv(w, names)
    ensures Inv(Rerun(w, report, run, cap), names)
  {
    if run.Some? {
      RequestKeeps(w, report, run.value, cap, names);
    }
  }

  // ----- claims

  lemma ClaimKeeps(w: World, run: Id, token: Token, asOf: Time, names: set<string>)
    requires Inv(w, names)
    ensures Inv(DoClaim(w, run, token, asOf), names)
  {
    var v := DoClaim(w, run, token, asOf);
    if run in w.runs && token !in w.workers && asOf <= w.now && Claimable(w.runs[run], asOf) {
      ClaimRunOk(w.runs[run], token, asOf);
      forall x | x in v.runs
        ensures RunOk(v.runs[x]) && LeaseKnown(v, x)
      {
        assert RunOk(w.runs[x]) && LeaseKnown(w, x);
      }
    }
  }

  lemma RecoverKeeps(w: World, run: Id, asOf: Time, jitter: nat, names: set<string>)
    requires Inv(w, names)
    ensures Inv(DoRecover(w, run, asOf, jitter), names)
  {
    if run in w.runs && w.runs[run].state == Running && w.runs[run].lease.Some? {
      FailRunOk(w.runs[run], w.runs[run].lease.value, ProcessFailed, asOf, jitter);
      PutKeeps(w, run, FailRun(w.runs[run], w.runs[run].lease.value, ProcessFailed, asOf, jitter), names);
    }
  }

  // ----- workers

  lemma RecordKeeps(w: World, token: Token, names: set<string>)
    requires Inv(w, names) && token in w.workers && w.workers[token].pc.Recording?
    requires w.workers[token].run in w.runs && Holds(w.runs[w.workers[token].run], token)
    ensures Inv(DoWork(w, token, Record, names), names)
  {
    var k := w.workers[token];
    var v := DoWork(w, token, Record, names);
    RecordRunOk(w.runs[k.run], token, SnapshotOf(k.pc.loaded));
    assert LeaseKnown(w, k.run);
    forall x | x in v.runs
      ensures RunOk(v.runs[x]) && LeaseKnown(v, x)
    {
      assert RunOk(w.runs[x]) && LeaseKnown(w, x);
    }
    forall t | t in v.workers
      ensures WorkerOk(v.history, v.workers[t], names)
    {
      assert WorkerOk(w.history, w.workers[t], names);
    }
    assert OneActive(v.runs);
  }

  lemma RecordingKeeps(w: World, token: Token, names: set<string>)
    requires Inv(w, names) && token in w.workers && w.workers[token].pc.Recording?
    ensures Inv(DoWork(w, token, Record, names), names)
  {
    var k := w.workers[token];
    if k.run in w.runs && Holds(w.runs[k.run], token) {
      RecordKeeps(w, token, names);
    } else {
      PassKeeps(w, token, MarkingStale, names);
    }
  }

  lemma SaveKeeps(w: World, token: Token, names: set<string>)
    requires Inv(w, names) && token in w.workers && w.workers[token].pc.Saving?
    ensures Inv(DoSave(w, token), names)
  {
    var k := w.workers[token];
    if k.run !in w.runs || !Holds(w.runs[k.run], token) {
      PassKeeps(w, token, Done, names);
    } else if !StillCurrent(w, k) {
      PassKeeps(w, token, MarkingStale, names);
    } else {
      assert LeaseKnown(w, k.run) && WorkerOk(w.history, k, names);
      SaveRunOk(w.runs[k.run], token, k.pc.answer, k.pc.request, k.pc.loaded, names);
      PutKeeps(w, k.run, SaveRun(w.runs[k.run], token, k.pc.answer), names);
      PassKeeps(w.(runs := w.runs[k.run := SaveRun(w.runs[k.run], token, k.pc.answer)]), token, Done, names);
    }
  }

  lemma GiveUpKeeps(w: World, token: Token, now: Time, jitter: nat, replacement: Id, names: set<string>)
    requires Inv(w, names) && token in w.workers
    ensures Inv(DoGiveUp(w, token, now, jitter, replacement), names)
  {
    var k := w.workers[token];
    PassKeeps(w, token, Done, names);
    var v := PassTo(w, token, Done);
    if k.run in w.runs && Holds(w.runs[k.run], token) {
      if k.pc.MarkingStale? {
        StaleRunOk(v.runs[k.run]);
        PutKeeps(v, k.run, StaleRun(v.runs[k.run]), names);
        RequestKeeps(v.(runs := v.runs[k.run := StaleRun(v.runs[k.run])]), k.report, replacement, k.cap, names);
      } else if k.pc.Failing? {
        assert WorkerOk(w.history, k, names);
        FailRunOk(v.runs[k.run], token, k.pc.category, now, jitter);
        PutKeeps(v, k.run, FailRun(v.runs[k.run], token, k.pc.category, now, jitter), names);
      }
    }
  }

  lemma ReadKeeps(w: World, token: Token, step: WorkerStep, names: set<string>)
    requires Inv(w, names) && token in w.workers
    requires step.ReadReport? || step.Pick? || step.ReadProblems? || step.ReadReports?
    ensures Inv(DoWork(w, token, step, names), names)
  {
    var k := w.workers[token];
    assert WorkerOk(w.history, k, names);
    if k.pc.Claimed? && step.ReadReport? {
      if CurrentReport(w.records, k.report, k.reportVersion) {
        assert ReportKnown(w.history, k.report, w.records.reports[k.report]);
        if step.configured {
          PassKeeps(w, token, Reading(w.records.reports[k.report].text), names);
        } else {
          PassKeeps(w, token, Failing(UnsupportedVersion), names);
        }
      } else {
        PassKeeps(w, token, MarkingStale, names);
      }
    } else if k.pc.Reading? && step.Pick? {
      if k.seen.Some? {
        PassKeeps(w, token, Picked(k.pc.text, IdsOf(k.seen.value)), names);
      } else if step.found.None? {
        PassKeeps(w, token, Failing(RetrievalFailed), names);
      } else {
        PassKeeps(w, token, Picked(k.pc.text, step.found.value), names);
      }
    } else if k.pc.Picked? && step.ReadProblems? {
      var problems := LoadProblems(w.records, k.pc.ids);
      if problems.Some? {
        ProblemsFaithful(w.records, w.history, k.pc.ids);
        PassKeeps(w, token, HalfLoaded(k.pc.text, problems.value), names);
      } else {
        PassKeeps(w, token, MarkingStale, names);
      }
    } else if k.pc.HalfLoaded? && step.ReadReports? {
      LoadedKeeps(w, token, names);
    }
  }

  lemma LoadedKeeps(w: World, token: Token, names: set<string>)
    requires Inv(w, names) && token in w.workers && w.workers[token].pc.HalfLoaded?
    ensures Inv(DoWork(w, token, ReadReports, names), names)
  {
    var k := w.workers[token];
    assert WorkerOk(w.history, k, names);
    var loaded := LoadReports(w.records, k.pc.problems, k.cap);
    ReportsFaithful(w.records, w.history, k.pc.problems, k.cap);
    if k.seen.None? {
      PassKeeps(w, token, Recording(k.pc.text, loaded), names);
    } else if SnapshotOf(loaded) == k.seen.value {
      PassKeeps(w, token, Rechecking(k.pc.text, loaded), names);
    } else {
      PassKeeps(w, token, MarkingStale, names);
    }
  }

  lemma AskKeeps(w: World, token: Token, step: WorkerStep, names: set<string>)
    requires Inv(w, names) && token in w.workers && (step.Recheck? || step.Respond?)
    ensures Inv(DoWork(w, token, step, names), names)
  {
    var k := w.workers[token];
    assert WorkerOk(w.history, k, names);
    if k.pc.Rechecking? && step.Recheck? {
      if CurrentReport(w.records, k.report, k.reportVersion) {
        PassKeeps(w, token, Asking(Request(k.report, k.reportVersion, k.pc.text, Candidates(k.pc.loaded)), k.pc.loaded), names);
      } else {
        PassKeeps(w, token, MarkingStale, names);
      }
    } else if k.pc.Asking? && step.Respond? {
      if !Valid(step.answer, k.pc.request, names) {
        PassKeeps(w, token, Failing(InvalidResponse), names);
      } else if step.answer.ErrorAnswer? {
        PassKeeps(w, token, Failing(step.answer.category), names);
      } else {
        PassKeeps(w, token, Saving(k.pc.request, k.pc.loaded, step.answer), names);
      }
    }
  }

  lemma EndIs(w: World, token: Token, step: WorkerStep, names: set<string>)
    requires token in w.workers
    ensures step.Save? && w.workers[token].pc.Saving? ==> DoWork(w, token, step, names) == DoSave(w, token)
    ensures step.Save? && !w.workers[token].pc.Saving? ==> DoWork(w, token, step, names) == w
    ensures step.GiveUp? ==> DoWork(w, token, step, names) == DoGiveUp(w, token, step.now, step.jitter, step.replacement)
    ensures step.Crash? ==> DoWork(w, token, step, names) == PassTo(w, token, Done)
  {
  }

  lemma EndKeeps(w: World, token: Token, step: WorkerStep, names: set<string>)
    requires Inv(w, names) && token in w.workers && (step.Save? || step.GiveUp? || step.Crash?)
    ensures Inv(DoWork(w, token, step, names), names)
  {
    EndIs(w, token, step, names);
    match step
    case Save => if w.workers[token].pc.Saving? { SaveKeeps(w, token, names); }
    case GiveUp(now, jitter, replacement) => GiveUpKeeps(w, token, now, jitter, replacement, names);
    case Crash => PassKeeps(w, token, Done, names);
  }

  lemma WorkKeeps(w: World, token: Token, step: WorkerStep, names: set<string>)
    requires Inv(w, names) && token in w.workers
    ensures Inv(DoWork(w, token, step, names), names)
  {
    match step
    case Record => if w.workers[token].pc.Recording? { RecordingKeeps(w, token, names); }
    case Recheck => AskKeeps(w, token, step, names);
    case Respond(_) => AskKeeps(w, token, step, names);
    case Save => EndKeeps(w, token, step, names);
    case GiveUp(_, _, _) => EndKeeps(w, token, step, names);
    case Crash => EndKeeps(w, token, step, names);
    case _ => ReadKeeps(w, token, step, names);
  }

  lemma InvStep(w: World, step: Step, names: set<string>)
    requires Inv(w, names)
    ensures Inv(Apply(w, step, names), names)
  {
    match step
    case Advance(seconds) => RecordsKeep(w, w.records, w.history, names);
    case ChangeProblem(id, text, eligible) => ChangeProblemKeeps(w, id, text, eligible, names);
    case NewReport(id, text, at, run, cap) => NewReportKeeps(w, id, text, at, run, cap, names);
    case ChangeReport(id, text, isNew, problem, rerun, cap) => ChangeReportKeeps(w, id, text, isNew, problem, rerun, cap, names);
    case Claim(run, token, asOf) => ClaimKeeps(w, run, token, asOf, names);
    case Recover(run, asOf, jitter) => RecoverKeeps(w, run, asOf, jitter, names);
    case Work(token, work) => if token in w.workers { WorkKeeps(w, token, work, names); }
  }

  lemma {:induction false} RunKeeps(w: World, steps: seq<Step>, names: set<string>)
    requires Inv(w, names)
    ensures Inv(RunSteps(w, steps, names), names)
    decreases |steps|
  {
    if steps != [] {
      InvStep(w, steps[0], names);
      RunKeeps(Apply(w, steps[0], names), steps[1..], names);
    }
  }

  lemma ReachableInv(w: World, names: set<string>)
    requires Reachable(w, names)
    ensures Inv(w, names)
  {
    var steps :| RunSteps(EMPTY, steps, names) == w;
    RunKeeps(EMPTY, steps, names);
  }
}
