/** What each step of the match-run machine does, exactly: when it acts, the run and the program
    counter it leaves, and what of the records a saved run was ranked on. */
module MatchLaws {
  import opened Common
  import opened Retries
  import opened MatchContract
  import opened MatchRetrieval
  import opened MatchRuns
  import opened MatchInvariants
  import opened MatchSteps
  import opened MatchTheorems

  // ----- the check, in the words of the contract

  /** A response is acceptable exactly when its suggestions are distinct candidates of the
      request, name known features, refer to their own candidate or a report linked to it, and
      stand by falling score, then rising id. */
  lemma AcceptableExactly(s: seq<Suggestion>, offers: seq<Offer>, names: set<string>)
    ensures Acceptable(s, offers, names)
            <==> && (forall i :: 0 <= i < |s| ==>
                       && s[i].features <= names
                       && exists o :: o in offers && o.id == s[i].problem
                            && forall r :: r in s[i].evidence ==>
                                 (r.record.ProblemRecord? ==> r.id == s[i].problem) && (r.record.LinkedReportRecord? ==> r.id in o.linked))
                 && (forall i, j :: 0 <= i < j < |s| ==> s[i].problem != s[j].problem)
                 && (forall i, j :: 0 <= i < j < |s| ==>
                       s[i].score > s[j].score || (s[i].score == s[j].score && s[i].problem < s[j].problem))
  {
    if Acceptable(s, offers, names) {
      forall i | 0 <= i < |s|
        ensures exists o :: o in offers && o.id == s[i].problem
                  && forall r :: r in s[i].evidence ==>
                       (r.record.ProblemRecord? ==> r.id == s[i].problem) && (r.record.LinkedReportRecord? ==> r.id in o.linked)
      {
        assert Proper(s[i], offers, names);
        var o :| o in offers && o.id == s[i].problem && forall r :: r in s[i].evidence ==> Backed(r, s[i].problem, o.linked);
        assert forall r :: r in s[i].evidence ==> Backed(r, s[i].problem, o.linked);
      }
    }
  }

  /** The offers of a request are its candidates with the reports it shows for them. */
  lemma OffersExactly(candidates: seq<Candidate>, i: nat)
    requires i < |candidates|
    ensures |Offers(candidates)| == |candidates| && Offers(candidates)[i].id == candidates[i].id
    ensures forall x :: x in Offers(candidates)[i].linked <==> exists k :: 0 <= k < |candidates[i].linked| && candidates[i].linked[k].0 == x
  {
  }

  // ----- queueing

  /** A report that awaits triage gets a run for its version, due at once; every run of the report
      that was active is stale from then on. */
  lemma RequestExactly(w: World, report: Id, run: Id, cap: nat)
    ensures var v := RequestMatch(w, report, run, cap);
            if report in w.records.reports && w.records.reports[report].isNew && run !in w.runs
            then
              && v == w.(runs := v.runs) && v.runs.Keys == w.runs.Keys + {run}
              && v.runs[run] == MatchRun(report, w.records.reports[report].version, cap, Pending, None, "", None, 0, w.now, None, None, [])
              && forall k :: k in w.runs ==>
                   v.runs[k] == if w.runs[k].report == report && w.runs[k].state in {Pending, Running}
                                then w.runs[k].(state := Stale, failure := Some(StaleSnapshot), lease := None, leaseExpires := None)
                                else w.runs[k]
            else v == w
  {
  }

  /** A change of a record is a new version of it, and the text is remembered for that version. */
  lemma ChangesExactly(w: World, id: Id, text: string, eligible: bool, names: set<string>)
    ensures var v := Apply(w, ChangeProblem(id, text, eligible), names);
            var version := if id in w.records.problems then w.records.problems[id].version + 1 else 1;
            && v == w.(records := w.records.(problems := w.records.problems[id := Problem(version, text, eligible)]), history := v.history)
            && v.history.reports == w.history.reports && v.history.problems == w.history.problems[(id, version) := text]
  {
  }

  function WithReport(w: World, id: Id, report: Report, order: seq<Id>): World {
    w.(records := Records(w.records.problems, w.records.reports[id := report], order),
       history := History(w.history.problems, w.history.reports[(id, report.version) := report.text]))
  }

  /** A new report starts at version 1 and is matched; a changed one counts a version, and is
      matched again when the change asks for it. */
  lemma ReportsExactly(w: World, id: Id, text: string, at: nat, run: Id, cap: nat, isNew: bool, problem: Option<Id>, rerun: Option<Id>,
                       names: set<string>)
    ensures Apply(w, NewReport(id, text, at, run, cap), names)
            == if id in w.records.reports || id in w.records.order || at > |w.records.order| then w
               else RequestMatch(WithReport(w, id, Report(1, text, true, None), w.records.order[..at] + [id] + w.records.order[at..]),
                                 id, run, cap)
    ensures Apply(w, ChangeReport(id, text, isNew, problem, rerun, cap), names)
            == if id !in w.records.reports then w
               else
                 var v := WithReport(w, id, Report(w.records.reports[id].version + 1, text, isNew, problem), w.records.order);
                 if rerun.None? then v else RequestMatch(v, id, rerun.value, cap)
  {
  }

  // ----- claims, failures, recovery

  lemma ClaimExactly(w: World, run: Id, token: Token, asOf: Time, names: set<string>)
    requires run in w.runs && token !in w.workers && asOf <= w.now
    ensures var r := w.runs[run];
            Apply(w, Claim(run, token, asOf), names)
            == if r.state == Pending && r.dueAt <= asOf
               then w.(runs := w.runs[run := r.(state := Running, attempts := r.attempts + 1, lease := Some(token),
                                                leaseExpires := Some(asOf + 120))],
                       workers := w.workers[token := Worker(run, r.report, r.reportVersion, r.cap, r.candidates, Claimed)])
               else w
  {
  }

  /** A failed attempt is tried again, after the wait, for a failed retrieval, process or a timeout
      before the third claim; any other failure is final. */
  lemma FailedExactly(r: MatchRun, token: Token, category: Category, now: Time, jitter: nat)
    requires RunOk(r)
    ensures var f := FailRun(r, token, category, now, jitter);
            if r.state != Running || r.lease != Some(token) then f == r
            else if (category == RetrievalFailed || category == ProcessFailed || category == Timeout) && r.attempts < 3
            then f == r.(state := Pending, dueAt := f.dueAt, lease := None, leaseExpires := None) && Waits(f.dueAt - now, r.attempts, None)
            else f == r.(state := Failed, failure := Some(category), lease := None, leaseExpires := None)
  {
    if Holds(r, token) {
      DelayWaits(r.attempts, None, now, jitter);
    }
  }

  /** Exactly a lease that ran out before the clock reading is failed, as a failed process. */
  lemma RecoverExactly(w: World, run: Id, asOf: Time, jitter: nat, names: set<string>)
    requires Inv(w, names) && run in w.runs
    ensures var r := w.runs[run];
            Apply(w, Recover(run, asOf, jitter), names)
            == if r.state == Running && r.leaseExpires.value < asOf
               then w.(runs := w.runs[run := FailRun(r, r.lease.value, ProcessFailed, asOf, jitter)]) else w
  {
    assert RunOk(w.runs[run]);
  }

  // ----- one worker

  predicate Leased(w: World, k: Worker, token: Token) {
    k.run in w.runs && w.runs[k.run].state == Running && w.runs[k.run].lease == Some(token)
  }

  predicate StillNew(w: World, k: Worker) {
    k.report in w.records.reports && w.records.reports[k.report].version == k.reportVersion && w.records.reports[k.report].isNew
  }

  function At(w: World, token: Token, pc: Pc): World
    requires token in w.workers
  {
    w.(workers := w.workers[token := w.workers[token].(pc := pc)])
  }

  /** The first reading: the report must be as the run was queued for, its configuration known. */
  lemma ReadReportExactly(w: World, token: Token, configured: bool, names: set<string>)
    requires token in w.workers && w.workers[token].pc.Claimed?
    ensures var k := w.workers[token];
            Apply(w, Work(token, ReadReport(configured)), names)
            == At(w, token, if !StillNew(w, k) then MarkingStale
                            else if !configured then Failing(UnsupportedVersion)
                            else Reading(w.records.reports[k.report].text))
  {
  }

  /** A retry ranks the candidates of the recorded snapshot; only a first attempt searches. */
  lemma PickExactly(w: World, token: Token, found: Option<seq<Id>>, names: set<string>)
    requires token in w.workers && w.workers[token].pc.Reading?
    ensures var k := w.workers[token];
            Apply(w, Work(token, Pick(found)), names)
            == At(w, token, if k.seen.Some? then Picked(k.pc.text, seq(|k.seen.value|, i requires 0 <= i < |k.seen.value| => k.seen.value[i].id))
                            else if found.None? then Failing(RetrievalFailed)
                            else Picked(k.pc.text, found.value))
  {
    var k := w.workers[token];
    if k.seen.Some? {
      assert IdsOf(k.seen.value) == seq(|k.seen.value|, i requires 0 <= i < |k.seen.value| => k.seen.value[i].id);
    }
  }

  /** The candidates are read in two queries; a retry goes on only with the recorded versions. */
  lemma LoadingExactly(w: World, token: Token, names: set<string>)
    requires token in w.workers
    ensures var k := w.workers[token];
            && (k.pc.Picked? ==>
                  var problems := LoadProblems(w.records, k.pc.ids);
                  Apply(w, Work(token, ReadProblems), names)
                  == At(w, token, if problems.None? then MarkingStale else HalfLoaded(k.pc.text, problems.value)))
            && (k.pc.HalfLoaded? ==>
                  var loaded := LoadReports(w.records, k.pc.problems, k.cap);
                  Apply(w, Work(token, ReadReports), names)
                  == At(w, token, if k.seen.None? then Recording(k.pc.text, loaded)
                                  else if SnapshotOf(loaded) == k.seen.value then Rechecking(k.pc.text, loaded) else MarkingStale))
  {
  }

  /** The snapshot is recorded once, under the lease, and the worker keeps a copy. */
  lemma RecordExactly(w: World, token: Token, names: set<string>)
    requires token in w.workers && w.workers[token].pc.Recording?
    ensures var k := w.workers[token];
            var snapshot := Some(SnapshotOf(k.pc.loaded));
            Apply(w, Work(token, Record), names)
            == if !Leased(w, k, token) then At(w, token, MarkingStale)
               else w.(runs := w.runs[k.run := w.runs[k.run].(candidates := snapshot)],
                       workers := w.workers[token := k.(seen := snapshot, pc := Rechecking(k.pc.text, k.pc.loaded))])
  {
  }

  /** The matcher is asked only about a report that is still as queued, with what was loaded; its
      answer is checked against that very request. */
  lemma AskExactly(w: World, token: Token, answer: Answer, names: set<string>)
    requires token in w.workers
    ensures var k := w.workers[token];
            && (k.pc.Rechecking? ==>
                  Apply(w, Work(token, Recheck), names)
                  == At(w, token, if !StillNew(w, k) then MarkingStale
                                  else Asking(Request(k.report, k.reportVersion, k.pc.text, Candidates(k.pc.loaded)), k.pc.loaded)))
            && (k.pc.Asking? ==>
                  Apply(w, Work(token, Respond(answer)), names)
                  == At(w, token, match answer
                                  case RankedAnswer(s) =>
                                    if Acceptable(s, Offers(k.pc.request.candidates), names)
                                    then Saving(k.pc.request, k.pc.loaded, answer) else Failing(InvalidResponse)
                                  case AbstainAnswer(reason) =>
                                    if reason in {"no_candidates", "below_threshold", "insufficient_margin"}
                                       && (reason == "no_candidates" <==> k.pc.request.candidates == [])
                                    then Saving(k.pc.request, k.pc.loaded, answer) else Failing(InvalidResponse)
                                  case ErrorAnswer(category) =>
                                    Failing(if category.StaleSnapshot? then InvalidResponse else category)))
  {
  }

  /** What the save compares: the report as queued, and the recorded versions as they are now. */
  predicate Current(w: World, k: Worker) {
    && StillNew(w, k) && k.seen.Some?
    && var now := LoadCandidates(w.records, IdsOf(k.seen.value), k.cap);
       now.Some? && SnapshotOf(now.value) == k.seen.value
  }

  /** A run is saved exactly under its lease while everything it was ranked on is current: with the
      suggestions in rank order or with the reason to abstain. */
  lemma SaveExactly(w: World, token: Token, names: set<string>)
    requires token in w.workers && w.workers[token].pc.Saving? && !w.workers[token].pc.answer.ErrorAnswer?
    ensures var k := w.workers[token];
            Apply(w, Work(token, Save), names)
            == if !Leased(w, k, token) then At(w, token, Done)
               else if !Current(w, k) then At(w, token, MarkingStale)
               else
                 var free := w.runs[k.run].(lease := None, leaseExpires := None);
                 At(w, token, Done).(
                   runs := w.runs[k.run := match k.pc.answer
                                           case RankedAnswer(s) => free.(state := Ranked, suggestions := s)
                                           case AbstainAnswer(reason) => free.(state := Abstained, abstainReason := reason)
                                           case ErrorAnswer(_) => free])
  {
  }

  /** Giving up writes only under the lease: a stale run is marked, and the report queued again if
      it still awaits triage; a failed one is settled as its category says. */
  lemma GiveUpExactly(w: World, token: Token, now: Time, jitter: nat, replacement: Id, names: set<string>)
    requires token in w.workers && (w.workers[token].pc.MarkingStale? || w.workers[token].pc.Failing?)
    ensures var k, v := w.workers[token], At(w, token, Done);
            Apply(w, Work(token, GiveUp(now, jitter, replacement)), names)
            == if !Leased(w, k, token) then v
               else if k.pc.Failing? then v.(runs := w.runs[k.run := FailRun(w.runs[k.run], token, k.pc.category, now, jitter)])
               else RequestMatch(v.(runs := w.runs[k.run := w.runs[k.run].(state := Stale, failure := Some(StaleSnapshot),
                                                                           lease := None, leaseExpires := None)]),
                                 k.report, replacement, k.cap)
    ensures Apply(w, Work(token, Crash), names) == At(w, token, Done)
  {
  }

  // ----- the order of reports

  /** The order lists every report once. */
  ghost predicate OrderOk(r: Records) {
    && (forall i, j :: 0 <= i < j < |r.order| ==> r.order[i] != r.order[j])
    && (forall x :: x in r.reports <==> x in r.order)
  }

  lemma OrderStep(w: World, step: Step, names: set<string>)
    requires OrderOk(w.records)
    ensures OrderOk(Apply(w, step, names).records)
  {
    match step
    case NewReport(id, text, at, run, cap) =>
      if id !in w.records.reports && at <= |w.records.order| {
        InsertedOrder(w.records.order, at, id);
      }
    case Work(token, work) =>
      if token in w.workers {
        WorkKeepsRecords(w, token, work, names);
      }
    case _ =>
  }

  lemma WorkKeepsRecords(w: World, token: Token, work: WorkerStep, names: set<string>)
    requires token in w.workers
    ensures DoWork(w, token, work, names).records == w.records
  {
  }

  lemma InsertedOrder(order: seq<Id>, at: nat, id: Id)
    requires Distinct(order) && id !in order && at <= |order|
    ensures Distinct(order[..at] + [id] + order[at..])
    ensures forall x :: x in order[..at] + [id] + order[at..] <==> x in order || x == id
  {
    var head, tail := order[..at], order[at..];
    var after := head + [id] + tail;
    assert order == head + tail;
    assert forall x :: x in after <==> x in head || x in tail || x == id;
    forall i, j | 0 <= i < j < |after|
      ensures after[i] != after[j]
    {
      assert i < at ==> after[i] == order[i];
      assert i > at ==> after[i] == order[i - 1];
      assert j < at ==> after[j] == order[j];
      assert j > at ==> after[j] == order[j - 1];
    }
  }

  lemma {:induction false} RunKeepsOrder(w: World, steps: seq<Step>, names: set<string>)
    requires OrderOk(w.records)
    ensures OrderOk(RunSteps(w, steps, names).records)
    decreases |steps|
  {
    if steps != [] {
      OrderStep(w, steps[0], names);
      RunKeepsOrder(Apply(w, steps[0], names), steps[1..], names);
    }
  }

  // ----- what a saved run was ranked on

  /** The candidate shows the problem as it is, with its newest linked reports, texts included. */
  ghost predicate ShowsNow(r: Records, cap: nat, c: Candidate) {
    && c.id in r.problems && r.problems[c.id].eligible && c.version == r.problems[c.id].version && c.text == r.problems[c.id].text
    && exists s: seq<Item> :: Newest(r, r.order, c.id, cap, s) && |s| == |c.linked| && forall j :: 0 <= j < |s| ==> c.linked[j] == (s[j].id, s[j].text)
  }

  /** When a save ends a run, the request that was sent shows the report and each candidate as
      they are at that moment: their versions and texts, and the newest reports linked to each,
      most recent first, left out only for the cap. */
  lemma SavedRequestShowsNow(w: World, token: Token, names: set<string>)
    requires Reachable(w, names) && token in w.workers && w.workers[token].pc.Saving?
    requires w.workers[token].run in w.runs && DoSave(w, token).runs[w.workers[token].run].state in {Ranked, Abstained}
    requires w.runs[w.workers[token].run].state == Running
    ensures var k, r := w.workers[token], w.records;
            && k.report in r.reports && r.reports[k.report].isNew
            && k.pc.request.report == k.report && k.pc.request.version == r.reports[k.report].version
            && k.pc.request.text == r.reports[k.report].text
            && forall i :: 0 <= i < |k.pc.request.candidates| ==> ShowsNow(r, k.cap, k.pc.request.candidates[i])
  {
    SavedRequestIsCurrent(w, token, names);
    var k, r := w.workers[token], w.records;
    var ids := IdsOf(k.seen.value);
    var loaded := LoadCandidates(r, ids, k.cap).value;
    var steps :| RunSteps(EMPTY, steps, names) == w;
    RunKeepsOrder(EMPTY, steps, names);
    LoadExactly(r, ids, k.cap);
    forall i | 0 <= i < |loaded|
      ensures ShowsNow(r, k.cap, Candidates(loaded)[i])
    {
      SplitExactly(loaded, i);
      assert Newest(r, r.order, ids[i], k.cap, loaded[i].linked);
    }
  }
}
