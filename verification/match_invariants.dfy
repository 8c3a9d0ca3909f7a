/** What every reachable state of the match-run machine satisfies. */
module MatchInvariants {
  import opened Common
  import opened Retries
  import opened MatchContract
  import opened MatchRetrieval
  import opened MatchRuns

  // ----- one run

  /** The database's constraints on failures and abstentions. */
  predicate Constrained(r: MatchRun) {
    && (r.state == Stale <==> r.failure == Some(StaleSnapshot))
    && (r.state == Failed <==> r.failure.Some? && r.failure != Some(StaleSnapshot))
    && (r.state == Abstained <==> r.abstainReason != "")
  }

  predicate LeaseRule(r: MatchRun) {
    && r.attempts <= MAX_CLAIMS
    && (r.state == Pending ==> r.attempts < MAX_CLAIMS)
    && (r.state == Running <==> r.lease.Some?) && (r.lease.Some? <==> r.leaseExpires.Some?)
    && (r.state == Running ==> r.attempts >= 1)
  }

  predicate Strict(s: seq<Suggestion>) {
    forall i, j :: 0 <= i < j < |s| ==> StrictlyBefore(s[i], s[j])
  }

  predicate DistinctProblems(s: seq<Suggestion>) {
    forall i, j :: 0 <= i < j < |s| ==> s[i].problem != s[j].problem
  }

  ghost predicate IsCandidate(snapshot: Snapshot, id: Id) {
    exists c :: c in snapshot && c.id == id
  }

  /** Saved suggestions are strictly ordered candidates of the recorded snapshot. */
  ghost predicate SuggestionsOk(r: MatchRun) {
    && (r.suggestions != [] ==> r.state == Ranked && r.candidates.Some?)
    && Strict(r.suggestions) && DistinctProblems(r.suggestions)
    && forall i :: 0 <= i < |r.suggestions| ==> IsCandidate(r.candidates.value, r.suggestions[i].problem)
  }

  ghost predicate RunOk(r: MatchRun) {
    Constrained(r) && LeaseRule(r) && SuggestionsOk(r)
  }

  // ----- texts and versions

  predicate ProblemKnown(h: History, id: Id, p: Problem) {
    (id, p.version) in h.problems && h.problems[(id, p.version)] == p.text
  }

  predicate ReportKnown(h: History, id: Id, r: Report) {
    (id, r.version) in h.reports && h.reports[(id, r.version)] == r.text
  }

  /** Current texts are remembered, and no version from the future is. */
  ghost predicate HistoryOk(r: Records, h: History) {
    && (forall id :: id in r.problems ==> ProblemKnown(h, id, r.problems[id]))
    && (forall id :: id in r.reports ==> ReportKnown(h, id, r.reports[id]))
    && (forall k :: k in h.problems ==> k.0 in r.problems && k.1 <= r.problems[k.0].version)
    && (forall k :: k in h.reports ==> k.0 in r.reports && k.1 <= r.reports[k.0].version)
  }

  ghost predicate HistoryGrows(h: History, g: History) {
    && (forall k :: k in h.problems ==> k in g.problems && g.problems[k] == h.problems[k])
    && (forall k :: k in h.reports ==> k in g.reports && g.reports[k] == h.reports[k])
  }

  predicate AllFaithful(h: History, loaded: seq<Loaded>) {
    forall i :: 0 <= i < |loaded| ==> Faithful(h, loaded[i])
  }

  predicate ItemsFaithful(h: History, items: seq<Item>) {
    forall i :: 0 <= i < |items| ==>
      (items[i].id, items[i].version) in h.problems && h.problems[(items[i].id, items[i].version)] == items[i].text
  }

  predicate TextKnown(h: History, k: Worker, text: string) {
    (k.report, k.reportVersion) in h.reports && h.reports[(k.report, k.reportVersion)] == text
  }

  // ----- workers

  /** The request says what was loaded, and the worker's snapshot is of the same reading. */
  predicate RequestOk(h: History, k: Worker, request: Request, loaded: seq<Loaded>) {
    && TextKnown(h, k, request.text) && AllFaithful(h, loaded) && k.seen == Some(SnapshotOf(loaded))
    && request == Request(k.report, k.reportVersion, request.text, Candidates(loaded))
  }

  ghost predicate WorkerOk(h: History, k: Worker, names: set<string>) {
    match k.pc
    case Claimed => true
    case Reading(text) => TextKnown(h, k, text)
    case Picked(text, _) => TextKnown(h, k, text)
    case HalfLoaded(text, problems) => TextKnown(h, k, text) && ItemsFaithful(h, problems)
    case Recording(text, loaded) => TextKnown(h, k, text) && AllFaithful(h, loaded)
    case Rechecking(text, loaded) => TextKnown(h, k, text) && AllFaithful(h, loaded) && k.seen == Some(SnapshotOf(loaded))
    case Asking(request, loaded) => RequestOk(h, k, request, loaded)
    case Saving(request, loaded, answer) => RequestOk(h, k, request, loaded) && Valid(answer, request, names) && !answer.ErrorAnswer?
    case MarkingStale => true
    case Failing(category) => category != StaleSnapshot
    case Done => true
  }

  /** The worker that holds a run's lease works on that run as it stands. */
  predicate HolderOk(r: MatchRun, id: Id, k: Worker) {
    k.run == id && k.report == r.report && k.reportVersion == r.reportVersion && k.cap == r.cap && k.seen == r.candidates
  }

  predicate LeaseKnown(w: World, id: Id) {
    id in w.runs && w.runs[id].lease.Some? ==>
      w.runs[id].lease.value in w.workers && HolderOk(w.runs[id], id, w.workers[w.runs[id].lease.value])
  }

  ghost predicate RunsOk(w: World) {
    forall id :: id in w.runs ==> RunOk(w.runs[id]) && LeaseKnown(w, id)
  }

  ghost predicate OneActive(runs: map<Id, MatchRun>) {
    forall a, b :: a in runs && b in runs && Active(runs[a]) && Active(runs[b]) && runs[a].report == runs[b].report ==> a == b
  }

  ghost predicate WorkersOk(w: World, names: set<string>) {
    forall t :: t in w.workers ==> WorkerOk(w.history, w.workers[t], names)
  }

  ghost predicate Inv(w: World, names: set<string>) {
    RunsOk(w) && OneActive(w.runs) && WorkersOk(w, names) && HistoryOk(w.records, w.history)
  }

  // ----- reading is faithful

  lemma {:induction false} LinkedFaithful(r: Records, h: History, order: seq<Id>, id: Id, cap: nat)
    requires HistoryOk(r, h)
    ensures var s := Linked(r, order, id, cap);
            forall i :: 0 <= i < |s| ==> (s[i].id, s[i].version) in h.reports && h.reports[(s[i].id, s[i].version)] == s[i].text
    decreases |order|
  {
    var s := Linked(r, order, id, cap);
    forall i | 0 <= i < |s|
      ensures (s[i].id, s[i].version) in h.reports && h.reports[(s[i].id, s[i].version)] == s[i].text
    {
      assert s[i] in s;
      assert ReportKnown(h, s[i].id, r.reports[s[i].id]);
    }
  }

  lemma ProblemsFaithful(r: Records, h: History, ids: seq<Id>)
    requires HistoryOk(r, h) && LoadProblems(r, ids).Some?
    ensures ItemsFaithful(h, LoadProblems(r, ids).value)
  {
    var items := LoadProblems(r, ids).value;
    forall i | 0 <= i < |items|
      ensures (items[i].id, items[i].version) in h.problems && h.problems[(items[i].id, items[i].version)] == items[i].text
    {
      assert ProblemKnown(h, ids[i], r.problems[ids[i]]);
    }
  }

  lemma ReportsFaithful(r: Records, h: History, problems: seq<Item>, cap: nat)
    requires HistoryOk(r, h) && ItemsFaithful(h, problems)
    ensures AllFaithful(h, LoadReports(r, problems, cap))
  {
    forall i | 0 <= i < |problems|
      ensures Faithful(h, LoadReports(r, problems, cap)[i])
    {
      LinkedFaithful(r, h, r.order, problems[i].id, cap);
    }
  }

  lemma WorkerGrows(h: History, g: History, k: Worker, names: set<string>)
    requires WorkerOk(h, k, names) && HistoryGrows(h, g)
    ensures WorkerOk(g, k, names)
  {
  }
}
