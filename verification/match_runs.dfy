/** Match runs: queue with the report's change, rank in a worker, save only what is current.
    Each step is one transaction, one unlocked read, or the matcher's answer. */
module MatchRuns {
  import opened Common
  import opened Retries
  import opened MatchContract
  import opened MatchRetrieval

  datatype State = Pending | Running | Ranked | Abstained | Failed | Stale

  /** The failures of a run. The adapter never reports a stale snapshot: only the run does. */
  datatype Category =
    | RetrievalFailed | InvalidRequest | UnsupportedVersion | ExecutableMissing
    | ProcessFailed | Timeout | InvalidResponse
    | StaleSnapshot

  const LEASE := 120
  const MAX_CLAIMS := 3

  predicate Transient(c: Category) {
    c in {RetrievalFailed, ProcessFailed, Timeout}
  }

  datatype MatchRun = MatchRun(
    report: Id,
    reportVersion: nat,
    cap: nat,
    state: State,
    failure: Option<Category>,
    abstainReason: string,
    candidates: Option<Snapshot>,
    attempts: nat,
    dueAt: Time,
    lease: Option<Token>,
    leaseExpires: Option<Time>,
    suggestions: seq<Suggestion>)

  predicate Active(r: MatchRun) {
    r.state in {Pending, Running}
  }

  // ----- the row, transaction by transaction

  function NewRun(report: Id, version: nat, cap: nat, now: Time): MatchRun {
    MatchRun(report, version, cap, Pending, None, "", None, 0, now, None, None, [])
  }

  function Released(r: MatchRun): MatchRun {
    r.(lease := None, leaseExpires := None)
  }

  function StaleRun(r: MatchRun): MatchRun {
    Released(r).(state := Stale, failure := Some(StaleSnapshot))
  }

  predicate Claimable(r: MatchRun, asOf: Time) {
    r.state == Pending && r.dueAt <= asOf
  }

  function ClaimRun(r: MatchRun, token: Token, asOf: Time): MatchRun {
    if !Claimable(r, asOf) then r
    else r.(state := Running, attempts := r.attempts + 1, lease := Some(token), leaseExpires := Some(asOf + LEASE))
  }

  predicate Holds(r: MatchRun, token: Token) {
    r.state == Running && r.lease == Some(token)
  }

  function RecordRun(r: MatchRun, token: Token, snapshot: Snapshot): MatchRun {
    if Holds(r, token) then r.(candidates := Some(snapshot)) else r
  }

  /** What the matcher answered, checked against the request. */
  datatype Answer = RankedAnswer(suggestions: seq<Suggestion>) | AbstainAnswer(reason: string) | ErrorAnswer(category: Category)

  function SaveRun(r: MatchRun, token: Token, answer: Answer): MatchRun {
    if !Holds(r, token) then r
    else
      match answer
      case RankedAnswer(suggestions) => Released(r).(state := Ranked, suggestions := suggestions)
      case AbstainAnswer(reason) => Released(r).(state := Abstained, abstainReason := reason)
      case ErrorAnswer(_) => r
  }

  function MarkStaleRun(r: MatchRun, token: Token): MatchRun {
    if Holds(r, token) then StaleRun(r) else r
  }

  /** _fail: a transient failure is retried until the third claim. */
  function FailRun(r: MatchRun, token: Token, category: Category, now: Time, jitter: nat): MatchRun {
    if !Holds(r, token) then r
    else if Transient(category) && r.attempts < MAX_CLAIMS then
      Released(r).(state := Pending,
                   dueAt := Delay(r.attempts, None, now, jitter))
    else Released(r).(state := Failed, failure := Some(category))
  }

  // ----- workers

  datatype Request = Request(report: Id, version: nat, text: string, candidates: seq<Candidate>)

  /** Where one execute_run stands. `text` is the report as first read. */
  datatype Pc =
    | Claimed
    | Reading(text: string)
    | Picked(text: string, ids: seq<Id>)
    | HalfLoaded(text: string, problems: seq<Item>)
    | Recording(text: string, loaded: seq<Loaded>)
    | Rechecking(text: string, loaded: seq<Loaded>)
    | Asking(request: Request, loaded: seq<Loaded>)
    | Saving(request: Request, loaded: seq<Loaded>, answer: Answer)
    | MarkingStale
    | Failing(category: Category)
    | Done

  /** `seen` is the worker's copy of the run's recorded snapshot. */
  datatype Worker = Worker(run: Id, report: Id, reportVersion: nat, cap: nat, seen: Option<Snapshot>, pc: Pc)

  datatype World = World(
    now: Time,
    records: Records,
    history: History,
    runs: map<Id, MatchRun>,
    workers: map<Token, Worker>)

  const EMPTY := World(0, Records(map[], map[], []), History(map[], map[]), map[], map[])

  datatype WorkerStep =
    | ReadReport(configured: bool)
    | Pick(found: Option<seq<Id>>)
    | ReadProblems
    | ReadReports
    | Record
    | Recheck
    | Respond(answer: Answer)
    | Save
    | GiveUp(now: Time, jitter: nat, replacement: Id)
    | Crash

  datatype Step =
    | Advance(seconds: nat)
    | ChangeProblem(id: Id, text: string, eligible: bool)
    | NewReport(id: Id, text: string, at: nat, run: Id, cap: nat)
    | ChangeReport(id: Id, text: string, isNew: bool, problem: Option<Id>, rerun: Option<Id>, cap: nat)
    | Claim(run: Id, token: Token, asOf: Time)
    | Recover(run: Id, asOf: Time, jitter: nat)
    | Work(token: Token, work: WorkerStep)

  function Superseded(runs: map<Id, MatchRun>, report: Id): map<Id, MatchRun> {
    map k | k in runs :: if runs[k].report == report && Active(runs[k]) then StaleRun(runs[k]) else runs[k]
  }

  /** request_match: supersede the report's active runs, then queue one for its version. */
  function RequestMatch(w: World, report: Id, run: Id, cap: nat): World {
    if report !in w.records.reports || run in w.runs || !w.records.reports[report].isNew then w
    else w.(runs := Superseded(w.runs, report)[run := NewRun(report, w.records.reports[report].version, cap, w.now)])
  }

  predicate CurrentReport(r: Records, report: Id, version: nat) {
    report in r.reports && r.reports[report].version == version && r.reports[report].isNew
  }

  const REASONS: set<string> := {"no_candidates", "below_threshold", "insufficient_margin"}

  /** An answer that run_matcher lets through: an error category of the adapter's, an abstention
      with a reason, which names an empty pool exactly when the pool is empty, or a ranking that
      the check accepts for the request. */
  ghost predicate Valid(answer: Answer, request: Request, names: set<string>) {
    match answer
    case RankedAnswer(s) => Acceptable(s, Offers(request.candidates), names)
    case AbstainAnswer(reason) => reason in REASONS && (reason == "no_candidates" <==> request.candidates == [])
    case ErrorAnswer(category) => category != StaleSnapshot
  }

  function Offers(candidates: seq<Candidate>): seq<Offer> {
    seq(|candidates|, i requires 0 <= i < |candidates| =>
      Offer(candidates[i].id, set k | 0 <= k < |candidates[i].linked| :: candidates[i].linked[k].0))
  }

  function PassTo(w: World, token: Token, pc: Pc): World
    requires token in w.workers
  {
    w.(workers := w.workers[token := w.workers[token].(pc := pc)])
  }

  /** Whether the save finds the report and the snapshot as the worker left them. */
  predicate StillCurrent(w: World, k: Worker) {
    && CurrentReport(w.records, k.report, k.reportVersion)
    && k.seen.Some?
    && var current := LoadCandidates(w.records, IdsOf(k.seen.value), k.cap);
       current.Some? && SnapshotOf(current.value) == k.seen.value
  }

  function DoSave(w: World, token: Token): World
    requires token in w.workers && w.workers[token].pc.Saving?
  {
    var k := w.workers[token];
    if k.run !in w.runs || !Holds(w.runs[k.run], token) then PassTo(w, token, Done)
    else if !StillCurrent(w, k) then PassTo(w, token, MarkingStale)
    else PassTo(w.(runs := w.runs[k.run := SaveRun(w.runs[k.run], token, k.pc.answer)]), token, Done)
  }

  function DoGiveUp(w: World, token: Token, now: Time, jitter: nat, replacement: Id): World
    requires token in w.workers
  {
    var k := w.workers[token];
    var v := PassTo(w, token, Done);
    if k.run !in w.runs || !Holds(w.runs[k.run], token) then v
    else
      match k.pc
      case MarkingStale =>
        RequestMatch(v.(runs := v.runs[k.run := StaleRun(v.runs[k.run])]), k.report, replacement, k.cap)
      case Failing(category) => v.(runs := v.runs[k.run := FailRun(v.runs[k.run], token, category, now, jitter)])
      case _ => w
  }

  ghost function DoWork(w: World, token: Token, step: WorkerStep, names: set<string>): World
    requires token in w.workers
  {
    var k := w.workers[token];
    match (k.pc, step)
    case (Claimed, ReadReport(configured)) =>
      if !CurrentReport(w.records, k.report, k.reportVersion) then PassTo(w, token, MarkingStale)
      else if !configured then PassTo(w, token, Failing(UnsupportedVersion))
      else PassTo(w, token, Reading(w.records.reports[k.report].text))
    case (Reading(text), Pick(found)) =>
      if k.seen.Some? then PassTo(w, token, Picked(text, IdsOf(k.seen.value)))
      else if found.None? then PassTo(w, token, Failing(RetrievalFailed))
      else PassTo(w, token, Picked(text, found.value))
    case (Picked(text, ids), ReadProblems) =>
      var problems := LoadProblems(w.records, ids);
      PassTo(w, token, if problems.None? then MarkingStale else HalfLoaded(text, problems.value))
    case (HalfLoaded(text, problems), ReadReports) =>
      var loaded := LoadReports(w.records, problems, k.cap);
      if k.seen.None? then PassTo(w, token, Recording(text, loaded))
      else PassTo(w, token, if SnapshotOf(loaded) == k.seen.value then Rechecking(text, loaded) else MarkingStale)
    case (Recording(text, loaded), Record) =>
      if k.run !in w.runs || !Holds(w.runs[k.run], token) then PassTo(w, token, MarkingStale)
      else
        var snapshot := SnapshotOf(loaded);
        w.(runs := w.runs[k.run := RecordRun(w.runs[k.run], token, snapshot)],
           workers := w.workers[token := k.(seen := Some(snapshot), pc := Rechecking(text, loaded))])
    case (Rechecking(text, loaded), Recheck) =>
      if !CurrentReport(w.records, k.report, k.reportVersion) then PassTo(w, token, MarkingStale)
      else PassTo(w, token, Asking(Request(k.report, k.reportVersion, text, Candidates(loaded)), loaded))
    case (Asking(request, loaded), Respond(answer)) =>
      if !Valid(answer, request, names) then PassTo(w, token, Failing(InvalidResponse))
      else if answer.ErrorAnswer? then PassTo(w, token, Failing(answer.category))
      else PassTo(w, token, Saving(request, loaded, answer))
    case (Saving(_, _, _), Save) => DoSave(w, token)
    case (_, GiveUp(now, jitter, replacement)) => DoGiveUp(w, token, now, jitter, replacement)
    case (_, Crash) => PassTo(w, token, Done)
    case _ => w
  }

  // ----- members and the sweep

  function DoChangeProblem(w: World, id: Id, text: string, eligible: bool): World {
    var version := if id in w.records.problems then w.records.problems[id].version + 1 else 1;
    w.(records := w.records.(problems := w.records.problems[id := Problem(version, text, eligible)]),
       history := History(w.history.problems[(id, version) := text], w.history.reports))
  }

  /** Write a report's new version and remember its text. */
  function WriteReport(w: World, id: Id, report: Report, order: seq<Id>): World {
    w.(records := Records(w.records.problems, w.records.reports[id := report], order),
       history := History(w.history.problems, w.history.reports[(id, report.version) := report.text]))
  }

  function DoNewReport(w: World, id: Id, text: string, at: nat, run: Id, cap: nat): World {
    if id in w.records.reports || id in w.records.order || at > |w.records.order| then w
    else
      RequestMatch(WriteReport(w, id, Report(1, text, true, None), w.records.order[..at] + [id] + w.records.order[at..]), id, run, cap)
  }

  function DoChangeReport(w: World, id: Id, text: string, isNew: bool, problem: Option<Id>, rerun: Option<Id>, cap: nat): World {
    if id !in w.records.reports then w
    else
      Rerun(WriteReport(w, id, Report(w.records.reports[id].version + 1, text, isNew, problem), w.records.order), id, rerun, cap)
  }

  function Rerun(w: World, report: Id, run: Option<Id>, cap: nat): World {
    if run.None? then w else RequestMatch(w, report, run.value, cap)
  }

  function DoClaim(w: World, run: Id, token: Token, asOf: Time): World {
    if run !in w.runs || token in w.workers || asOf > w.now || !Claimable(w.runs[run], asOf) then w
    else
      var r := ClaimRun(w.runs[run], token, asOf);
      w.(runs := w.runs[run := r],
         workers := w.workers[token := Worker(run, r.report, r.reportVersion, r.cap, r.candidates, Claimed)])
  }

  /** recover_runs fails an abandoned lease for the worker that held it. */
  function DoRecover(w: World, run: Id, asOf: Time, jitter: nat): World {
    if run !in w.runs || w.runs[run].state != Running || w.runs[run].lease.None? || w.runs[run].leaseExpires.None?
       || w.runs[run].leaseExpires.value >= asOf
    then w
    else w.(runs := w.runs[run := FailRun(w.runs[run], w.runs[run].lease.value, ProcessFailed, asOf, jitter)])
  }

  ghost function Apply(w: World, step: Step, names: set<string>): World {
    match step
    case Advance(seconds) => w.(now := w.now + seconds)
    case ChangeProblem(id, text, eligible) => DoChangeProblem(w, id, text, eligible)
    case NewReport(id, text, at, run, cap) => DoNewReport(w, id, text, at, run, cap)
    case ChangeReport(id, text, isNew, problem, rerun, cap) => DoChangeReport(w, id, text, isNew, problem, rerun, cap)
    case Claim(run, token, asOf) => DoClaim(w, run, token, asOf)
    case Recover(run, asOf, jitter) => DoRecover(w, run, asOf, jitter)
    case Work(token, work) => if token in w.workers then DoWork(w, token, work, names) else w
  }

  ghost function RunSteps(w: World, steps: seq<Step>, names: set<string>): World
    decreases |steps|
  {
    if steps == [] then w else RunSteps(Apply(w, steps[0], names), steps[1..], names)
  }

  ghost predicate Reachable(w: World, names: set<string>) {
    exists steps :: RunSteps(EMPTY, steps, names) == w
  }
}
