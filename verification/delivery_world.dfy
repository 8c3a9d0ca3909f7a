/** Reports, problems, follow-ups, notifications and Slack workers as one state machine.
    Every `Step` is one database transaction or one call to Slack; `Apply` performs it, and a
    transaction that the source refuses or rolls back leaves the world as it was. */
module DeliveryWorld {
  import opened Common
  import opened Transitions
  import opened Notifications

  datatype Problem = Problem(
    state: ProblemState,
    revision: nat,
    confirmedAt: Option<Time>,
    needsReview: bool,
    version: nat)

  datatype Report = Report(
    problem: Option<Id>,
    triage: TriageState,
    version: nat,
    submitter: Id,
    assignee: Option<Id>,
    manual: bool)

  datatype Contact = Pending | Contacted | Confirmed | StillAffected | NoResponse

  datatype FollowUp = FollowUp(recipient: Id, contact: Contact, reportVersion: nat, version: nat)

  datatype Issue = Issue(problem: Id, lastReopen: Option<Time>)

  /** What members triage. `confirmations` records every fix confirmation, in order. */
  datatype Desk = Desk(
    problems: map<Id, Problem>,
    reports: map<Id, Report>,
    followUps: map<Key, FollowUp>,
    issues: map<Id, Issue>,
    confirmations: seq<Id>)

  type Rows = map<Id, Row>

  /** Where one run of send_follow_up_notification stands. `Ready` has passed the second
      authorization and holds the text it will post; `Posted` waits for Slack's answer. */
  datatype Pc =
    | Authorizing(conversation: Option<string>)
    | Opening
    | Saving(dm: string)
    | Ready(channel: string, version: nat, text: string)
    | Posted(channel: string, delivered: bool)
    | Storing(channel: string, ts: string)
    | Failing(uncertain: bool)
    | Done

  /** `answers` is the index of the approval whose queue entry this worker claimed. */
  datatype Worker = Worker(row: Id, answers: nat, pc: Pc)
  type Workers = map<Token, Worker>

  datatype Approval = Approval(row: Id, version: nat, text: string)
  datatype Post = Post(token: Token, row: Id, answers: nat, version: nat, text: string, delivered: bool)

  /** Every human approval, the latest one of each row, and every message POST. */
  datatype Log = Log(approvals: seq<Approval>, latest: map<Id, nat>, posts: seq<Post>)

  datatype World = World(now: Time, desk: Desk, rows: Rows, workers: Workers, log: Log)

  const EMPTY := World(0, Desk(map[], map[], map[], map[], []), map[], map[], Log([], map[], []))

  /** Slack's answer to chat.postMessage: accepted with a message id, accepted without one,
      an error after which the message may be there, an error that says it is not. */
  datatype Reply = Accepted(ts: string) | NoMessageId | Unknown | Refused

  datatype TriageStep =
    | AddProblem(p: Id)
    | ActOnProblem(p: Id, problemAction: ProblemAction)
    | ConfirmFix(p: Id)
    | ConfirmReportFix(r: Id, expected: nat)
    | AddReport(r: Id, submitter: Id, manual: bool)
    | LinkReport(r: Id, p: Id)
    | ActOnReport(r: Id, reportAction: ReportAction)
    | EditReport(r: Id)
    | AssignReport(r: Id, assignee: Option<Id>)
    | AddIssue(i: Id, p: Id)
    | ReplaceIssue(p: Id)
    | IssueEvent(i: Id, closes: bool, reopenAt: Option<Time>)
    | Disconnect
    | ChangeRecipient(f: Key, member: Id)
    | RecordOutcome(f: Key, contact: Contact)

  datatype MemberStep =
    | Draft(f: Key, text: string)
    | Edit(version: nat, text: string)
    | Approve(version: nat)
    | MarkDelivered(version: nat)
    | SendAgain(version: nat)
    | Cancel(version: nat)

  datatype WorkerStep =
    | Authorize(active: bool, ready: bool)
    | OpenConversation(answer: Option<string>)
    | SaveConversation
    | PostMessage(delivered: bool)
    | PostReply(reply: Reply)
    | RecordFailure
    | RecordResult

  /** `asOf` is a clock reading taken before the transaction. */
  datatype Step =
    | Tick(seconds: nat)
    | Triage(triage: TriageStep)
    | Member(id: Id, member: MemberStep)
    | Claim(id: Id, token: Token, asOf: Time)
    | Work(token: Token, work: WorkerStep)
    | Expire(id: Id, asOf: Time)

  // ----- eligibility rules

  datatype Blocker =
    | WasInvalidated | NotSendable
    | WrongReport | ReportChanged | ProblemChanged
    | ReportNotLinked | FixNotConfirmed | ResolutionChanged | RecipientInactive

  /** report_delivery_blocker */
  function DeliveryBlocker(d: Desk, report: Report, problem: Id, revision: nat): Option<Blocker> {
    if report.problem != Some(problem) then Some(ProblemChanged)
    else if report.triage != Linked then Some(ReportNotLinked)
    else if problem !in d.problems then Some(ProblemChanged)
    else if d.problems[problem].state != FixAvailable then Some(FixNotConfirmed)
    else if d.problems[problem].revision < 1 then Some(FixNotConfirmed)
    else if d.problems[problem].revision != revision then Some(ResolutionChanged)
    else None
  }

  /** freshness_reason */
  function Freshness(d: Desk, n: Row, active: bool): Option<Blocker> {
    if n.report !in d.reports then Some(WrongReport)
    else
      var report := d.reports[n.report];
      if n.reportVersion != report.version then Some(ReportChanged)
      else if report.problem != Some(n.problem) then Some(ProblemChanged)
      else
        var blocker := DeliveryBlocker(d, report, n.problem, n.revision);
        if blocker.Some? then blocker
        else if !active then Some(RecipientInactive)
        else None
  }

  /** stale_reason */
  function StaleReason(d: Desk, n: Row, active: bool): Option<Blocker> {
    if n.invalidated.Some? then Some(WasInvalidated)
    else if n.state !in SENDABLE then Some(NotSendable)
    else Freshness(d, n, active)
  }

  function Recipient(report: Report): Id {
    if report.manual && report.assignee.Some? then report.assignee.value else report.submitter
  }

  /** FollowUp.save refuses a follow-up whose report has moved to another problem. */
  predicate SaveGuard(d: Desk, f: Key) {
    f.report in d.reports && d.reports[f.report].problem == Some(f.problem)
  }

  function ReportsOf(d: Desk, p: Id): set<Id> {
    set r | r in d.reports && d.reports[r].problem == Some(p)
  }

  function LinkedReports(d: Desk, p: Id): set<Id> {
    set r | r in d.reports && d.reports[r].problem == Some(p) && d.reports[r].triage == Linked
  }

  predicate HasLiveRow(rows: Rows, f: Key) {
    exists k :: k in rows && rows[k].followUp == f && rows[k].state != Cancelled
  }

  // ----- triage: the desk after a transaction, and the notifications it invalidates

  /** The new desk, and the reports whose pending notifications are invalidated, if any. */
  datatype Effect = Effect(desk: Desk, reports: set<Id>, reason: Reason)

  function Quiet(d: Desk): Effect {
    Effect(d, {}, Stale)
  }

  function InvalidateRows(rows: Rows, reports: set<Id>, reason: Reason, now: Time): Rows {
    map k | k in rows :: if rows[k].report in reports then InvalidateRow(rows[k], reason, now) else rows[k]
  }

  function SetReport(d: Desk, r: Id, report: Report): Desk {
    d.(reports := d.reports[r := report.(version := report.version + 1)])
  }

  function SetProblem(d: Desk, p: Id, problem: Problem): Desk {
    d.(problems := d.problems[p := problem.(version := problem.version + 1)])
  }

  function LinkEffect(d: Desk, r: Id, p: Id): Effect {
    if r !in d.reports || p !in d.problems || d.reports[r].problem == Some(p) then Quiet(d)
    else
      var to := CheckReport(Link, d.reports[r].triage);
      if to.None? then Quiet(d)
      else
        var moved := SetReport(d, r, d.reports[r].(problem := Some(p), triage := to.value));
        if d.reports[r].problem.Some? then Effect(moved, {r}, Moved) else Quiet(moved)
  }

  function ActOnReportEffect(d: Desk, r: Id, action: ReportAction): Effect {
    if r !in d.reports || action == Link then Quiet(d)
    else
      var to := CheckReport(action, d.reports[r].triage);
      if to.None? then Quiet(d)
      else if action == Unlink then
        Effect(SetReport(d, r, d.reports[r].(problem := None, triage := to.value)), {r}, Unlinked)
      else Quiet(SetReport(d, r, d.reports[r].(triage := to.value)))
  }

  /** The pending follow-ups that a new assignee takes over. */
  function Retargeted(d: Desk, r: Id): set<Key>
    requires r in d.reports
  {
    set f | f in d.followUps && f.report == r && d.followUps[f].contact == Pending
            && d.followUps[f].recipient != Recipient(d.reports[r])
  }

  function Retarget(d: Desk, r: Id, taken: set<Key>): Desk
    requires r in d.reports
  {
    var report := d.reports[r];
    d.(followUps := map f | f in d.followUps ::
         if f in taken
         then d.followUps[f].(recipient := Recipient(report), reportVersion := report.version,
                              version := d.followUps[f].version + 1)
         else d.followUps[f])
  }

  /** assign_report. One follow-up that cannot be saved rolls the whole assignment back. */
  function AssignEffect(d: Desk, r: Id, assignee: Option<Id>): Effect {
    if r !in d.reports || d.reports[r].assignee == assignee then Quiet(d)
    else
      var d1 := SetReport(d, r, d.reports[r].(assignee := assignee));
      if !d1.reports[r].manual then Effect(d1, {r}, Reassigned)
      else
        var taken := Retargeted(d1, r);
        if exists f :: f in taken && !SaveGuard(d1, f) then Quiet(d)
        else Effect(Retarget(d1, r, taken), {r}, Reassigned)
  }

  function ActOnProblemEffect(d: Desk, p: Id, action: ProblemAction): Effect {
    if p !in d.problems then Quiet(d)
    else
      var to := CheckProblem(action, d.problems[p].state);
      if to.None? then Quiet(d) else Quiet(SetProblem(d, p, d.problems[p].(state := to.value)))
  }

  function FreshFollowUp(report: Report): FollowUp {
    FollowUp(Recipient(report), Pending, report.version, 1)
  }

  function KeysAt(reports: set<Id>, p: Id, revision: nat): set<Key> {
    set r | r in reports :: Key(r, p, revision)
  }

  /** get_or_create for each given report at one revision of one problem. */
  function WithFollowUps(d: Desk, reports: set<Id>, p: Id, revision: nat): map<Key, FollowUp>
    requires reports <= d.reports.Keys
  {
    map f | f in d.followUps.Keys + KeysAt(reports, p, revision)
      :: if f in d.followUps then d.followUps[f] else FreshFollowUp(d.reports[f.report])
  }

  /** The problem once its fix is confirmed, before its version is counted. */
  function WithFix(problem: Problem, to: ProblemState, now: Time): Problem {
    problem.(state := to, revision := problem.revision + 1, confirmedAt := Some(now), needsReview := false)
  }

  function ConfirmFixEffect(d: Desk, p: Id, now: Time): Effect {
    if p !in d.problems then Quiet(d)
    else
      var problem := d.problems[p];
      var to := CheckFixConfirmation(problem.state);
      if to.None? then Quiet(d)
      else
        var revision := problem.revision + 1;
        var d1 := SetProblem(d, p, WithFix(problem, to.value, now));
        Quiet(d1.(followUps := WithFollowUps(d1, LinkedReports(d1, p), p, revision),
                  confirmations := d1.confirmations + [p]))
  }

  /** confirm_linked_report_fix */
  function ConfirmReportFixEffect(d: Desk, r: Id, expected: nat): Effect {
    if r !in d.reports || d.reports[r].triage != Linked || d.reports[r].problem.None? then Quiet(d)
    else
      var p := d.reports[r].problem.value;
      if p !in d.problems || d.problems[p].state != FixAvailable || d.problems[p].revision < 1
         || d.problems[p].revision != expected
      then Quiet(d)
      else Quiet(d.(followUps := WithFollowUps(d, {r}, p, expected)))
  }

  /** Whether apply_problem_consequences takes a reopening: it must be later than the last
      one applied to the issue and later than the problem's fix confirmation. */
  predicate TakesReopen(issue: Issue, problem: Problem, at: Time) {
    && (issue.lastReopen.Some? ==> at > issue.lastReopen.value)
    && (problem.confirmedAt.Some? ==> at > problem.confirmedAt.value)
  }

  function Reopened(problem: Problem): Problem {
    problem.(needsReview := true, state := if problem.state == FixAvailable then InProgress else problem.state)
  }

  /** apply_problem_consequences */
  function IssueEffect(d: Desk, i: Id, closes: bool, reopenAt: Option<Time>): Effect {
    if i !in d.issues || d.issues[i].problem !in d.problems then Quiet(d)
    else
      var p := d.issues[i].problem;
      var d1 := if closes && !d.problems[p].needsReview
                then SetProblem(d, p, d.problems[p].(needsReview := true)) else d;
      var problem := d1.problems[p];
      if reopenAt.None? || !TakesReopen(d.issues[i], problem, reopenAt.value) then Quiet(d1)
      else
        var d2 := d1.(issues := d1.issues[i := d1.issues[i].(lastReopen := reopenAt)]);
        var d3 := if Reopened(problem) == problem then d2 else SetProblem(d2, p, Reopened(problem));
        Effect(d3, ReportsOf(d3, p), IssueReopened)
  }

  function SetFollowUp(d: Desk, f: Key, followUp: FollowUp): Desk
    requires f.report in d.reports
  {
    d.(followUps := d.followUps[f := followUp.(reportVersion := d.reports[f.report].version,
                                               version := followUp.version + 1)])
  }

  function ChangeRecipientEffect(d: Desk, rows: Rows, f: Key, member: Id): Effect {
    if f !in d.followUps || d.followUps[f].recipient == member || !SaveGuard(d, f) then Quiet(d)
    else
      var d1 := SetFollowUp(d, f, d.followUps[f].(recipient := member));
      if HasLiveRow(rows, f) then Effect(d1, {f.report}, Reassigned) else Quiet(d1)
  }

  predicate OutcomeAllowed(from: Contact, to: Contact) {
    || (from == Pending && to in {Contacted, StillAffected, NoResponse})
    || (from == Contacted && to in {Confirmed, StillAffected, NoResponse})
  }

  function OutcomeEffect(d: Desk, f: Key, contact: Contact): Effect {
    if f !in d.followUps || !SaveGuard(d, f) || !OutcomeAllowed(d.followUps[f].contact, contact) then Quiet(d)
    else
      var d1 := SetFollowUp(d, f, d.followUps[f].(contact := contact));
      if contact == StillAffected && f.problem in d.problems && !d.problems[f.problem].needsReview
      then Quiet(SetProblem(d1, f.problem, d.problems[f.problem].(needsReview := true)))
      else Quiet(d1)
  }

  function TriageEffect(d: Desk, rows: Rows, now: Time, step: TriageStep): Effect {
    match step
    case AddProblem(p) =>
      Quiet(if p in d.problems then d
            else d.(problems := d.problems[p := Problem(Open, 0, None, false, 1)]))
    case ActOnProblem(p, action) => ActOnProblemEffect(d, p, action)
    case ConfirmFix(p) => ConfirmFixEffect(d, p, now)
    case ConfirmReportFix(r, expected) => ConfirmReportFixEffect(d, r, expected)
    case AddReport(r, submitter, manual) =>
      Quiet(if r in d.reports then d
            else d.(reports := d.reports[r := Report(None, New, 1, submitter, None, manual)]))
    case LinkReport(r, p) => LinkEffect(d, r, p)
    case ActOnReport(r, action) => ActOnReportEffect(d, r, action)
    case EditReport(r) => Quiet(if r !in d.reports then d else SetReport(d, r, d.reports[r]))
    case AssignReport(r, assignee) => AssignEffect(d, r, assignee)
    case AddIssue(i, p) =>
      Quiet(if i in d.issues || p !in d.problems then d else d.(issues := d.issues[i := Issue(p, None)]))
    case ReplaceIssue(p) => Effect(d, ReportsOf(d, p), IssueRelinked)
    case IssueEvent(i, closes, reopenAt) => IssueEffect(d, i, closes, reopenAt)
    case Disconnect => Effect(d, d.reports.Keys, Disconnected)
    case ChangeRecipient(f, member) => ChangeRecipientEffect(d, rows, f, member)
    case RecordOutcome(f, contact) => OutcomeEffect(d, f, contact)
  }

  function DoTriage(w: World, step: TriageStep): World {
    var e := TriageEffect(w.desk, w.rows, w.now, step);
    w.(desk := e.desk, rows := InvalidateRows(w.rows, e.reports, e.reason, w.now))
  }

  // ----- member decisions about a notification

  predicate EditOpen(rows: Rows, id: Id, version: nat, text: string) {
    id in rows && Editable(rows[id], version) && text != ""
  }

  predicate ApprovalOpen(d: Desk, rows: Rows, id: Id, version: nat) {
    && id in rows && Editable(rows[id], version)
    && rows[id].invalidated.None?
    && Freshness(d, rows[id], true).None?
  }

  predicate DecisionOpen(rows: Rows, id: Id, version: nat) {
    id in rows && Resolvable(rows[id], version)
  }

  predicate ResendOpen(d: Desk, rows: Rows, id: Id, version: nat) {
    && DecisionOpen(rows, id, version)
    && rows[id].invalidated.None?
    && Freshness(d, rows[id], true).None?
    && rows[id].followUp in d.followUps
    && d.followUps[rows[id].followUp].recipient == rows[id].recipient
  }

  predicate DraftOpen(d: Desk, rows: Rows, id: Id, f: Key) {
    && f in d.followUps && f.report in d.reports && id !in rows
    && DeliveryBlocker(d, d.reports[f.report], f.problem, f.revision).None?
    && !HasLiveRow(rows, f)
  }

  function NewRow(d: Desk, f: Key, text: string): Row
    requires f in d.followUps && f.report in d.reports
  {
    Row(f.report, f.problem, f, d.followUps[f].recipient, f.revision, d.reports[f.report].version,
        text, 1, State.Draft, 0, None, None, None, "", "", None, None, None)
  }

  function Approved(log: Log, id: Id, n: Row): Log {
    log.(approvals := log.approvals + [Approval(id, n.draftVersion, n.message)],
         latest := log.latest[id := |log.approvals|])
  }

  function DoMember(w: World, id: Id, step: MemberStep): World {
    match step
    case Draft(f, text) =>
      if !DraftOpen(w.desk, w.rows, id, f) then w
      else w.(rows := w.rows[id := NewRow(w.desk, f, text)])
    case Edit(version, text) =>
      if !EditOpen(w.rows, id, version, text) then w
      else w.(rows := w.rows[id := EditRow(w.rows[id], text)])
    case Approve(version) =>
      if !ApprovalOpen(w.desk, w.rows, id, version) then w
      else w.(rows := w.rows[id := ApproveRow(w.rows[id], w.now)], log := Approved(w.log, id, w.rows[id]))
    case MarkDelivered(version) =>
      if !DecisionOpen(w.rows, id, version) then w
      else w.(rows := w.rows[id := MarkDeliveredRow(w.rows[id], w.now)])
    case SendAgain(version) =>
      if !ResendOpen(w.desk, w.rows, id, version) then w
      else w.(rows := w.rows[id := SendAgainRow(w.rows[id], w.now)], log := Approved(w.log, id, w.rows[id]))
    case Cancel(version) =>
      if !DecisionOpen(w.rows, id, version) then w
      else w.(rows := w.rows[id := CancelRow(w.rows[id], w.now)])
  }

  // ----- workers

  function DoClaim(w: World, id: Id, token: Token, asOf: Time): World {
    if id !in w.rows || token in w.workers || asOf > w.now then w
    else
      var (n, claimed) := ClaimRow(w.rows[id], token, asOf);
      var w1 := w.(rows := w.rows[id := n]);
      if !claimed then w1
      else
        var answers := if id in w.log.latest then w.log.latest[id] else 0;
        w1.(workers := w.workers[token := Worker(id, answers, Authorizing(None))])
  }

  /** What _authorize decides: the text to send, a stale approval, or another refusal. */
  datatype Decision = Allow(version: nat, text: string) | CancelAsStale | Block

  function Authorization(d: Desk, n: Row, token: Token, active: bool, ready: bool): Decision {
    if n.state != Queued || !Holds(n, token) || n.invalidated.Some? then Block
    else if n.followUp !in d.followUps || d.followUps[n.followUp].recipient != n.recipient then Block
    else if !active then Block
    else if StaleReason(d, n, active).Some? then CancelAsStale
    else if !ready then Block
    else Allow(n.draftVersion, n.message)
  }

  /** Slack is taken at its word: it accepts only a message it delivered, and an error that
      _uncertain_post calls certain means nothing was delivered. */
  predicate Honest(delivered: bool, reply: Reply) {
    match reply
    case Accepted(_) => delivered
    case NoMessageId => true
    case Unknown => true
    case Refused => !delivered
  }

  function AfterReply(channel: string, reply: Reply): Pc {
    match reply
    case Accepted(ts) => if ts == "" then Failing(true) else Storing(channel, ts)
    case NoMessageId => Failing(true)
    case Unknown => Failing(true)
    case Refused => Failing(false)
  }

  function Authorized(d: Desk, n: Row, token: Token, conversation: Option<string>, active: bool, ready: bool,
                      now: Time): (Row, Pc)
  {
    match Authorization(d, n, token, active, ready)
    case Allow(version, text) =>
      (n, if conversation.None? then Opening else Ready(conversation.value, version, text))
    case CancelAsStale => (CancelStaleRow(n, now), Failing(false))
    case Block => (n, Failing(false))
  }

  function SavedConversation(n: Row, token: Token, dm: string): (Row, Pc) {
    var (m, kept) := SaveConversationRow(n, token, dm);
    (m, if kept then Authorizing(Some(dm)) else Done)
  }

  /** Whether a worker standing at `pc` can take this step. */
  predicate Enabled(pc: Pc, step: WorkerStep) {
    match step
    case Authorize(_, _) => pc.Authorizing?
    case OpenConversation(_) => pc.Opening?
    case SaveConversation => pc.Saving?
    case PostMessage(_) => pc.Ready?
    case PostReply(reply) => pc.Posted? && Honest(pc.delivered, reply)
    case RecordFailure => pc.Failing?
    case RecordResult => pc.Storing?
  }

  /** The row and the program counter after one worker step on row `n`. */
  function WorkOn(d: Desk, n: Row, token: Token, pc: Pc, now: Time, step: WorkerStep): (Row, Pc)
    requires Enabled(pc, step)
  {
    match step
    case Authorize(active, ready) => Authorized(d, n, token, pc.conversation, active, ready, now)
    case OpenConversation(answer) =>
      (n, if answer.None? || answer.value == "" then Failing(false) else Saving(answer.value))
    case SaveConversation => SavedConversation(n, token, pc.dm)
    case PostMessage(delivered) => (n, Posted(pc.channel, delivered))
    case PostReply(reply) => (n, AfterReply(pc.channel, reply))
    case RecordFailure => (FailRow(n, token, pc.uncertain), Done)
    case RecordResult => (PostResultRow(n, token, pc.channel, pc.ts, now), Done)
  }

  predicate CanWork(w: World, token: Token, step: WorkerStep) {
    token in w.workers && w.workers[token].row in w.rows && Enabled(w.workers[token].pc, step)
  }

  function PostedLog(log: Log, token: Token, worker: Worker, step: WorkerStep): Log
    requires Enabled(worker.pc, step)
  {
    if !step.PostMessage? then log
    else log.(posts := log.posts +
           [Post(token, worker.row, worker.answers, worker.pc.version, worker.pc.text, step.delivered)])
  }

  function DoWork(w: World, token: Token, step: WorkerStep): World {
    if !CanWork(w, token, step) then w
    else
      var worker := w.workers[token];
      var (n, pc) := WorkOn(w.desk, w.rows[worker.row], token, worker.pc, w.now, step);
      World(w.now, w.desk, w.rows[worker.row := n], w.workers[token := worker.(pc := pc)],
            PostedLog(w.log, token, worker, step))
  }

  function DoExpire(w: World, id: Id, asOf: Time): World {
    if id !in w.rows || asOf > w.now then w
    else w.(rows := w.rows[id := ExpireRow(w.rows[id], asOf)])
  }

  // ----- the machine

  function Apply(w: World, step: Step): World {
    match step
    case Tick(seconds) => w.(now := w.now + seconds)
    case Triage(t) => DoTriage(w, t)
    case Member(id, m) => DoMember(w, id, m)
    case Claim(id, token, asOf) => DoClaim(w, id, token, asOf)
    case Work(token, s) => DoWork(w, token, s)
    case Expire(id, asOf) => DoExpire(w, id, asOf)
  }

  function Run(w: World, steps: seq<Step>): World
    decreases |steps|
  {
    if steps == [] then w else Run(Apply(w, steps[0]), steps[1..])
  }

  /** Some interleaving leads here from the empty workspace. */
  ghost predicate Reachable(w: World) {
    exists steps :: w == Run(EMPTY, steps)
  }

  lemma {:induction false} RunConcat(w: World, a: seq<Step>, b: seq<Step>)
    ensures Run(w, a + b) == Run(Run(w, a), b)
    decreases |a|
  {
    if a == [] {
      assert a + b == b;
    } else {
      assert (a + b)[1..] == a[1..] + b;
      RunConcat(Apply(w, a[0]), a[1..], b);
    }
  }

  lemma RunThree(w: World, s: seq<Step>)
    requires |s| == 3
    ensures Run(w, s) == Apply(Apply(Apply(w, s[0]), s[1]), s[2])
  {
    var w1, w2, w3 := Apply(w, s[0]), Apply(Apply(w, s[0]), s[1]), Apply(Apply(Apply(w, s[0]), s[1]), s[2]);
    assert s[1..][0] == s[1] && s[1..][1..] == s[2..] && s[2..][0] == s[2] && s[2..][1..] == [];
    assert Run(w, s) == Run(w1, s[1..]);
    assert Run(w1, s[1..]) == Run(w2, s[2..]);
    assert Run(w2, s[2..]) == Run(w3, []);
  }
}
