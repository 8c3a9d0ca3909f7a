/** What holds in every reachable state of the delivery machine, whatever the interleaving of
    triage, fixes, reopenings, member decisions, workers and sweeps. */
module DeliveryInvariants {
  import opened Common
  import opened Transitions
  import opened Notifications
  import opened DeliveryWorld

  function Count(s: seq<Id>, p: Id): nat {
    if s == [] then 0 else Count(s[..|s| - 1], p) + (if s[|s| - 1] == p then 1 else 0)
  }

  lemma CountAppend(s: seq<Id>, x: Id, p: Id)
    ensures Count(s + [x], p) == Count(s, p) + (if x == p then 1 else 0)
  {
    assert (s + [x])[..|s|] == s;
  }

  // ----- the desk alone

  predicate FollowUpRefs(d: Desk) {
    forall f :: f in d.followUps ==>
      f.report in d.reports && f.problem in d.problems && 1 <= f.revision <= d.problems[f.problem].revision
  }

  predicate ReportOk(d: Desk, r: Id)
    requires r in d.reports
  {
    && (d.reports[r].triage == Linked <==> d.reports[r].problem.Some?)
    && (d.reports[r].problem.Some? ==> d.reports[r].problem.value in d.problems)
  }

  predicate ReportsOk(d: Desk) {
    forall r :: r in d.reports ==> ReportOk(d, r)
  }

  predicate IssueRefs(d: Desk) {
    forall i :: i in d.issues ==> d.issues[i].problem in d.problems
  }

  /** The revision counts the confirmations; a fix is dated, and never ahead of the clock. */
  predicate FixOk(problem: Problem, confirmations: nat, now: Time) {
    && problem.revision == confirmations
    && (problem.state == FixAvailable ==> problem.revision >= 1)
    && (problem.revision >= 1 <==> problem.confirmedAt.Some?)
    && (problem.confirmedAt.Some? ==> problem.confirmedAt.value <= now)
  }

  ghost predicate FixesOk(d: Desk, now: Time) {
    && (forall p :: p in d.problems ==> FixOk(d.problems[p], Count(d.confirmations, p), now))
    && (forall p :: p !in d.problems ==> Count(d.confirmations, p) == 0)
  }

  ghost predicate DeskOk(d: Desk, now: Time) {
    FollowUpRefs(d) && ReportsOk(d) && IssueRefs(d) && FixesOk(d, now)
  }

  // ----- notifications against the desk

  /** A pending notification still describes its report: same problem, linked, and a fix
      available at exactly the revision it was prepared for. */
  predicate Anchored(d: Desk, n: Row) {
    && n.report in d.reports
    && d.reports[n.report].problem == Some(n.problem)
    && d.reports[n.report].triage == Linked
    && n.problem in d.problems
    && d.problems[n.problem].state == FixAvailable
    && d.problems[n.problem].revision == n.revision
  }

  predicate AnchorOk(d: Desk, n: Row) {
    n.state in PENDING ==> Anchored(d, n)
  }

  predicate RefOk(d: Desk, n: Row) {
    n.followUp == Key(n.report, n.problem, n.revision) && n.followUp in d.followUps
  }

  predicate RowsOk(d: Desk, rows: Rows) {
    forall k :: k in rows ==> RowOk(rows[k]) && AnchorOk(d, rows[k]) && RefOk(d, rows[k])
  }

  predicate OneLivePerFollowUp(rows: Rows) {
    forall j, k :: j in rows && k in rows && j != k && rows[j].followUp == rows[k].followUp
      ==> rows[j].state == Cancelled || rows[k].state == Cancelled
  }

  /** A worker stores only a non-empty message id. */
  predicate StoredIdsOk(workers: Workers) {
    forall t :: t in workers && workers[t].pc.Storing? ==> workers[t].pc.ts != ""
  }

  ghost predicate Inv(w: World) {
    && DeskOk(w.desk, w.now)
    && RowsOk(w.desk, w.rows)
    && OneLivePerFollowUp(w.rows)
    && StoredIdsOk(w.workers)
  }

  // ----- the desk keeps itself in order

  lemma ConfirmFixKeepsDesk(d: Desk, p: Id, now: Time)
    requires DeskOk(d, now)
    ensures DeskOk(ConfirmFixEffect(d, p, now).desk, now)
  {
    var e := ConfirmFixEffect(d, p, now).desk;
    if p in d.problems && CheckFixConfirmation(d.problems[p].state).Some? {
      ConfirmedFixesOk(d, p, now);
      forall r | r in e.reports
        ensures ReportOk(e, r)
      {
        assert ReportOk(d, r);
      }
      assert FollowUpRefs(e);
    }
  }

  lemma ConfirmedFixesOk(d: Desk, p: Id, now: Time)
    requires DeskOk(d, now) && p in d.problems && CheckFixConfirmation(d.problems[p].state).Some?
    ensures FixesOk(ConfirmFixEffect(d, p, now).desk, now)
  {
    var e := ConfirmFixEffect(d, p, now).desk;
    assert e.confirmations == d.confirmations + [p] && e.problems == d.problems[p := e.problems[p]];
    assert FixOk(d.problems[p], Count(d.confirmations, p), now);
    forall q | q in e.problems
      ensures FixOk(e.problems[q], Count(e.confirmations, q), now)
    {
      CountAppend(d.confirmations, p, q);
      if q != p {
        assert FixOk(d.problems[q], Count(d.confirmations, q), now);
      }
    }
  }

  lemma IssueDateKeepsDesk(d: Desk, i: Id, issue: Issue, now: Time)
    requires DeskOk(d, now) && i in d.issues && issue.problem == d.issues[i].problem
    ensures DeskOk(d.(issues := d.issues[i := issue]), now)
  {
    var e := d.(issues := d.issues[i := issue]);
    forall r | r in e.reports
      ensures ReportOk(e, r)
    {
      assert ReportOk(d, r);
    }
  }

  lemma ReviewKeepsDesk(d: Desk, p: Id, now: Time)
    requires DeskOk(d, now) && p in d.problems
    ensures DeskOk(SetProblem(d, p, d.problems[p].(needsReview := true)), now)
    ensures DeskOk(SetProblem(d, p, Reopened(d.problems[p])), now)
  {
    assert FixOk(d.problems[p], Count(d.confirmations, p), now);
    SetProblemKeepsDesk(d, p, d.problems[p].(needsReview := true), now);
    SetProblemKeepsDesk(d, p, Reopened(d.problems[p]), now);
  }

  lemma IssueKeepsDesk(d: Desk, i: Id, closes: bool, reopenAt: Option<Time>, now: Time)
    requires DeskOk(d, now)
    ensures DeskOk(IssueEffect(d, i, closes, reopenAt).desk, now)
  {
    if i in d.issues {
      var p := d.issues[i].problem;
      ReviewKeepsDesk(d, p, now);
      var d1 := if closes && !d.problems[p].needsReview then SetProblem(d, p, d.problems[p].(needsReview := true)) else d;
      if reopenAt.Some? && TakesReopen(d.issues[i], d1.problems[p], reopenAt.value) {
        var issue := d.issues[i].(lastReopen := reopenAt);
        IssueDateKeepsDesk(d1, i, issue, now);
        ReviewKeepsDesk(d1.(issues := d1.issues[i := issue]), p, now);
      }
    }
  }

  lemma SetReportKeepsDesk(d: Desk, r: Id, report: Report, now: Time)
    requires DeskOk(d, now)
    requires report.triage == Linked <==> report.problem.Some?
    requires report.problem.Some? ==> report.problem.value in d.problems
    ensures DeskOk(d.(reports := d.reports[r := report]), now)
  {
  }

  lemma LinkKeepsDesk(d: Desk, r: Id, p: Id, now: Time)
    requires DeskOk(d, now) && r in d.reports && p in d.problems
    ensures DeskOk(LinkEffect(d, r, p).desk, now)
  {
    var report := d.reports[r];
    SetReportKeepsDesk(d, r, report.(problem := Some(p), triage := Linked, version := report.version + 1), now);
  }

  lemma ActOnReportKeepsDesk(d: Desk, r: Id, action: ReportAction, now: Time)
    requires DeskOk(d, now) && r in d.reports
    ensures DeskOk(ActOnReportEffect(d, r, action).desk, now)
  {
    assert ReportOk(d, r);
    var report := d.reports[r];
    match action
    case Link =>
    case Unlink =>
      SetReportKeepsDesk(d, r, report.(problem := None, triage := New, version := report.version + 1), now);
    case Dismiss =>
      if report.triage == New {
        SetReportKeepsDesk(d, r, report.(triage := Dismissed, version := report.version + 1), now);
      }
    case Restore =>
      if report.triage == Dismissed {
        SetReportKeepsDesk(d, r, report.(triage := New, version := report.version + 1), now);
      }
  }

  lemma AssignKeepsDesk(d: Desk, r: Id, assignee: Option<Id>, now: Time)
    requires DeskOk(d, now) && r in d.reports
    ensures DeskOk(AssignEffect(d, r, assignee).desk, now)
  {
    assert ReportOk(d, r);
    var d1 := SetReport(d, r, d.reports[r].(assignee := assignee));
    SetReportKeepsDesk(d, r, d1.reports[r], now);
    assert DeskOk(Retarget(d1, r, Retargeted(d1, r)), now);
  }

  lemma ConfirmReportKeepsDesk(d: Desk, r: Id, expected: nat, now: Time)
    requires DeskOk(d, now)
    ensures DeskOk(ConfirmReportFixEffect(d, r, expected).desk, now)
  {
  }

  lemma AdditionsKeepDesk(d: Desk, rows: Rows, step: TriageStep, now: Time)
    requires DeskOk(d, now)
    requires step.AddProblem? || step.AddReport? || step.AddIssue? || step.ReplaceIssue? || step.Disconnect?
    ensures DeskOk(TriageEffect(d, rows, now, step).desk, now)
  {
    if step.AddReport? && step.r !in d.reports {
      SetReportKeepsDesk(d, step.r, TriageEffect(d, rows, now, step).desk.reports[step.r], now);
    }
  }

  lemma ProblemsKeepDesk(d: Desk, p: Id, action: ProblemAction, now: Time)
    requires DeskOk(d, now)
    ensures DeskOk(ActOnProblemEffect(d, p, action).desk, now)
  {
    if p in d.problems {
      TableAvoidsFixAvailable(action, d.problems[p].state);
    }
  }

  lemma SetFollowUpKeepsDesk(d: Desk, f: Key, followUp: FollowUp, now: Time)
    requires DeskOk(d, now) && f in d.followUps && f.report in d.reports
    ensures DeskOk(SetFollowUp(d, f, followUp), now)
  {
    var e := SetFollowUp(d, f, followUp);
    assert e.problems == d.problems && e.reports == d.reports && e.issues == d.issues && e.confirmations == d.confirmations;
    forall r | r in e.reports
      ensures ReportOk(e, r)
    {
      assert ReportOk(d, r);
    }
  }

  lemma SetProblemKeepsDesk(d: Desk, p: Id, problem: Problem, now: Time)
    requires DeskOk(d, now) && p in d.problems && FixOk(problem, Count(d.confirmations, p), now)
    ensures DeskOk(SetProblem(d, p, problem), now)
  {
    var e := SetProblem(d, p, problem);
    forall r | r in e.reports
      ensures ReportOk(e, r)
    {
      assert ReportOk(d, r);
    }
  }

  lemma RecipientKeepsDesk(d: Desk, rows: Rows, f: Key, member: Id, now: Time)
    requires DeskOk(d, now)
    ensures DeskOk(ChangeRecipientEffect(d, rows, f, member).desk, now)
  {
    if f in d.followUps && SaveGuard(d, f) {
      SetFollowUpKeepsDesk(d, f, d.followUps[f].(recipient := member), now);
    }
  }

  lemma OutcomeKeepsDesk(d: Desk, f: Key, contact: Contact, now: Time)
    requires DeskOk(d, now)
    ensures DeskOk(OutcomeEffect(d, f, contact).desk, now)
  {
    if f in d.followUps && SaveGuard(d, f) {
      var d1 := SetFollowUp(d, f, d.followUps[f].(contact := contact));
      SetFollowUpKeepsDesk(d, f, d.followUps[f].(contact := contact), now);
      if f.problem in d.problems {
        SetProblemKeepsDesk(d1, f.problem, d.problems[f.problem].(needsReview := true), now);
      }
    }
  }

  lemma EditKeepsDesk(d: Desk, r: Id, now: Time)
    requires DeskOk(d, now) && r in d.reports
    ensures DeskOk(SetReport(d, r, d.reports[r]), now)
  {
    assert ReportOk(d, r);
    SetReportKeepsDesk(d, r, d.reports[r].(version := d.reports[r].version + 1), now);
  }

  lemma TriageKeepsDesk(d: Desk, rows: Rows, now: Time, step: TriageStep)
    requires DeskOk(d, now)
    ensures DeskOk(TriageEffect(d, rows, now, step).desk, now)
  {
    match step
    case ActOnProblem(p, action) => ProblemsKeepDesk(d, p, action, now);
    case ConfirmFix(p) => ConfirmFixKeepsDesk(d, p, now);
    case ConfirmReportFix(r, expected) => ConfirmReportKeepsDesk(d, r, expected, now);
    case LinkReport(r, p) => if r in d.reports && p in d.problems { LinkKeepsDesk(d, r, p, now); }
    case ActOnReport(r, action) => if r in d.reports { ActOnReportKeepsDesk(d, r, action, now); }
    case EditReport(r) => if r in d.reports { EditKeepsDesk(d, r, now); }
    case AssignReport(r, assignee) => if r in d.reports { AssignKeepsDesk(d, r, assignee, now); }
    case IssueEvent(i, closes, reopenAt) => IssueKeepsDesk(d, i, closes, reopenAt, now);
    case ChangeRecipient(f, member) => RecipientKeepsDesk(d, rows, f, member, now);
    case RecordOutcome(f, contact) => OutcomeKeepsDesk(d, f, contact, now);
    case _ => AdditionsKeepDesk(d, rows, step, now);
  }

  // ----- every triage step invalidates each pending row it takes the ground from

  lemma LinkAnchors(d: Desk, n: Row, r: Id, p: Id)
    requires Anchored(d, n)
    ensures var e := LinkEffect(d, r, p); n.report in e.reports || Anchored(e.desk, n)
  {
  }

  lemma IssueAnchors(d: Desk, n: Row, i: Id, closes: bool, reopenAt: Option<Time>)
    requires Anchored(d, n)
    ensures var e := IssueEffect(d, i, closes, reopenAt); n.report in e.reports || Anchored(e.desk, n)
  {
  }

  lemma ReportAnchors(d: Desk, n: Row, r: Id, action: ReportAction, assignee: Option<Id>)
    requires Anchored(d, n)
    ensures var e := ActOnReportEffect(d, r, action); n.report in e.reports || Anchored(e.desk, n)
    ensures var e := AssignEffect(d, r, assignee); n.report in e.reports || Anchored(e.desk, n)
  {
  }

  lemma ProblemAnchors(d: Desk, n: Row, p: Id, action: ProblemAction, now: Time)
    requires Anchored(d, n)
    ensures Anchored(ActOnProblemEffect(d, p, action).desk, n)
    ensures Anchored(ConfirmFixEffect(d, p, now).desk, n)
  {
    TableAvoidsFixAvailable(action, FixAvailable);
    TableAvoidsFixAvailable(Start, FixAvailable);
  }

  lemma TriageAnchors(d: Desk, rows: Rows, now: Time, step: TriageStep, n: Row)
    requires Anchored(d, n)
    ensures var e := TriageEffect(d, rows, now, step); n.report in e.reports || Anchored(e.desk, n)
  {
    match step
    case LinkReport(r, p) => LinkAnchors(d, n, r, p);
    case IssueEvent(i, closes, reopenAt) => IssueAnchors(d, n, i, closes, reopenAt);
    case ActOnProblem(p, action) => ProblemAnchors(d, n, p, action, now);
    case ConfirmFix(p) => ProblemAnchors(d, n, p, Start, now);
    case ActOnReport(r, action) => ReportAnchors(d, n, r, action, None);
    case AssignReport(r, assignee) => ReportAnchors(d, n, r, Unlink, assignee);
    case _ =>
  }

  lemma TriageKeepsRef(d: Desk, rows: Rows, now: Time, step: TriageStep, n: Row)
    requires RefOk(d, n)
    ensures RefOk(TriageEffect(d, rows, now, step).desk, n)
  {
  }

  lemma InvalidationKeepsRow(d: Desk, rows: Rows, now: Time, step: TriageStep, n: Row)
    requires RowOk(n) && AnchorOk(d, n) && RefOk(d, n)
    ensures var e := TriageEffect(d, rows, now, step);
            var m := if n.report in e.reports then InvalidateRow(n, e.reason, now) else n;
            RowOk(m) && AnchorOk(e.desk, m) && RefOk(e.desk, m)
  {
    var e := TriageEffect(d, rows, now, step);
    TriageKeepsRef(d, rows, now, step, n);
    MemberKeepsRowOk(n, e.reason, now, "");
    InvalidateSettles(n, e.reason, e.reason, now, now);
    if n.state in PENDING {
      TriageAnchors(d, rows, now, step, n);
    }
  }

  lemma InvalidationRevivesNone(n: Row, reason: Reason, now: Time)
    ensures InvalidateRow(n, reason, now).followUp == n.followUp
    ensures n.state == Cancelled ==> InvalidateRow(n, reason, now) == n
  {
  }

  lemma InvalidationKeepsOneLive(rows: Rows, reports: set<Id>, reason: Reason, now: Time)
    requires OneLivePerFollowUp(rows)
    ensures OneLivePerFollowUp(InvalidateRows(rows, reports, reason, now))
  {
    var after := InvalidateRows(rows, reports, reason, now);
    forall j, k | j in after && k in after && j != k && after[j].followUp == after[k].followUp
      ensures after[j].state == Cancelled || after[k].state == Cancelled
    {
      InvalidationRevivesNone(rows[j], reason, now);
      InvalidationRevivesNone(rows[k], reason, now);
      assert rows[j].state == Cancelled || rows[k].state == Cancelled;
    }
  }

  lemma TriageStepKeepsInv(w: World, step: TriageStep)
    requires Inv(w)
    ensures Inv(DoTriage(w, step))
  {
    var e := TriageEffect(w.desk, w.rows, w.now, step);
    var rows := InvalidateRows(w.rows, e.reports, e.reason, w.now);
    TriageKeepsDesk(w.desk, w.rows, w.now, step);
    InvalidationKeepsOneLive(w.rows, e.reports, e.reason, w.now);
    forall k | k in rows
      ensures RowOk(rows[k]) && AnchorOk(e.desk, rows[k]) && RefOk(e.desk, rows[k])
    {
      InvalidationKeepsRow(w.desk, w.rows, w.now, step, w.rows[k]);
    }
  }

  // ----- steps that change one row

  /** What a change of one row must respect. */
  predicate RowStepOk(d: Desk, a: Row, b: Row) {
    && SameTarget(a, b)
    && RowOk(b)
    && (b.state in PENDING ==> Anchored(d, b))
    && (a.state == Cancelled ==> b.state == Cancelled)
  }

  lemma OneRow(d: Desk, rows: Rows, id: Id, n: Row)
    requires RowsOk(d, rows) && OneLivePerFollowUp(rows) && id in rows
    requires RowStepOk(d, rows[id], n)
    ensures RowsOk(d, rows[id := n]) && OneLivePerFollowUp(rows[id := n])
  {
  }

  lemma FreshIsAnchored(d: Desk, n: Row)
    requires Freshness(d, n, true).None?
    ensures Anchored(d, n)
  {
  }

  lemma DraftKeepsRows(d: Desk, rows: Rows, id: Id, f: Key, text: string)
    requires RowsOk(d, rows) && OneLivePerFollowUp(rows) && DraftOpen(d, rows, id, f)
    ensures var rows' := rows[id := NewRow(d, f, text)]; RowsOk(d, rows') && OneLivePerFollowUp(rows')
  {
    var n := NewRow(d, f, text);
    assert RowOk(n) && Anchored(d, n) && RefOk(d, n);
  }

  /** Each member decision respects the row it settles. */
  lemma MemberRespectsRow(w: World, id: Id, step: MemberStep)
    requires id in w.rows && RowOk(w.rows[id]) && AnchorOk(w.desk, w.rows[id]) && !step.Draft?
    ensures var w' := DoMember(w, id, step);
            && w'.rows == w.rows[id := w'.rows[id]]
            && RowStepOk(w.desk, w.rows[id], w'.rows[id])
  {
    var n := w.rows[id];
    MemberKeepsRowOk(n, Stale, w.now, if step.Edit? then step.text else "");
    if Freshness(w.desk, n, true).None? {
      FreshIsAnchored(w.desk, n);
    }
    assert w.rows == w.rows[id := n];
  }

  lemma DraftKeepsInv(w: World, id: Id, f: Key, text: string)
    requires Inv(w)
    ensures Inv(DoMember(w, id, MemberStep.Draft(f, text)))
  {
    if DraftOpen(w.desk, w.rows, id, f) {
      DraftKeepsRows(w.desk, w.rows, id, f, text);
    }
  }

  lemma DecisionKeepsInv(w: World, id: Id, step: MemberStep)
    requires Inv(w) && id in w.rows && !step.Draft?
    ensures Inv(DoMember(w, id, step))
  {
    MemberRespectsRow(w, id, step);
    var v := DoMember(w, id, step);
    assert v.desk == w.desk && v.workers == w.workers && v.now == w.now;
    OneRow(w.desk, w.rows, id, v.rows[id]);
  }

  lemma MemberStepKeepsInv(w: World, id: Id, step: MemberStep)
    requires Inv(w)
    ensures Inv(DoMember(w, id, step))
  {
    if step.Draft? {
      DraftKeepsInv(w, id, step.f, step.text);
    } else if id in w.rows {
      DecisionKeepsInv(w, id, step);
    } else {
      assert DoMember(w, id, step) == w;
    }
  }

  lemma ClaimKeepsInv(w: World, id: Id, token: Token, asOf: Time)
    requires Inv(w)
    ensures Inv(DoClaim(w, id, token, asOf))
  {
    if id in w.rows {
      WorkerKeepsRowOk(w.rows[id], token, asOf, false, "", "ts");
      OneRow(w.desk, w.rows, id, ClaimRow(w.rows[id], token, asOf).0);
    }
  }

  lemma ExpireKeepsInv(w: World, id: Id, asOf: Time)
    requires Inv(w)
    ensures Inv(DoExpire(w, id, asOf))
  {
    if id in w.rows {
      WorkerKeepsRowOk(w.rows[id], 0, asOf, false, "", "ts");
      OneRow(w.desk, w.rows, id, ExpireRow(w.rows[id], asOf));
    }
  }

  /** Each worker step respects the row it works on. */
  lemma WorkRespectsRow(d: Desk, n: Row, token: Token, pc: Pc, now: Time, step: WorkerStep)
    requires RowOk(n) && AnchorOk(d, n) && Enabled(pc, step)
    requires pc.Storing? ==> pc.ts != ""
    ensures var (m, pc') := WorkOn(d, n, token, pc, now, step);
            RowStepOk(d, n, m) && (pc'.Storing? ==> pc'.ts != "")
  {
    match step
    case SaveConversation => WorkerKeepsRowOk(n, token, now, false, pc.dm, "ts");
    case RecordFailure => WorkerKeepsRowOk(n, token, now, pc.uncertain, "", "ts");
    case RecordResult => WorkerKeepsRowOk(n, token, now, false, pc.channel, pc.ts);
    case _ =>
  }

  lemma WorkKeepsInv(w: World, token: Token, step: WorkerStep)
    requires Inv(w)
    ensures Inv(DoWork(w, token, step))
  {
    if CanWork(w, token, step) {
      var worker := w.workers[token];
      WorkRespectsRow(w.desk, w.rows[worker.row], token, worker.pc, w.now, step);
      OneRow(w.desk, w.rows, worker.row, WorkOn(w.desk, w.rows[worker.row], token, worker.pc, w.now, step).0);
    }
  }

  lemma InvStep(w: World, step: Step)
    requires Inv(w)
    ensures Inv(Apply(w, step))
  {
    match step
    case Tick(seconds) =>
    case Triage(t) => TriageStepKeepsInv(w, t);
    case Member(id, m) => MemberStepKeepsInv(w, id, m);
    case Claim(id, token, asOf) => ClaimKeepsInv(w, id, token, asOf);
    case Work(token, s) => WorkKeepsInv(w, token, s);
    case Expire(id, asOf) => ExpireKeepsInv(w, id, asOf);
  }

  lemma {:induction false} RunKeepsInv(w: World, steps: seq<Step>)
    requires Inv(w)
    ensures Inv(Run(w, steps))
    decreases |steps|
  {
    if steps != [] {
      InvStep(w, steps[0]);
      RunKeepsInv(Apply(w, steps[0]), steps[1..]);
    }
  }

  // ----- main results

  lemma ReachableInv(w: World)
    requires Reachable(w)
    ensures Inv(w)
  {
    var steps :| w == Run(EMPTY, steps);
    RunKeepsInv(EMPTY, steps);
  }

  /** In every reachable state, a draft, queued or failed notification points at its report's
      current problem, and that problem's fix is available at its revision. */
  lemma PendingAlwaysAnchored(w: World, k: Id)
    requires Reachable(w) && k in w.rows && w.rows[k].state in PENDING
    ensures Anchored(w.desk, w.rows[k])
  {
    ReachableInv(w);
    assert AnchorOk(w.desk, w.rows[k]);
  }

  /** In every reachable state, the table constraints hold, a lease is held only by a queued
      or an invalidated uncertain row, a row that a worker marked sent was never invalidated,
      and a follow-up has at most one notification that is not cancelled. */
  lemma RowsAlwaysConstrained(w: World)
    requires Reachable(w)
    ensures forall k :: k in w.rows ==>
              Constrained(w.rows[k]) && LeaseRule(w.rows[k]) && WorkerSentClean(w.rows[k])
    ensures OneLivePerFollowUp(w.rows)
  {
    ReachableInv(w);
    forall k | k in w.rows
      ensures RowOk(w.rows[k])
    {
    }
  }

  lemma WorkLeavesSettled(w: World, token: Token, step: WorkerStep, k: Id)
    requires k in w.rows && RowOk(w.rows[k]) && w.rows[k].state in {Sent, State.Cancelled}
    ensures k in DoWork(w, token, step).rows && DoWork(w, token, step).rows[k] == w.rows[k]
  {
    if CanWork(w, token, step) && w.workers[token].row == k {
      assert WorkOn(w.desk, w.rows[k], token, w.workers[token].pc, w.now, step).0 == w.rows[k];
    }
  }

  lemma MemberLeavesSettled(w: World, id: Id, step: MemberStep, k: Id)
    requires k in w.rows && w.rows[k].state in {Sent, State.Cancelled}
    ensures k in DoMember(w, id, step).rows && DoMember(w, id, step).rows[k] == w.rows[k]
  {
  }

  /** A sent or cancelled row never changes again, under any step of anyone. */
  lemma TriageLeavesSettled(w: World, t: TriageStep, k: Id)
    requires k in w.rows && RowOk(w.rows[k]) && w.rows[k].state in {Sent, State.Cancelled}
    ensures k in DoTriage(w, t).rows && DoTriage(w, t).rows[k] == w.rows[k]
  {
    var e := TriageEffect(w.desk, w.rows, w.now, t);
    InvalidateSettles(w.rows[k], e.reason, e.reason, w.now, w.now);
  }

  lemma SettledRowsFrozen(w: World, step: Step, k: Id)
    requires Inv(w) && k in w.rows && w.rows[k].state in {Sent, State.Cancelled}
    ensures k in Apply(w, step).rows && Apply(w, step).rows[k] == w.rows[k]
  {
    assert RowOk(w.rows[k]);
    match step
    case Tick(seconds) =>
    case Triage(t) => TriageLeavesSettled(w, t, k);
    case Member(id, m) => MemberLeavesSettled(w, id, m, k);
    case Claim(id, token, asOf) =>
    case Work(token, s) => WorkLeavesSettled(w, token, s, k);
    case Expire(id, asOf) =>
  }

  lemma {:induction false} SettledForever(w: World, steps: seq<Step>, k: Id)
    requires Inv(w) && k in w.rows && w.rows[k].state in {Sent, State.Cancelled}
    ensures k in Run(w, steps).rows && Run(w, steps).rows[k] == w.rows[k]
    decreases |steps|
  {
    if steps != [] {
      SettledRowsFrozen(w, steps[0], k);
      InvStep(w, steps[0]);
      SettledForever(Apply(w, steps[0]), steps[1..], k);
    }
  }
}
