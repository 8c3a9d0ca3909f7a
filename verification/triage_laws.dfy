/** What each triage step does to the desk and to the prepared notifications, exactly. */
module TriageLaws {
  import opened Common
  import opened Transitions
  import opened Notifications
  import opened DeliveryWorld
  import opened DeliveryInvariants

  // ----- the transition tables

  /** A report is linked from new or linked, and leaves linked only by an unlink. */
  lemma ReportTableExactly(action: ReportAction, from: TriageState)
    ensures CheckReport(action, from)
            == match action
               case Link => if from == Dismissed then None else Some(Linked)
               case Unlink => if from == Linked then Some(New) else None
               case Dismiss => if from == New then Some(Dismissed) else None
               case Restore => if from == Dismissed then Some(New) else None
  {
    assert action in REPORT_TRANSITIONS;
  }

  lemma ProblemTableExactly(action: ProblemAction, from: ProblemState)
    ensures CheckProblem(action, from)
            == match action
               case Start => if from == Open then Some(InProgress) else None
               case Stop => if from == InProgress then Some(Open) else None
               case Decline => if from == Open || from == InProgress then Some(NotPlanned) else None
               case Reopen => if from == NotPlanned then Some(Open) else None
    ensures CheckFixConfirmation(from) == if from == Open || from == InProgress then Some(FixAvailable) else None
  {
    assert action in PROBLEM_TRANSITIONS;
  }

  // ----- invalidation

  /** What a report's change does to one prepared notification: what has not been handed to a
      worker is cancelled, what a worker holds becomes uncertain, and what is uncertain is
      marked; a mark is never overwritten. */
  lemma InvalidationExactly(n: Row, reason: Reason, now: Time)
    requires RowOk(n)
    ensures InvalidateRow(n, reason, now)
            == if n.invalidated.Some? || n.state == Sent then n
               else n.(state := if n.leaseToken.Some? || n.state == Uncertain then Uncertain else Cancelled,
                       invalidated := Some(Invalidation(now, reason)))
  {
  }

  /** The world after a triage step that leaves this desk and invalidates for these reports. */
  ghost predicate Leaves(w: World, step: TriageStep, desk: Desk, reports: set<Id>, reason: Reason) {
    var v := Apply(w, Triage(step));
    && v.now == w.now && v.desk == desk && v.workers == w.workers && v.log == w.log && v.rows.Keys == w.rows.Keys
    && forall k :: k in w.rows ==>
         v.rows[k] == if w.rows[k].report in reports then InvalidateRow(w.rows[k], reason, w.now) else w.rows[k]
  }

  /** A step leaves what its effect says; without reports the reason does not matter. */
  lemma EffectLeaves(w: World, step: TriageStep, desk: Desk, reports: set<Id>, reason: Reason)
    requires var e := TriageEffect(w.desk, w.rows, w.now, step);
             e.desk == desk && e.reports == reports && (reports == {} || e.reason == reason)
    ensures Leaves(w, step, desk, reports, reason)
  {
  }

  // ----- reports

  function Changed(d: Desk, r: Id, report: Report): Desk
    requires r in d.reports
  {
    d.(reports := d.reports[r := report.(version := d.reports[r].version + 1)])
  }

  /** A report is linked or moved unless it is dismissed or there already; only a move
      invalidates. */
  lemma LinkExactly(w: World, r: Id, p: Id)
    ensures var d := w.desk;
            if r in d.reports && p in d.problems && d.reports[r].problem != Some(p) && d.reports[r].triage != Dismissed
            then Leaves(w, LinkReport(r, p), Changed(d, r, d.reports[r].(problem := Some(p), triage := Linked)),
                        if d.reports[r].problem.Some? then {r} else {}, Moved)
            else Leaves(w, LinkReport(r, p), d, {}, Stale)
  {
    if r in w.desk.reports {
      ReportTableExactly(Link, w.desk.reports[r].triage);
    }
  }

  lemma UnlinkExactly(w: World, r: Id)
    ensures var d := w.desk;
            if r in d.reports && d.reports[r].triage == Linked
            then Leaves(w, ActOnReport(r, Unlink), Changed(d, r, d.reports[r].(problem := None, triage := New)), {r}, Unlinked)
            else Leaves(w, ActOnReport(r, Unlink), d, {}, Stale)
  {
    if r in w.desk.reports {
      ReportTableExactly(Unlink, w.desk.reports[r].triage);
    }
  }

  /** Dismissing and restoring a report invalidates nothing: it has no problem. */
  lemma DismissExactly(w: World, r: Id)
    ensures Leaves(w, ActOnReport(r, Dismiss), if r in w.desk.reports && w.desk.reports[r].triage == New
                                               then Changed(w.desk, r, w.desk.reports[r].(triage := Dismissed)) else w.desk, {}, Stale)
    ensures Leaves(w, ActOnReport(r, Restore), if r in w.desk.reports && w.desk.reports[r].triage == Dismissed
                                               then Changed(w.desk, r, w.desk.reports[r].(triage := New)) else w.desk, {}, Stale)
  {
    if r in w.desk.reports {
      ReportTableExactly(Dismiss, w.desk.reports[r].triage);
      ReportTableExactly(Restore, w.desk.reports[r].triage);
    }
    EffectLeaves(w, ActOnReport(r, Dismiss), ActOnReportEffect(w.desk, r, Dismiss).desk, {}, Stale);
    EffectLeaves(w, ActOnReport(r, Restore), ActOnReportEffect(w.desk, r, Restore).desk, {}, Stale);
  }

  /** Every edit counts as a new version, which is what makes prepared messages stale. */
  lemma EditReportExactly(w: World, r: Id)
    ensures if r in w.desk.reports then Leaves(w, EditReport(r), Changed(w.desk, r, w.desk.reports[r]), {}, Stale)
            else Leaves(w, EditReport(r), w.desk, {}, Stale)
  {
  }

  /** Whom customer contact lands with: the assignee for a manual report that has one. */
  lemma RecipientExactly(report: Report)
    ensures Recipient(report) == if report.manual && report.assignee.Some? then report.assignee.value else report.submitter
    ensures !report.manual ==> Recipient(report) == report.submitter
  {
  }

  /** The pending follow-up `f` is taken over when report `r` gets this assignee. */
  predicate TakenOver(d: Desk, r: Id, assignee: Option<Id>, f: Key)
    requires r in d.reports
  {
    && d.reports[r].manual && f in d.followUps && f.report == r && d.followUps[f].contact == Pending
    && d.followUps[f].recipient != (if assignee.Some? then assignee.value else d.reports[r].submitter)
  }

  /** A new assignee takes over every pending follow-up of a manual report, at the report's new
      version, or the whole assignment is refused because one of them was left behind. */
  lemma AssignExactly(w: World, r: Id, assignee: Option<Id>)
    ensures var d, v := w.desk, Apply(w, Triage(AssignReport(r, assignee)));
            if r !in d.reports || d.reports[r].assignee == assignee
               || exists f :: TakenOver(d, r, assignee, f) && d.reports[r].problem != Some(f.problem)
            then Leaves(w, AssignReport(r, assignee), d, {}, Stale)
            else
              && Leaves(w, AssignReport(r, assignee),
                        Changed(d, r, d.reports[r].(assignee := assignee)).(followUps := v.desk.followUps), {r}, Reassigned)
              && v.desk.followUps.Keys == d.followUps.Keys
              && forall f :: f in d.followUps ==>
                   v.desk.followUps[f]
                   == if TakenOver(d, r, assignee, f)
                      then d.followUps[f].(recipient := if assignee.Some? then assignee.value else d.reports[r].submitter,
                                           reportVersion := d.reports[r].version + 1, version := d.followUps[f].version + 1)
                      else d.followUps[f]
  {
    var d := w.desk;
    if r in d.reports && d.reports[r].assignee != assignee {
      AssignEffectExactly(d, r, assignee);
    }
  }

  lemma AssignEffectExactly(d: Desk, r: Id, assignee: Option<Id>)
    requires r in d.reports && d.reports[r].assignee != assignee
    ensures var d1 := Changed(d, r, d.reports[r].(assignee := assignee));
            AssignEffect(d, r, assignee)
            == if exists f :: TakenOver(d, r, assignee, f) && d.reports[r].problem != Some(f.problem) then Quiet(d)
               else Effect(if d.reports[r].manual then Retarget(d1, r, Retargeted(d1, r)) else d1, {r}, Reassigned)
    ensures forall f :: f in Retargeted(Changed(d, r, d.reports[r].(assignee := assignee)), r) && d.reports[r].manual
                    <==> TakenOver(d, r, assignee, f)
  {
    var d1 := Changed(d, r, d.reports[r].(assignee := assignee));
    assert d1 == SetReport(d, r, d.reports[r].(assignee := assignee));
    assert forall f :: f in Retargeted(d1, r) && d.reports[r].manual <==> TakenOver(d, r, assignee, f);
    assert forall f :: TakenOver(d, r, assignee, f) ==> (SaveGuard(d1, f) <==> d.reports[r].problem == Some(f.problem));
  }

  /** What is new starts open, unlinked and without a history, under an id that is not taken. */
  lemma AdditionsExactly(w: World, id: Id, submitter: Id, manual: bool, p: Id)
    ensures var d := w.desk;
            && Leaves(w, AddProblem(id), if id in d.problems then d
                      else d.(problems := d.problems[id := Problem(Open, 0, None, false, 1)]), {}, Stale)
            && Leaves(w, AddReport(id, submitter, manual), if id in d.reports then d
                      else d.(reports := d.reports[id := Report(None, New, 1, submitter, None, manual)]), {}, Stale)
            && Leaves(w, AddIssue(id, p), if id in d.issues || p !in d.problems then d
                      else d.(issues := d.issues[id := Issue(p, None)]), {}, Stale)
  {
    EffectLeaves(w, AddProblem(id), TriageEffect(w.desk, w.rows, w.now, AddProblem(id)).desk, {}, Stale);
    EffectLeaves(w, AddReport(id, submitter, manual), TriageEffect(w.desk, w.rows, w.now, AddReport(id, submitter, manual)).desk, {}, Stale);
    EffectLeaves(w, AddIssue(id, p), TriageEffect(w.desk, w.rows, w.now, AddIssue(id, p)).desk, {}, Stale);
  }

  // ----- problems and fixes

  function ChangedProblem(d: Desk, p: Id, problem: Problem): Desk
    requires p in d.problems
  {
    d.(problems := d.problems[p := problem.(version := d.problems[p].version + 1)])
  }

  lemma ActOnProblemExactly(w: World, p: Id, action: ProblemAction)
    ensures var d := w.desk;
            var to := if p !in d.problems then None else match action
              case Start => if d.problems[p].state == Open then Some(InProgress) else None
              case Stop => if d.problems[p].state == InProgress then Some(Open) else None
              case Decline => if d.problems[p].state == Open || d.problems[p].state == InProgress then Some(NotPlanned) else None
              case Reopen => if d.problems[p].state == NotPlanned then Some(Open) else None;
            Leaves(w, ActOnProblem(p, action),
                   if to.Some? then ChangedProblem(d, p, d.problems[p].(state := to.value)) else d, {}, Stale)
  {
    if p in w.desk.problems {
      ProblemTableExactly(action, w.desk.problems[p].state);
    }
    EffectLeaves(w, ActOnProblem(p, action), ActOnProblemEffect(w.desk, p, action).desk, {}, Stale);
  }

  /** The follow-ups of `d`, and one more for each given report that has none at this revision. */
  ghost predicate FollowUpsAdded(d: Desk, after: map<Key, FollowUp>, reports: set<Id>, p: Id, revision: nat)
    requires reports <= d.reports.Keys
  {
    && (forall f :: f in after <==> f in d.followUps || (f.report in reports && f.problem == p && f.revision == revision))
    && (forall f :: f in d.followUps ==> after[f] == d.followUps[f])
    && forall f :: f in after && f !in d.followUps ==>
         after[f] == FollowUp(if d.reports[f.report].manual && d.reports[f.report].assignee.Some?
                              then d.reports[f.report].assignee.value else d.reports[f.report].submitter,
                              Pending, d.reports[f.report].version, 1)
  }

  /** A fix is confirmed exactly while the problem is open or in progress, and then every linked
      report of the problem gets a follow-up at the new revision. */
  lemma ConfirmFixExactly(w: World, p: Id)
    requires Reachable(w)
    ensures var d, v := w.desk, Apply(w, Triage(ConfirmFix(p)));
            if p in d.problems && (d.problems[p].state == Open || d.problems[p].state == InProgress)
            then
              var revision := d.problems[p].revision + 1;
              && Leaves(w, ConfirmFix(p),
                        ChangedProblem(d, p, d.problems[p].(state := FixAvailable, revision := revision,
                                                            confirmedAt := Some(w.now), needsReview := false))
                        .(followUps := v.desk.followUps, confirmations := d.confirmations + [p]), {}, Stale)
              && FollowUpsAdded(d, v.desk.followUps,
                                (set r | r in d.reports && d.reports[r].problem == Some(p) && d.reports[r].triage == Linked), p, revision)
            else Leaves(w, ConfirmFix(p), d, {}, Stale)
  {
    var d := w.desk;
    if p in d.problems {
      ProblemTableExactly(Start, d.problems[p].state);
      if CheckFixConfirmation(d.problems[p].state).Some? {
        var d1 := SetProblem(d, p, WithFix(d.problems[p], FixAvailable, w.now));
        var linked := set r | r in d.reports && d.reports[r].problem == Some(p) && d.reports[r].triage == Linked;
        assert LinkedReports(d1, p) == linked;
        FollowUpsExactly(d1, linked, p, d.problems[p].revision + 1);
      }
    }
    EffectLeaves(w, ConfirmFix(p), ConfirmFixEffect(d, p, w.now).desk, {}, Stale);
  }

  lemma FollowUpsExactly(d: Desk, reports: set<Id>, p: Id, revision: nat)
    requires reports <= d.reports.Keys
    ensures FollowUpsAdded(d, WithFollowUps(d, reports, p, revision), reports, p, revision)
  {
    var after := WithFollowUps(d, reports, p, revision);
    forall f
      ensures f in KeysAt(reports, p, revision) <==> f.report in reports && f.problem == p && f.revision == revision
    {
      if f.report in reports && f.problem == p && f.revision == revision {
        assert f == Key(f.report, p, revision);
      }
    }
  }

  /** Confirming the fix for one linked report adds its follow-up exactly at the revision that
      the member saw. */
  lemma ConfirmReportFixExactly(w: World, r: Id, expected: nat)
    requires Reachable(w)
    ensures var d, v := w.desk, Apply(w, Triage(ConfirmReportFix(r, expected)));
            if r in d.reports && d.reports[r].triage == Linked && d.reports[r].problem.Some?
               && d.reports[r].problem.value in d.problems && d.problems[d.reports[r].problem.value].state == FixAvailable
               && d.problems[d.reports[r].problem.value].revision == expected
            then Leaves(w, ConfirmReportFix(r, expected), d.(followUps := v.desk.followUps), {}, Stale)
                 && FollowUpsAdded(d, v.desk.followUps, {r}, d.reports[r].problem.value, expected)
            else Leaves(w, ConfirmReportFix(r, expected), d, {}, Stale)
  {
    ReachableInv(w);
    var d := w.desk;
    if r in d.reports && d.reports[r].problem.Some? && d.reports[r].problem.value in d.problems {
      var p := d.reports[r].problem.value;
      assert FixOk(d.problems[p], Count(d.confirmations, p), w.now);
      FollowUpsExactly(d, {r}, p, expected);
    }
    EffectLeaves(w, ConfirmReportFix(r, expected), ConfirmReportFixEffect(d, r, expected).desk, {}, Stale);
  }

  // ----- issues

  /** Closing an issue asks for a review of its problem. */
  function AfterClosing(d: Desk, p: Id, closes: bool): Desk
    requires p in d.problems
  {
    if closes && !d.problems[p].needsReview then ChangedProblem(d, p, d.problems[p].(needsReview := true)) else d
  }

  /** Reopening asks for a review and takes a fix back; the version counts a real change. */
  function AfterReopening(d: Desk, p: Id): Desk
    requires p in d.problems
  {
    if d.problems[p].needsReview && d.problems[p].state != FixAvailable then d
    else ChangedProblem(d, p, d.problems[p].(needsReview := true,
                                             state := if d.problems[p].state == FixAvailable then InProgress else d.problems[p].state))
  }

  /** The reopening counts: it is later than the last one applied and than the fix. */
  predicate Reopens(d: Desk, i: Id, reopenAt: Option<Time>)
    requires i in d.issues && d.issues[i].problem in d.problems
  {
    && reopenAt.Some? && (d.issues[i].lastReopen.Some? ==> reopenAt.value > d.issues[i].lastReopen.value)
    && (d.problems[d.issues[i].problem].confirmedAt.Some? ==> reopenAt.value > d.problems[d.issues[i].problem].confirmedAt.value)
  }

  function AfterEvent(d: Desk, i: Id, closes: bool, reopenAt: Option<Time>): Desk
    requires i in d.issues && d.issues[i].problem in d.problems
  {
    AfterReopening(AfterClosing(d, d.issues[i].problem, closes), d.issues[i].problem)
    .(issues := d.issues[i := d.issues[i].(lastReopen := reopenAt)])
  }

  function AllOf(d: Desk, p: Id): set<Id> {
    set r | r in d.reports && d.reports[r].problem == Some(p)
  }

  /** A reopening counts exactly when it is later than the last one applied to the issue and than
      the confirmation of the fix; then every report of the problem is invalidated. */
  lemma IssueEventExactly(w: World, i: Id, closes: bool, reopenAt: Option<Time>)
    requires Reachable(w)
    ensures var d := w.desk;
            if i !in d.issues then Leaves(w, IssueEvent(i, closes, reopenAt), d, {}, Stale)
            else
              d.issues[i].problem in d.problems
              && if Reopens(d, i, reopenAt)
                 then Leaves(w, IssueEvent(i, closes, reopenAt), AfterEvent(d, i, closes, reopenAt),
                             AllOf(d, d.issues[i].problem), IssueReopened)
                 else Leaves(w, IssueEvent(i, closes, reopenAt), AfterClosing(d, d.issues[i].problem, closes), {}, Stale)
  {
    ReachableInv(w);
    var e := IssueEffect(w.desk, i, closes, reopenAt);
    if i in w.desk.issues {
      IssueEffectExactly(w.desk, i, closes, reopenAt);
    }
    EffectLeaves(w, IssueEvent(i, closes, reopenAt), e.desk, e.reports, e.reason);
    if e.reports == {} {
      EffectLeaves(w, IssueEvent(i, closes, reopenAt), e.desk, {}, Stale);
    }
  }

  lemma IssueEffectExactly(d: Desk, i: Id, closes: bool, reopenAt: Option<Time>)
    requires i in d.issues && d.issues[i].problem in d.problems
    ensures var e := IssueEffect(d, i, closes, reopenAt);
            if Reopens(d, i, reopenAt)
            then e == Effect(AfterEvent(d, i, closes, reopenAt), AllOf(d, d.issues[i].problem), IssueReopened)
            else e.desk == AfterClosing(d, d.issues[i].problem, closes) && e.reports == {}
  {
    var p := d.issues[i].problem;
    var d1 := AfterClosing(d, p, closes);
    assert d1.problems[p].confirmedAt == d.problems[p].confirmedAt;
    assert Reopened(d1.problems[p]) == d1.problems[p] <==> d1.problems[p].needsReview && d1.problems[p].state != FixAvailable;
    assert IssueEffect(d, i, closes, reopenAt).desk.reports == d.reports;
  }

  /** Replacing a problem's issue invalidates for all its reports, a disconnection for all. */
  lemma UnlinkingExactly(w: World, p: Id)
    ensures Leaves(w, ReplaceIssue(p), w.desk, AllOf(w.desk, p), IssueRelinked)
    ensures Leaves(w, Disconnect, w.desk, w.desk.reports.Keys, Disconnected)
  {
    EffectLeaves(w, ReplaceIssue(p), w.desk, AllOf(w.desk, p), IssueRelinked);
    EffectLeaves(w, Disconnect, w.desk, w.desk.reports.Keys, Disconnected);
  }

  // ----- follow-ups

  function ChangedFollowUp(d: Desk, f: Key, followUp: FollowUp): Desk
    requires f in d.followUps && f.report in d.reports
  {
    d.(followUps := d.followUps[f := followUp.(reportVersion := d.reports[f.report].version,
                                               version := d.followUps[f].version + 1)])
  }

  /** A follow-up goes to another member unless its report has moved; a notification that is
      not cancelled is invalidated with it. */
  lemma ChangeRecipientExactly(w: World, f: Key, member: Id)
    ensures var d := w.desk;
            if f in d.followUps && d.followUps[f].recipient != member && f.report in d.reports
               && d.reports[f.report].problem == Some(f.problem)
            then Leaves(w, ChangeRecipient(f, member), ChangedFollowUp(d, f, d.followUps[f].(recipient := member)),
                        if exists k :: k in w.rows && w.rows[k].followUp == f && w.rows[k].state != Cancelled then {f.report} else {},
                        Reassigned)
            else Leaves(w, ChangeRecipient(f, member), d, {}, Stale)
  {
    var e := ChangeRecipientEffect(w.desk, w.rows, f, member);
    EffectLeaves(w, ChangeRecipient(f, member), e.desk, e.reports, if e.reports == {} then Reassigned else e.reason);
    if e.reports == {} {
      EffectLeaves(w, ChangeRecipient(f, member), e.desk, {}, Stale);
    }
  }

  /** Contact is recorded once from pending, and once more from contacted, to a later state. */
  predicate OutcomeOpen(from: Contact, to: Contact) {
    match from
    case Pending => to != Pending && to != Confirmed
    case Contacted => to != Pending && to != Contacted
    case _ => false
  }

  lemma OutcomeTableExactly(from: Contact, to: Contact)
    ensures OutcomeAllowed(from, to) <==> OutcomeOpen(from, to)
  {
  }

  /** The follow-up's report is still at its problem, and the outcome may follow the last one. */
  predicate RecordsOutcome(d: Desk, f: Key, contact: Contact) {
    && f in d.followUps && f.problem in d.problems && f.report in d.reports && d.reports[f.report].problem == Some(f.problem)
    && OutcomeOpen(d.followUps[f].contact, contact)
  }

  function AfterOutcome(d: Desk, f: Key, contact: Contact): Desk
    requires f in d.followUps && f.report in d.reports && f.problem in d.problems
  {
    var d1 := ChangedFollowUp(d, f, d.followUps[f].(contact := contact));
    if contact == StillAffected then AfterClosing(d1, f.problem, true) else d1
  }

  lemma OutcomeEffectExactly(d: Desk, f: Key, contact: Contact)
    requires f in d.followUps ==> f.problem in d.problems
    ensures OutcomeEffect(d, f, contact) == Quiet(if RecordsOutcome(d, f, contact) then AfterOutcome(d, f, contact) else d)
  {
    if f in d.followUps {
      OutcomeTableExactly(d.followUps[f].contact, contact);
    }
  }

  lemma OutcomeLeaves(w: World, f: Key, contact: Contact, desk: Desk)
    requires OutcomeEffect(w.desk, f, contact) == Quiet(desk)
    ensures Leaves(w, RecordOutcome(f, contact), desk, {}, Stale)
  {
    EffectLeaves(w, RecordOutcome(f, contact), desk, {}, Stale);
  }

  /** An outcome changes the follow-up alone, except that a member who is still affected asks
      for a review of the problem. No notification is touched. */
  lemma OutcomeExactly(w: World, f: Key, contact: Contact)
    requires Reachable(w)
    ensures f in w.desk.followUps ==> f.problem in w.desk.problems
    ensures Leaves(w, RecordOutcome(f, contact), if RecordsOutcome(w.desk, f, contact) then AfterOutcome(w.desk, f, contact) else w.desk,
                   {}, Stale)
  {
    ReachableInv(w);
    OutcomeEffectExactly(w.desk, f, contact);
    OutcomeLeaves(w, f, contact, if RecordsOutcome(w.desk, f, contact) then AfterOutcome(w.desk, f, contact) else w.desk);
  }
}
