/** Triage as the source performs it: tables updated in place by locked transactions, with loops
    over the linked reports and over the follow-ups to retarget. Each method leaves the tables as
    the effect of the same name says and returns the reports whose notifications it invalidates. */
module DeskStores {
  import opened Common
  import opened Transitions
  import opened Notifications
  import opened DeliveryWorld

  class DeskStore {
    var problems: map<Id, Problem>
    var reports: map<Id, Report>
    var followUps: map<Key, FollowUp>
    var issues: map<Id, Issue>
    ghost var confirmations: seq<Id>

    ghost function Value(): Desk
      reads this
    {
      Desk(problems, reports, followUps, issues, confirmations)
    }

    constructor ()
      ensures Value() == EMPTY.desk
    {
      problems, reports, followUps, issues := map[], map[], map[], map[];
      confirmations := [];
    }

    /** finish_mutation on a report */
    method SaveReport(r: Id, report: Report)
      modifies this`reports
      ensures Value() == SetReport(old(Value()), r, report)
    {
      reports := reports[r := report.(version := report.version + 1)];
    }

    /** finish_mutation on a problem */
    method SaveProblem(p: Id, problem: Problem)
      modifies this`problems
      ensures Value() == SetProblem(old(Value()), p, problem)
    {
      problems := problems[p := problem.(version := problem.version + 1)];
    }

    method LinkReport(r: Id, p: Id) returns (invalidate: set<Id>, reason: Reason)
      modifies this
      ensures Effect(Value(), invalidate, reason) == LinkEffect(old(Value()), r, p)
    {
      invalidate, reason := {}, Stale;
      if r !in reports || p !in problems || reports[r].problem == Some(p) {
        return;
      }
      var to := CheckReport(Link, reports[r].triage);
      if to.None? {
        return;
      }
      var previous := reports[r].problem;
      SaveReport(r, reports[r].(problem := Some(p), triage := to.value));
      if previous.Some? {
        invalidate, reason := {r}, Moved;
      }
    }

    method ChangeTriage(r: Id, action: ReportAction) returns (invalidate: set<Id>, reason: Reason)
      modifies this
      ensures Effect(Value(), invalidate, reason) == ActOnReportEffect(old(Value()), r, action)
    {
      invalidate, reason := {}, Stale;
      if r !in reports || action == Link {
        return;
      }
      var to := CheckReport(action, reports[r].triage);
      if to.None? {
        return;
      }
      var report := reports[r].(triage := to.value);
      if action == Unlink {
        SaveReport(r, report.(problem := None));
        invalidate, reason := {r}, Unlinked;
      } else {
        SaveReport(r, report);
      }
    }

    method ChangeProblemState(p: Id, action: ProblemAction)
      modifies this
      ensures Quiet(Value()) == ActOnProblemEffect(old(Value()), p, action)
    {
      if p in problems {
        var to := CheckProblem(action, problems[p].state);
        if to.Some? {
          SaveProblem(p, problems[p].(state := to.value));
        }
      }
    }

    /** _create_follow_ups: get_or_create for each report in turn. */
    method CreateFollowUps(linked: set<Id>, p: Id, revision: nat)
      requires linked <= reports.Keys
      modifies this`followUps
      ensures followUps == WithFollowUps(old(Value()), linked, p, revision)
    {
      var todo := linked;
      while todo != {}
        invariant todo <= linked
        invariant followUps.Keys == old(followUps).Keys + KeysAt(linked - todo, p, revision)
        invariant forall f :: f in followUps ==>
          f.report in linked || f in old(followUps)
        invariant forall f :: f in followUps ==>
          followUps[f] == if f in old(followUps) then old(followUps)[f] else FreshFollowUp(reports[f.report])
        decreases todo
      {
        var r :| r in todo;
        var key := Key(r, p, revision);
        if key !in followUps {
          followUps := followUps[key := FreshFollowUp(reports[r])];
        }
        assert linked - (todo - {r}) == (linked - todo) + {r};
        todo := todo - {r};
      }
      assert linked - todo == linked;
    }

    method ConfirmFix(p: Id, now: Time)
      modifies this
      ensures Quiet(Value()) == ConfirmFixEffect(old(Value()), p, now)
    {
      if p !in problems {
        return;
      }
      var to := CheckFixConfirmation(problems[p].state);
      if to.None? {
        return;
      }
      var revision := problems[p].revision + 1;
      SaveProblem(p, problems[p].(state := to.value, revision := revision,
                                  confirmedAt := Some(now), needsReview := false));
      ghost var d1 := Value();
      var linked := set r | r in reports && reports[r].problem == Some(p) && reports[r].triage == Linked;
      assert linked == LinkedReports(d1, p);
      CreateFollowUps(linked, p, revision);
      confirmations := confirmations + [p];
    }

    /** _retarget_pending_follow_ups, or nothing at all when one of them cannot be saved. */
    method RetargetPending(r: Id) returns (ok: bool)
      requires r in reports
      modifies this`followUps
      ensures var d := old(Value()); var taken := Retargeted(d, r);
        && (ok <==> forall f :: f in taken ==> SaveGuard(d, f))
        && followUps == if ok then Retarget(d, r, taken).followUps else old(followUps)
    {
      var recipient := Recipient(reports[r]);
      var taken := set f | f in followUps && f.report == r && followUps[f].contact == Pending
                           && followUps[f].recipient != recipient;
      assert taken == Retargeted(old(Value()), r);
      var before := followUps;
      var todo := taken;
      while todo != {}
        invariant todo <= taken && before == old(followUps)
        invariant followUps.Keys == before.Keys
        invariant forall f :: f in taken - todo ==> SaveGuard(old(Value()), f)
        invariant forall f :: f in before ==>
          followUps[f] == if f in taken - todo then Retarget(old(Value()), r, taken).followUps[f] else before[f]
        decreases todo
      {
        var f :| f in todo;
        if reports[r].problem != Some(f.problem) {
          followUps := before;
          return false;
        }
        followUps := followUps[f := followUps[f].(recipient := recipient, reportVersion := reports[r].version,
                                                  version := followUps[f].version + 1)];
        todo := todo - {f};
      }
      return true;
    }

    method AssignReport(r: Id, assignee: Option<Id>) returns (invalidate: set<Id>, reason: Reason)
      modifies this
      ensures Effect(Value(), invalidate, reason) == AssignEffect(old(Value()), r, assignee)
    {
      invalidate, reason := {}, Stale;
      if r !in reports || reports[r].assignee == assignee {
        return;
      }
      var before := reports;
      SaveReport(r, reports[r].(assignee := assignee));
      if reports[r].manual {
        var ok := RetargetPending(r);
        if !ok {
          reports := before;
          return;
        }
      }
      invalidate, reason := {r}, Reassigned;
    }

    /** apply_problem_consequences */
    method ApplyConsequences(i: Id, closes: bool, reopenAt: Option<Time>)
      returns (invalidate: set<Id>, reason: Reason)
      modifies this
      ensures Effect(Value(), invalidate, reason) == IssueEffect(old(Value()), i, closes, reopenAt)
    {
      invalidate, reason := {}, Stale;
      if i !in issues || issues[i].problem !in problems {
        return;
      }
      var p := issues[i].problem;
      if closes && !problems[p].needsReview {
        SaveProblem(p, problems[p].(needsReview := true));
      }
      if reopenAt.None? {
        return;
      }
      if issues[i].lastReopen.Some? && reopenAt.value <= issues[i].lastReopen.value {
        return;
      }
      var problem := problems[p];
      if problem.confirmedAt.Some? && reopenAt.value <= problem.confirmedAt.value {
        return;
      }
      issues := issues[i := issues[i].(lastReopen := reopenAt)];
      var changed := false;
      if !problem.needsReview {
        problem := problem.(needsReview := true);
        changed := true;
      }
      if problem.state == FixAvailable {
        problem := problem.(state := InProgress);
        changed := true;
      }
      if changed {
        SaveProblem(p, problem);
      }
      invalidate := set r | r in reports && reports[r].problem == Some(p);
      reason := IssueReopened;
      assert invalidate == ReportsOf(Value(), p);
    }
  }
}
