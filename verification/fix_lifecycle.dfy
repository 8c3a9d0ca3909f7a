/** The life of a confirmed fix: who may end it, what a confirmation creates, and what an issue
    reopening that arrives twice or out of order may change. */
module FixLifecycle {
  import opened Common
  import opened Transitions
  import opened Notifications
  import opened DeliveryWorld
  import opened DeliveryInvariants

  // ----- leaving fix_available

  /** A reopening of an issue of `p`, later than the confirmation of its fix and than the last
      reopening applied to the issue. */
  predicate LateReopen(d: Desk, step: Step, p: Id)
    requires p in d.problems
  {
    && step.Triage? && step.triage.IssueEvent? && step.triage.reopenAt.Some?
    && step.triage.i in d.issues && d.issues[step.triage.i].problem == p
    && d.problems[p].confirmedAt.Some? && step.triage.reopenAt.value > d.problems[p].confirmedAt.value
    && (d.issues[step.triage.i].lastReopen.Some? ==> step.triage.reopenAt.value > d.issues[step.triage.i].lastReopen.value)
  }

  /** What one triage step may do to a problem whose fix is available. */
  predicate FixStep(d: Desk, d': Desk, step: TriageStep, p: Id)
    requires p in d.problems
  {
    && p in d'.problems
    && (d'.problems[p].state == FixAvailable
        || (d'.problems[p].state == InProgress && LateReopen(d, Triage(step), p)))
  }

  lemma IssueFixStep(d: Desk, i: Id, closes: bool, reopenAt: Option<Time>, p: Id)
    requires p in d.problems && d.problems[p].state == FixAvailable && d.problems[p].confirmedAt.Some?
    ensures FixStep(d, IssueEffect(d, i, closes, reopenAt).desk, IssueEvent(i, closes, reopenAt), p)
  {
  }

  lemma TriageFixStep(d: Desk, rows: Rows, now: Time, step: TriageStep, p: Id)
    requires p in d.problems && d.problems[p].state == FixAvailable && d.problems[p].confirmedAt.Some?
    ensures FixStep(d, TriageEffect(d, rows, now, step).desk, step, p)
  {
    match step
    case ActOnProblem(q, action) => TableAvoidsFixAvailable(action, FixAvailable);
    case IssueEvent(i, closes, reopenAt) => IssueFixStep(d, i, closes, reopenAt, p);
    case _ =>
  }

  /** A problem leaves `fix_available` only for `in_progress`, and only by a reopening of its
      own issue strictly later than the confirmation. Its revision counts confirmations. */
  lemma FixEndsOnlyByLaterReopen(w: World, step: Step, p: Id)
    requires Reachable(w) && p in w.desk.problems && w.desk.problems[p].state == FixAvailable
    ensures p in Apply(w, step).desk.problems
    ensures var after := Apply(w, step).desk.problems[p].state;
            after == FixAvailable || (after == InProgress && LateReopen(w.desk, step, p))
  {
    ReachableInv(w);
    assert FixOk(w.desk.problems[p], Count(w.desk.confirmations, p), w.now);
    if step.Triage? {
      TriageFixStep(w.desk, w.rows, w.now, step.triage, p);
    }
  }

  /** A problem's resolution revision is the number of times its fix was confirmed. */
  lemma RevisionCountsConfirmations(w: World, p: Id)
    requires Reachable(w) && p in w.desk.problems
    ensures w.desk.problems[p].revision == Count(w.desk.confirmations, p)
    ensures w.desk.problems[p].state == FixAvailable ==> w.desk.problems[p].revision >= 1
  {
    ReachableInv(w);
    assert FixOk(w.desk.problems[p], Count(w.desk.confirmations, p), w.now);
  }

  // ----- reopenings that come again

  predicate NotBefore(a: Option<Time>, b: Option<Time>) {
    a == b || (b.Some? && (a.None? || a.value < b.value))
  }

  lemma IssueAdvances(d: Desk, j: Id, closes: bool, reopenAt: Option<Time>, i: Id)
    requires i in d.issues
    ensures var d' := IssueEffect(d, j, closes, reopenAt).desk;
            i in d'.issues && NotBefore(d.issues[i].lastReopen, d'.issues[i].lastReopen)
  {
  }

  lemma ReopenAdvances(d: Desk, rows: Rows, now: Time, step: TriageStep, i: Id)
    requires i in d.issues
    ensures var d' := TriageEffect(d, rows, now, step).desk;
            i in d'.issues && NotBefore(d.issues[i].lastReopen, d'.issues[i].lastReopen)
  {
    if step.IssueEvent? {
      IssueAdvances(d, step.i, step.closes, step.reopenAt, i);
    }
  }

  lemma {:induction false} ReopenTimesGrow(w: World, steps: seq<Step>, i: Id)
    requires i in w.desk.issues
    ensures i in Run(w, steps).desk.issues
    ensures NotBefore(w.desk.issues[i].lastReopen, Run(w, steps).desk.issues[i].lastReopen)
    decreases |steps|
  {
    if steps != [] {
      if steps[0].Triage? {
        ReopenAdvances(w.desk, w.rows, w.now, steps[0].triage, i);
      }
      ReopenTimesGrow(Apply(w, steps[0]), steps[1..], i);
    }
  }

  /** Once a reopening was applied, no later delivery of it, nor of an earlier one, changes
      anything, whatever happened in between. */
  lemma ReplayedReopenChangesNothing(w: World, steps: seq<Step>, i: Id, at: Time, again: Time)
    requires i in w.desk.issues && w.desk.issues[i].lastReopen == Some(at) && again <= at
    ensures var w' := Run(w, steps); Apply(w', Triage(IssueEvent(i, false, Some(again)))) == w'
  {
    ReopenTimesGrow(w, steps, i);
    var w' := Run(w, steps);
    assert IssueEffect(w'.desk, i, false, Some(again)) == Quiet(w'.desk);
    assert InvalidateRows(w'.rows, {}, Stale, w'.now) == w'.rows;
  }

  // ----- what a confirmation creates

  /** The follow-ups of one revision are exactly those of the linked reports. */
  ghost predicate Bijection(d: Desk, p: Id, revision: nat) {
    forall r :: r in LinkedReports(d, p) <==> Key(r, p, revision) in d.followUps
  }

  /** What a confirmation of `p` at `revision` must leave behind. */
  ghost predicate CreatedAfresh(d: Desk, d': Desk, p: Id, revision: nat) {
    && Bijection(d', p, revision)
    && (forall r :: r in LinkedReports(d, p) ==>
          Key(r, p, revision) in d'.followUps
          && d'.followUps[Key(r, p, revision)] == FreshFollowUp(d.reports[r]))
    && (forall f :: f in d.followUps ==> f in d'.followUps && d'.followUps[f] == d.followUps[f])
    && (forall f :: f in d'.followUps && f !in d.followUps ==> f.problem == p && f.revision == revision)
  }

  lemma WithFollowUpsCreates(d: Desk, d1: Desk, d': Desk, p: Id, revision: nat)
    requires d1.reports == d.reports && d1.followUps == d.followUps
    requires d'.reports == d.reports && d'.followUps == WithFollowUps(d1, LinkedReports(d1, p), p, revision)
    requires forall f :: f in d.followUps && f.problem == p ==> f.revision < revision
    ensures CreatedAfresh(d, d', p, revision)
  {
    assert LinkedReports(d1, p) == LinkedReports(d, p);
    assert LinkedReports(d', p) == LinkedReports(d, p);
    assert forall r :: Key(r, p, revision) !in d.followUps;
  }

  /** Confirming a fix always creates afresh: afterwards the linked reports and the follow-ups
      of the new revision correspond one to one, each addressed to its report's recipient and
      pending, and no older follow-up has changed. */
  lemma ConfirmFixCreatesAfresh(w: World, p: Id)
    requires Reachable(w) && p in w.desk.problems
    requires w.desk.problems[p].state in FIX_CONFIRMATION_SOURCES
    ensures var revision := w.desk.problems[p].revision + 1;
            var d' := Apply(w, Triage(ConfirmFix(p))).desk;
      && d'.problems[p].revision == revision && d'.problems[p].state == FixAvailable
      && CreatedAfresh(w.desk, d', p, revision)
  {
    ReachableRefs(w);
    ConfirmFixOnDesk(w.desk, p, w.now);
    ConfirmStep(w, p);
  }

  lemma ReachableRefs(w: World)
    requires Reachable(w)
    ensures FollowUpRefs(w.desk)
  {
    ReachableInv(w);
  }

  lemma ConfirmStep(w: World, p: Id)
    ensures Apply(w, Triage(ConfirmFix(p))).desk == ConfirmFixEffect(w.desk, p, w.now).desk
  {
  }

  lemma ConfirmFixIs(d: Desk, p: Id, now: Time)
    requires p in d.problems && d.problems[p].state in FIX_CONFIRMATION_SOURCES
    ensures var d1 := SetProblem(d, p, WithFix(d.problems[p], FixAvailable, now));
            ConfirmFixEffect(d, p, now).desk
            == d1.(followUps := WithFollowUps(d1, LinkedReports(d1, p), p, d.problems[p].revision + 1),
                   confirmations := d.confirmations + [p])
  {
    assert CheckFixConfirmation(d.problems[p].state) == Some(FixAvailable);
  }

  lemma ConfirmFixOnDesk(d: Desk, p: Id, now: Time)
    requires FollowUpRefs(d) && p in d.problems && d.problems[p].state in FIX_CONFIRMATION_SOURCES
    ensures var revision := d.problems[p].revision + 1;
            var d' := ConfirmFixEffect(d, p, now).desk;
      && p in d'.problems && d'.problems[p].revision == revision && d'.problems[p].state == FixAvailable
      && CreatedAfresh(d, d', p, revision)
  {
    ConfirmFixIs(d, p, now);
    NoneAtNewRevision(d, p);
    WithFollowUpsCreates(d, SetProblem(d, p, WithFix(d.problems[p], FixAvailable, now)), ConfirmFixEffect(d, p, now).desk, p,
                         d.problems[p].revision + 1);
  }

  lemma NoneAtNewRevision(d: Desk, p: Id)
    requires FollowUpRefs(d) && p in d.problems
    ensures forall f :: f in d.followUps && f.problem == p ==> f.revision < d.problems[p].revision + 1
  {
  }

  // ----- reassignment

  /** A pending follow-up that a reassignment would retarget, left behind by a move. */
  predicate LeftBehind(d: Desk, r: Id, assignee: Option<Id>, f: Key)
    requires r in d.reports
  {
    && f in d.followUps && f.report == r && d.followUps[f].contact == Pending
    && d.followUps[f].recipient != Recipient(d.reports[r].(assignee := assignee))
    && d.reports[r].problem != Some(f.problem)
  }

  /** Giving a report a new assignee succeeds unless it is a manual report that moved away
      from a problem while one of its follow-ups there was still pending: saving that follow-up
      is refused, and the whole reassignment is rolled back. */
  lemma AssignFailsExactlyWhenLeftBehind(d: Desk, r: Id, assignee: Option<Id>)
    requires r in d.reports && d.reports[r].assignee != assignee
    ensures AssignEffect(d, r, assignee) == Quiet(d) <==>
            d.reports[r].manual && exists f :: LeftBehind(d, r, assignee, f)
  {
    var d1 := SetReport(d, r, d.reports[r].(assignee := assignee));
    assert d1.reports[r].assignee == assignee;
    if d.reports[r].manual {
      var taken := Retargeted(d1, r);
      if f :| f in taken && !SaveGuard(d1, f) {
        assert LeftBehind(d, r, assignee, f);
      } else {
        assert Retarget(d1, r, taken).reports[r].assignee == assignee;
        assert forall f :: LeftBehind(d, r, assignee, f) ==> f in taken && !SaveGuard(d1, f);
      }
    }
  }

  /** A manual report linked to one problem, whose fix is confirmed, and then moved to another. */
  const MOVED: seq<Step> :=
    [Triage(AddProblem(0)), Triage(AddReport(0, 7, true)), Triage(LinkReport(0, 0))] +
    [Triage(ConfirmFix(0)), Triage(AddProblem(1)), Triage(LinkReport(0, 1))]

  lemma MovedDesk()
    ensures Run(EMPTY, MOVED) == EMPTY.(desk := Desk(
              map[0 := Problem(FixAvailable, 1, Some(0), false, 2), 1 := Problem(Open, 0, None, false, 1)],
              map[0 := Report(Some(1), Linked, 3, 7, None, true)],
              map[Key(0, 0, 1) := FollowUp(7, Pending, 2, 1)], map[], [0]))
  {
    var first := [Triage(AddProblem(0)), Triage(AddReport(0, 7, true)), Triage(LinkReport(0, 0))];
    var second := [Triage(ConfirmFix(0)), Triage(AddProblem(1)), Triage(LinkReport(0, 1))];
    RunConcat(EMPTY, first, second);
    MovedFirst(first);
    MovedSecond(second);
  }

  const BEFORE: World := EMPTY.(desk := Desk(
    map[0 := Problem(Open, 0, None, false, 1)], map[0 := Report(Some(0), Linked, 2, 7, None, true)],
    map[], map[], []))

  lemma MovedFirst(s: seq<Step>)
    requires s == [Triage(AddProblem(0)), Triage(AddReport(0, 7, true)), Triage(LinkReport(0, 0))]
    ensures Run(EMPTY, s) == BEFORE
  {
    RunThree(EMPTY, s);
    assert InvalidateRows(map[], {}, Stale, 0) == map[];
  }

  const CONFIRMED: World := EMPTY.(desk := Desk(
    map[0 := Problem(FixAvailable, 1, Some(0), false, 2)], map[0 := Report(Some(0), Linked, 2, 7, None, true)],
    map[Key(0, 0, 1) := FollowUp(7, Pending, 2, 1)], map[], [0]))

  const SECOND: World := CONFIRMED.(desk := CONFIRMED.desk.(problems :=
    map[0 := Problem(FixAvailable, 1, Some(0), false, 2), 1 := Problem(Open, 0, None, false, 1)]))

  lemma MovedConfirm()
    ensures Apply(BEFORE, Triage(ConfirmFix(0))) == CONFIRMED
  {
    var d1 := SetProblem(BEFORE.desk, 0, Problem(FixAvailable, 1, Some(0), false, 1));
    assert LinkedReports(d1, 0) == {0};
    assert WithFollowUps(d1, {0}, 0, 1) == map[Key(0, 0, 1) := FollowUp(7, Pending, 2, 1)];
    assert InvalidateRows(map[], {}, Stale, 0) == map[];
  }

  lemma MovedAdd()
    ensures Apply(CONFIRMED, Triage(AddProblem(1))) == SECOND
  {
    assert InvalidateRows(map[], {}, Stale, 0) == map[];
  }

  lemma MovedLink()
    ensures Apply(SECOND, Triage(LinkReport(0, 1)))
            == SECOND.(desk := SECOND.desk.(reports := map[0 := Report(Some(1), Linked, 3, 7, None, true)]))
  {
    assert InvalidateRows(map[], {0}, Moved, 0) == map[];
  }

  lemma MovedSecond(s: seq<Step>)
    requires s == [Triage(ConfirmFix(0)), Triage(AddProblem(1)), Triage(LinkReport(0, 1))]
    ensures Run(BEFORE, s) == EMPTY.(desk := Desk(
              map[0 := Problem(FixAvailable, 1, Some(0), false, 2), 1 := Problem(Open, 0, None, false, 1)],
              map[0 := Report(Some(1), Linked, 3, 7, None, true)],
              map[Key(0, 0, 1) := FollowUp(7, Pending, 2, 1)], map[], [0]))
  {
    RunThree(BEFORE, s);
    MovedConfirm();
    MovedAdd();
    MovedLink();
  }

  /** The refusal is reachable: after that run, assigning the report changes nothing. */
  lemma MovedReportCannotBeAssigned()
    ensures var w := Run(EMPTY, MOVED);
            0 in w.desk.reports && w.desk.reports[0].assignee == None
            && AssignEffect(w.desk, 0, Some(8)) == Quiet(w.desk)
  {
    MovedDesk();
    var d := Run(EMPTY, MOVED).desk;
    assert LeftBehind(d, 0, Some(8), Key(0, 0, 1));
    AssignFailsExactlyWhenLeftBehind(d, 0, Some(8));
  }
}
