/** When a delivered message can be lost sight of. A worker checks its row, then posts, and
    nothing ties the POST to the lease: a worker that stalls in between can post after a member
    has already sent the message again. This module finds the exact boundary. */
module DeliveryVisibility {
  import opened Common
  import opened Transitions
  import opened Notifications
  import opened DeliveryWorld
  import opened DeliveryInvariants
  import opened DeliveryHistory

  /** The row still tells members that the message may be out: not draft, failed, cancelled
      or waiting in the queue to be sent. */
  predicate Visible(rows: Rows, k: Id) {
    k in rows && (rows[k].state in {Sent, Uncertain} || (rows[k].state == Queued && rows[k].leaseToken.Some?))
  }

  /** A member settles the row: delivered, send again, or cancel. */
  predicate Resolves(step: Step, k: Id) {
    step.Member? && step.id == k && (step.member.MarkDelivered? || step.member.SendAgain? || step.member.Cancel?)
  }

  predicate NoneResolves(steps: seq<Step>, k: Id) {
    forall i :: 0 <= i < |steps| ==> !Resolves(steps[i], k)
  }

  /** The worker can only end in sent or uncertain. */
  predicate Committed(pc: Pc) {
    (pc.Posted? && pc.delivered) || pc.Storing? || (pc.Failing? && pc.uncertain)
  }

  predicate LeaseCommitted(workers: Workers, k: Id, n: Row) {
    && n.leaseToken.Some? && n.leaseToken.value in workers
    && workers[n.leaseToken.value].row == k && Committed(workers[n.leaseToken.value].pc)
  }

  predicate RowCovered(workers: Workers, k: Id, n: Row) {
    || n.state == Sent
    || (n.state == Uncertain && n.leaseToken.None?)
    || (n.state in {Queued, Uncertain} && LeaseCommitted(workers, k, n))
  }

  predicate Covered(w: World, k: Id) {
    k in w.rows && RowCovered(w.workers, k, w.rows[k])
  }

  // ----- covered rows stay covered

  lemma HolderKeepsCovered(d: Desk, workers: Workers, k: Id, n: Row, token: Token, now: Time, step: WorkerStep)
    requires RowOk(n) && RowCovered(workers, k, n)
    requires token in workers && workers[token].row == k && Enabled(workers[token].pc, step)
    ensures var (m, pc) := WorkOn(d, n, token, workers[token].pc, now, step);
            RowCovered(workers[token := workers[token].(pc := pc)], k, m)
  {
    var pc := workers[token].pc;
    if Holds(n, token) {
      assert Committed(pc);
      match step
      case PostReply(reply) => assert Committed(AfterReply(pc.channel, reply));
      case _ =>
    } else {
      assert WorkOn(d, n, token, pc, now, step).0 == n;
    }
  }

  lemma WorkKeepsCovered(w: World, token: Token, step: WorkerStep, k: Id)
    requires k in w.rows && RowOk(w.rows[k]) && Covered(w, k)
    ensures Covered(DoWork(w, token, step), k)
  {
    if CanWork(w, token, step) && w.workers[token].row == k {
      HolderKeepsCovered(w.desk, w.workers, k, w.rows[k], token, w.now, step);
    }
  }

  lemma MemberKeepsCovered(w: World, id: Id, step: MemberStep, k: Id)
    requires Covered(w, k) && !Resolves(Member(id, step), k)
    ensures Covered(DoMember(w, id, step), k)
  {
  }

  lemma TriageKeepsCovered(w: World, step: TriageStep, k: Id)
    requires k in w.rows && RowOk(w.rows[k]) && Covered(w, k)
    ensures Covered(DoTriage(w, step), k)
  {
    var e := TriageEffect(w.desk, w.rows, w.now, step);
    assert RowCovered(w.workers, k, InvalidateRow(w.rows[k], e.reason, w.now));
  }

  lemma ClaimKeepsCovered(w: World, id: Id, token: Token, asOf: Time, k: Id)
    requires k in w.rows && RowOk(w.rows[k]) && Covered(w, k)
    ensures Covered(DoClaim(w, id, token, asOf), k)
  {
    assert RowCovered(w.workers, k, ClaimRow(w.rows[k], token, asOf).0);
  }

  lemma CoveredStep(w: World, step: Step, k: Id)
    requires Inv(w) && Covered(w, k) && !Resolves(step, k)
    ensures Covered(Apply(w, step), k)
  {
    assert RowOk(w.rows[k]);
    match step
    case Tick(seconds) =>
    case Triage(t) => TriageKeepsCovered(w, t, k);
    case Member(id, m) => MemberKeepsCovered(w, id, m, k);
    case Claim(id, token, asOf) => ClaimKeepsCovered(w, id, token, asOf, k);
    case Work(token, s) => WorkKeepsCovered(w, token, s, k);
    case Expire(id, asOf) => assert RowCovered(w.workers, k, ExpireRow(w.rows[k], asOf));
  }

  lemma {:induction false} CoveredForever(w: World, steps: seq<Step>, k: Id)
    requires Inv(w) && Covered(w, k) && NoneResolves(steps, k)
    ensures Visible(Run(w, steps).rows, k)
    decreases |steps|
  {
    if steps != [] {
      CoveredStep(w, steps[0], k);
      InvStep(w, steps[0]);
      CoveredForever(Apply(w, steps[0]), steps[1..], k);
    }
  }

  // ----- uncovered rows can be lost

  function Rank(pc: Pc): nat {
    match pc
    case Saving(_) => 5
    case Authorizing(_) => 4
    case Opening => 4
    case Ready(_, _, _) => 4
    case Posted(_, _) => 3
    case Failing(_) => 2
    case _ => 0
  }

  /** The next step of a run that ends without a message. */
  function GiveUp(pc: Pc): WorkerStep
    requires Rank(pc) > 0
  {
    match pc
    case Saving(_) => SaveConversation
    case Authorizing(_) => Authorize(false, false)
    case Opening => OpenConversation(None)
    case Ready(_, _, _) => PostMessage(false)
    case Posted(_, _) => PostReply(Refused)
    case _ => RecordFailure
  }

  lemma GiveUpStep(w: World, token: Token, k: Id)
    requires k in w.rows && RowOk(w.rows[k]) && Holds(w.rows[k], token)
    requires token in w.workers && w.workers[token].row == k
    requires !Committed(w.workers[token].pc) && Rank(w.workers[token].pc) > 0
    ensures var w' := DoWork(w, token, GiveUp(w.workers[token].pc));
            k in w'.rows
            && (!Visible(w'.rows, k)
                || (w'.rows[k] == w.rows[k].(conversation := w'.rows[k].conversation)
                    && token in w'.workers && w'.workers[token].row == k && !Committed(w'.workers[token].pc)
                    && 0 < Rank(w'.workers[token].pc) < Rank(w.workers[token].pc)))
  {
    assert CanWork(w, token, GiveUp(w.workers[token].pc));
    assert Authorization(w.desk, w.rows[k], token, false, false) == Block;
  }

  lemma {:induction false} UncoveredIsLost(w: World, token: Token, k: Id) returns (steps: seq<Step>)
    requires k in w.rows && RowOk(w.rows[k]) && Holds(w.rows[k], token)
    requires token in w.workers && w.workers[token].row == k
    requires !Committed(w.workers[token].pc) && Rank(w.workers[token].pc) > 0
    ensures NoneResolves(steps, k) && !Visible(Run(w, steps).rows, k)
    decreases Rank(w.workers[token].pc)
  {
    var step := Work(token, GiveUp(w.workers[token].pc));
    GiveUpStep(w, token, k);
    var w' := Apply(w, step);
    if !Visible(w'.rows, k) {
      steps := [step];
      assert Run(w', []) == w';
      assert steps[1..] == [];
    } else {
      var rest := UncoveredIsLost(w', token, k);
      steps := [step] + rest;
      assert steps[1..] == rest;
    }
  }

  // ----- main results

  ghost predicate AlwaysVisible(w: World, k: Id) {
    forall steps :: NoneResolves(steps, k) ==> Visible(Run(w, steps).rows, k)
  }

  lemma UncoveredIsNotVisible(w: World, k: Id)
    requires Inv(w) && Logged(w) && k in w.rows && !Covered(w, k)
    ensures !AlwaysVisible(w, k)
  {
    var steps: seq<Step>;
    if !Visible(w.rows, k) {
      steps := [];
      assert Run(w, steps) == w;
    } else {
      assert RowOk(w.rows[k]) && HolderOk(w.log, w.workers, k, w.rows[k]);
      steps := UncoveredIsLost(w, w.rows[k].leaseToken.value, k);
    }
    assert NoneResolves(steps, k) && !Visible(Run(w, steps).rows, k);
  }

  /** `Covered` is exact: a row stays visible in every continuation without a member's
      decision if and only if it is covered now. */
  lemma VisibleExactlyWhenCovered(w: World, k: Id)
    requires Inv(w) && Logged(w) && k in w.rows
    ensures AlwaysVisible(w, k) <==> Covered(w, k)
  {
    if Covered(w, k) {
      forall steps | NoneResolves(steps, k)
        ensures Visible(Run(w, steps).rows, k)
      {
        CoveredForever(w, steps, k);
      }
    } else {
      UncoveredIsNotVisible(w, k);
    }
  }

  /** What a worker that is ready to post could read from its row before posting: the lease
      is still its own, or the row can no longer move without a member. */
  predicate RowSafe(n: Row, token: Token) {
    Holds(n, token) || n.state == Sent || (n.state == Uncertain && n.leaseToken.None?)
  }

  /** The exact condition also covers a row whose lease another worker holds, when that worker
      has come so far that it can only end in sent or uncertain. No row shows that. */
  predicate SafeToPost(w: World, token: Token)
    requires token in w.workers && w.workers[token].row in w.rows
  {
    var n := w.rows[w.workers[token].row];
    RowSafe(n, token) || LeaseCommitted(w.workers, w.workers[token].row, n)
  }

  lemma PostCovers(w: World, token: Token)
    requires Inv(w) && Logged(w) && CanWork(w, token, PostMessage(true))
    ensures Covered(DoWork(w, token, PostMessage(true)), w.workers[token].row) <==> SafeToPost(w, token)
  {
    var k := w.workers[token].row;
    assert RowOk(w.rows[k]) && HolderOk(w.log, w.workers, k, w.rows[k]);
  }

  /** After a delivered POST the row stays visible until a member decides, whatever else
      happens, if and only if it was safe to post. The source posts without this check. */
  lemma DeliveredStaysVisible(w: World, token: Token)
    requires Reachable(w) && CanWork(w, token, PostMessage(true))
    ensures AlwaysVisible(DoWork(w, token, PostMessage(true)), w.workers[token].row) <==> SafeToPost(w, token)
  {
    ReachableLogged(w);
    PostCovers(w, token);
    WorkKeepsInv(w, token, PostMessage(true));
    WorkKeepsLog(w, token, PostMessage(true));
    VisibleExactlyWhenCovered(DoWork(w, token, PostMessage(true)), w.workers[token].row);
  }

  /** What the row alone tells: a safe row keeps the promise, and a row whose lease no other
      worker holds keeps it only if it is safe. */
  lemma RowTellsSafety(w: World, token: Token)
    requires Reachable(w) && CanWork(w, token, PostMessage(true))
    ensures var k := w.workers[token].row;
            var always := AlwaysVisible(DoWork(w, token, PostMessage(true)), k);
            && (RowSafe(w.rows[k], token) ==> always)
            && (w.rows[k].leaseToken.None? && always ==> RowSafe(w.rows[k], token))
  {
    DeliveredStaysVisible(w, token);
  }

  // ----- a run that loses sight of a delivered message

  const F: Key := Key(0, 0, 1)

  /** A linked report, its fix confirmed, and a notification drafted and approved. */
  const TRIAGED: seq<Step> := [Triage(AddProblem(0)), Triage(AddReport(0, 7, false)), Triage(LinkReport(0, 0))]
  const APPROVED: seq<Step> := [Triage(ConfirmFix(0)), Member(0, MemberStep.Draft(F, "fixed")), Member(0, Approve(1))]
  /** A worker claims it and passes both checks, then stalls past its lease. */
  const CLAIMED: seq<Step> := [Claim(0, 1, 0), Work(1, Authorize(true, true)), Work(1, OpenConversation(Some("D1")))]
  const STALLED: seq<Step> := [Work(1, SaveConversation), Work(1, Authorize(true, true)), Tick(60)]
  /** A member looks into Slack, sees nothing and sends again. Only then the worker posts. */
  const POSTED_LATE: seq<Step> := [Expire(0, 60), Member(0, SendAgain(1)), Work(1, PostMessage(true))]
  const LATE_RUN: seq<Step> := TRIAGED + (APPROVED + (CLAIMED + (STALLED + POSTED_LATE)))

  const FIXED: Desk := Desk(
    map[0 := Problem(FixAvailable, 1, Some(0), false, 2)],
    map[0 := Report(Some(0), Linked, 2, 7, None, false)],
    map[F := FollowUp(7, Pending, 2, 1)], map[], [0])

  const QUEUED: Row := Row(0, 0, F, 7, 1, 2, "fixed", 1, Queued, 0, Some(0), None, None, "", "", None, None, None)
  const HELD: Row := QUEUED.(attempts := 1, leaseToken := Some(1), leaseExpires := Some(60))
  const UNSURE: Row := QUEUED.(state := Uncertain, attempts := 1, conversation := "D1")
  const ONCE: Log := Log([Approval(0, 1, "fixed")], map[0 := 0], [])

  const LINKED: Desk := Desk(
    map[0 := Problem(Open, 0, None, false, 1)], map[0 := Report(Some(0), Linked, 2, 7, None, false)],
    map[], map[], [])

  lemma AfterTriage()
    ensures Run(EMPTY, TRIAGED) == EMPTY.(desk := LINKED)
  {
    RunThree(EMPTY, TRIAGED);
    assert InvalidateRows(map[], {}, Stale, 0) == map[];
  }

  lemma AfterConfirmation(w: World)
    requires w == EMPTY.(desk := LINKED)
    ensures Apply(w, APPROVED[0]) == EMPTY.(desk := FIXED)
  {
    var d1 := SetProblem(LINKED, 0, Problem(FixAvailable, 1, Some(0), false, 1));
    assert LinkedReports(d1, 0) == {0};
    assert WithFollowUps(d1, {0}, 0, 1) == FIXED.followUps;
    assert InvalidateRows(map[], {}, Stale, 0) == map[];
  }

  lemma AfterDraft(w: World)
    requires w == EMPTY.(desk := FIXED)
    ensures Apply(w, APPROVED[1]) == w.(rows := map[0 := QUEUED.(state := State.Draft, dueAt := None)])
  {
  }

  lemma AfterApproval(w: World)
    requires w == EMPTY.(desk := LINKED)
    ensures Run(w, APPROVED) == World(0, FIXED, map[0 := QUEUED], map[], ONCE)
  {
    RunThree(w, APPROVED);
    AfterConfirmation(w);
    AfterDraft(EMPTY.(desk := FIXED));
  }

  const TAKEN := World(0, FIXED, map[0 := HELD], map[1 := Worker(0, 0, Authorizing(None))], ONCE)

  lemma AfterTaking(w: World)
    requires w == World(0, FIXED, map[0 := QUEUED], map[], ONCE)
    ensures Apply(w, CLAIMED[0]) == TAKEN
  {
    assert ClaimRow(QUEUED, 1, 0) == (HELD, true);
  }

  lemma AfterOpening()
    ensures Apply(TAKEN, CLAIMED[1]) == TAKEN.(workers := map[1 := Worker(0, 0, Opening)])
  {
  }

  lemma AfterClaim(w: World)
    requires w == World(0, FIXED, map[0 := QUEUED], map[], ONCE)
    ensures Run(w, CLAIMED) == TAKEN.(workers := map[1 := Worker(0, 0, Saving("D1"))])
  {
    RunThree(w, CLAIMED);
    AfterTaking(w);
    AfterOpening();
  }

  lemma AfterStall(w: World)
    requires w == World(0, FIXED, map[0 := HELD], map[1 := Worker(0, 0, Saving("D1"))], ONCE)
    ensures Run(w, STALLED) == World(60, FIXED, map[0 := HELD.(conversation := "D1")],
                                     map[1 := Worker(0, 0, Ready("D1", 1, "fixed"))], ONCE)
  {
    RunThree(w, STALLED);
  }

  lemma AfterExpiry(w: World)
    requires w == World(60, FIXED, map[0 := HELD.(conversation := "D1")],
                        map[1 := Worker(0, 0, Ready("D1", 1, "fixed"))], ONCE)
    ensures Apply(w, POSTED_LATE[0]) == w.(rows := map[0 := UNSURE])
  {
  }

  lemma AfterResend(w: World)
    requires w == World(60, FIXED, map[0 := UNSURE], map[1 := Worker(0, 0, Ready("D1", 1, "fixed"))], ONCE)
    ensures Apply(w, POSTED_LATE[1])
            == w.(rows := map[0 := UNSURE.(state := Queued, dueAt := Some(60))], log := Approved(ONCE, 0, UNSURE))
  {
    assert Freshness(FIXED, UNSURE, true).None?;
  }

  lemma AfterLatePost(w: World)
    requires w == World(60, FIXED, map[0 := HELD.(conversation := "D1")],
                        map[1 := Worker(0, 0, Ready("D1", 1, "fixed"))], ONCE)
    ensures var w' := Run(w, POSTED_LATE);
            && w'.rows == map[0 := QUEUED.(attempts := 1, dueAt := Some(60), conversation := "D1")]
            && w'.now == 60 && |w'.log.posts| == 1 && w'.log.posts[0].row == 0 && w'.log.posts[0].delivered
  {
    RunThree(w, POSTED_LATE);
    AfterExpiry(w);
    AfterResend(w.(rows := map[0 := UNSURE]));
  }

  /** The message was delivered and no member has acted since, yet its row waits in the queue
      to be sent again: without the check the promise fails. */
  lemma LatePost(w: World)
    requires w == Run(EMPTY, LATE_RUN)
    ensures |w.log.posts| == 1 && w.log.posts[0].delivered && w.log.posts[0].row == 0
    ensures 0 in w.rows && Claimable(w.rows[0], w.now) && !Visible(w.rows, 0)
  {
    RunConcat(EMPTY, TRIAGED, APPROVED + (CLAIMED + (STALLED + POSTED_LATE)));
    AfterTriage();
    var w1 := EMPTY.(desk := LINKED);
    RunConcat(w1, APPROVED, CLAIMED + (STALLED + POSTED_LATE));
    AfterApproval(w1);
    var w2 := World(0, FIXED, map[0 := QUEUED], map[], ONCE);
    RunConcat(w2, CLAIMED, STALLED + POSTED_LATE);
    AfterClaim(w2);
    var w3 := World(0, FIXED, map[0 := HELD], map[1 := Worker(0, 0, Saving("D1"))], ONCE);
    RunConcat(w3, STALLED, POSTED_LATE);
    AfterStall(w3);
    AfterLatePost(Run(w3, STALLED));
  }

  /** What a worker marks sent was never invalidated and never will be. */
  lemma WorkerSentNeverInvalidated(w: World, after: seq<Step>, k: Id)
    requires Reachable(w) && k in w.rows && w.rows[k].state == Sent && w.rows[k].confirmedAt.None?
    ensures var rows := Run(w, after).rows;
            k in rows && rows[k] == w.rows[k] && rows[k].invalidated.None?
  {
    ReachableInv(w);
    assert RowOk(w.rows[k]);
    SettledForever(w, after, k);
  }
}
