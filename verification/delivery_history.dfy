/** Message POSTs against human approvals, over every interleaving. */
module DeliveryHistory {
  import opened Common
  import opened Notifications
  import opened DeliveryWorld
  import opened DeliveryInvariants

  predicate BeforePost(pc: Pc) {
    pc.Authorizing? || pc.Opening? || pc.Saving? || pc.Ready?
  }

  /** A worker works for one approval of its row, and what it is ready to post is that
      approval's text. */
  predicate WorkerOk(log: Log, rows: Rows, worker: Worker) {
    && worker.row in rows
    && worker.answers < |log.approvals|
    && log.approvals[worker.answers].row == worker.row
    && (worker.pc.Ready? ==>
          worker.pc.version == log.approvals[worker.answers].version
          && worker.pc.text == log.approvals[worker.answers].text)
  }

  predicate WorkersOk(log: Log, rows: Rows, workers: Workers) {
    forall t :: t in workers ==> WorkerOk(log, rows, workers[t])
  }

  predicate OneWorkerPerApproval(workers: Workers) {
    forall s, t :: s in workers && t in workers && s != t ==> workers[s].answers != workers[t].answers
  }

  predicate LatestOk(log: Log) {
    forall k :: k in log.latest ==> log.latest[k] < |log.approvals| && log.approvals[log.latest[k]].row == k
  }

  /** A queued row carries the content of its latest approval. */
  predicate QueueOk(log: Log, k: Id, n: Row)
    requires LatestOk(log)
  {
    n.state == Queued ==>
      && k in log.latest
      && log.approvals[log.latest[k]].version == n.draftVersion
      && log.approvals[log.latest[k]].text == n.message
  }

  /** A lease belongs to an unfinished worker on the row's latest approval. */
  predicate HolderOk(log: Log, workers: Workers, k: Id, n: Row) {
    n.leaseToken.Some? ==>
      var t := n.leaseToken.value;
      && t in workers && workers[t].row == k && !workers[t].pc.Done?
      && k in log.latest && workers[t].answers == log.latest[k]
  }

  /** An approval that waits in the queue has not been taken by any worker. */
  predicate UntakenOk(log: Log, workers: Workers, k: Id, n: Row) {
    n.state == Queued && n.leaseToken.None? && k in log.latest ==>
      forall t :: t in workers ==> workers[t].answers != log.latest[k]
  }

  predicate RowsLogged(log: Log, rows: Rows, workers: Workers) {
    && LatestOk(log)
    && forall k :: k in rows ==>
         QueueOk(log, k, rows[k]) && HolderOk(log, workers, k, rows[k]) && UntakenOk(log, workers, k, rows[k])
  }

  predicate PostOk(log: Log, workers: Workers, post: Post) {
    && post.token in workers
    && workers[post.token].row == post.row && workers[post.token].answers == post.answers
    && !BeforePost(workers[post.token].pc)
    && post.answers < |log.approvals|
    && log.approvals[post.answers] == Approval(post.row, post.version, post.text)
  }

  predicate PostsOk(log: Log, workers: Workers) {
    && (forall i :: 0 <= i < |log.posts| ==> PostOk(log, workers, log.posts[i]))
    && (forall i, j :: 0 <= i < j < |log.posts| ==> log.posts[i].token != log.posts[j].token)
  }

  ghost predicate Logged(w: World) {
    && WorkersOk(w.log, w.rows, w.workers)
    && OneWorkerPerApproval(w.workers)
    && RowsLogged(w.log, w.rows, w.workers)
    && PostsOk(w.log, w.workers)
  }

  // ----- every step keeps the history

  lemma TriageKeepsLog(w: World, step: TriageStep)
    requires Logged(w)
    ensures Logged(DoTriage(w, step))
  {
    var e := TriageEffect(w.desk, w.rows, w.now, step);
    var rows := InvalidateRows(w.rows, e.reports, e.reason, w.now);
    forall k | k in rows
      ensures QueueOk(w.log, k, rows[k]) && HolderOk(w.log, w.workers, k, rows[k])
      ensures UntakenOk(w.log, w.workers, k, rows[k])
    {
      assert QueueOk(w.log, k, w.rows[k]) && HolderOk(w.log, w.workers, k, w.rows[k]);
      assert UntakenOk(w.log, w.workers, k, w.rows[k]);
    }
  }

  /** A row that changes without an approval, and is neither queued nor leased afterwards. */
  lemma QuietRowKeepsLog(log: Log, rows: Rows, workers: Workers, id: Id, n: Row)
    requires RowsLogged(log, rows, workers) && WorkersOk(log, rows, workers)
    requires n.state != Queued && n.leaseToken.None?
    ensures RowsLogged(log, rows[id := n], workers) && WorkersOk(log, rows[id := n], workers)
  {
  }

  lemma ApprovalKeepsLog(log: Log, rows: Rows, workers: Workers, id: Id, n: Row)
    requires WorkersOk(log, rows, workers) && RowsLogged(log, rows, workers) && PostsOk(log, workers)
    requires id in rows && n.state == Queued && n.leaseToken.None?
    requires n.draftVersion == rows[id].draftVersion && n.message == rows[id].message
    ensures var log' := Approved(log, id, rows[id]); var rows' := rows[id := n];
            WorkersOk(log', rows', workers) && RowsLogged(log', rows', workers) && PostsOk(log', workers)
  {
    var log' := Approved(log, id, rows[id]);
    var rows' := rows[id := n];
    assert forall i :: 0 <= i < |log.approvals| ==> log'.approvals[i] == log.approvals[i];
    assert LatestOk(log');
    forall k | k in rows'
      ensures QueueOk(log', k, rows'[k]) && HolderOk(log', workers, k, rows'[k])
      ensures UntakenOk(log', workers, k, rows'[k])
    {
      assert QueueOk(log, k, rows[k]) && HolderOk(log, workers, k, rows[k]) && UntakenOk(log, workers, k, rows[k]);
      assert k == id ==> forall t :: t in workers ==> WorkerOk(log, rows, workers[t]);
    }
    forall t | t in workers
      ensures WorkerOk(log', rows', workers[t])
    {
      assert WorkerOk(log, rows, workers[t]);
    }
    forall i | 0 <= i < |log'.posts|
      ensures PostOk(log', workers, log'.posts[i])
    {
      assert PostOk(log, workers, log.posts[i]);
    }
  }

  lemma DraftingKeepsLog(w: World, id: Id, step: MemberStep)
    requires Inv(w) && Logged(w) && (step.Draft? || step.Edit?)
    ensures Logged(DoMember(w, id, step))
  {
    match step
    case Draft(f, text) =>
      if DraftOpen(w.desk, w.rows, id, f) {
        QuietRowKeepsLog(w.log, w.rows, w.workers, id, NewRow(w.desk, f, text));
      }
    case Edit(version, text) =>
      if EditOpen(w.rows, id, version, text) {
        QuietRowKeepsLog(w.log, w.rows, w.workers, id, EditRow(w.rows[id], text));
      }
  }

  lemma ResolvingKeepsLog(w: World, id: Id, step: MemberStep)
    requires Inv(w) && Logged(w) && (step.MarkDelivered? || step.Cancel?)
    ensures Logged(DoMember(w, id, step))
  {
    if id in w.rows {
      QuietRowKeepsLog(w.log, w.rows, w.workers, id, MarkDeliveredRow(w.rows[id], w.now));
      QuietRowKeepsLog(w.log, w.rows, w.workers, id, CancelRow(w.rows[id], w.now));
    }
  }

  lemma ApprovingKeepsLog(w: World, id: Id, step: MemberStep)
    requires Inv(w) && Logged(w) && (step.Approve? || step.SendAgain?)
    ensures Logged(DoMember(w, id, step))
  {
    match step
    case Approve(version) =>
      if ApprovalOpen(w.desk, w.rows, id, version) {
        ApprovalKeepsLog(w.log, w.rows, w.workers, id, ApproveRow(w.rows[id], w.now));
      }
    case SendAgain(version) =>
      if ResendOpen(w.desk, w.rows, id, version) {
        ApprovalKeepsLog(w.log, w.rows, w.workers, id, SendAgainRow(w.rows[id], w.now));
      }
  }

  lemma MemberKeepsLog(w: World, id: Id, step: MemberStep)
    requires Inv(w) && Logged(w)
    ensures Logged(DoMember(w, id, step))
  {
    if step.Approve? || step.SendAgain? {
      ApprovingKeepsLog(w, id, step);
    } else if step.Draft? || step.Edit? {
      DraftingKeepsLog(w, id, step);
    } else {
      ResolvingKeepsLog(w, id, step);
    }
  }

  /** A worker that starts on a queue entry takes its approval. */
  lemma TakeKeepsLog(log: Log, rows: Rows, workers: Workers, id: Id, n: Row, token: Token)
    requires RowsLogged(log, rows, workers) && WorkersOk(log, rows, workers)
    requires OneWorkerPerApproval(workers) && PostsOk(log, workers)
    requires id in rows && rows[id].state == Queued && rows[id].leaseToken.None? && token !in workers
    requires n == rows[id].(attempts := n.attempts, leaseToken := Some(token), leaseExpires := n.leaseExpires)
    ensures id in log.latest
    ensures var workers' := workers[token := Worker(id, log.latest[id], Authorizing(None))];
            RowsLogged(log, rows[id := n], workers') && WorkersOk(log, rows[id := n], workers')
            && OneWorkerPerApproval(workers') && PostsOk(log, workers')
  {
    assert QueueOk(log, id, rows[id]) && UntakenOk(log, workers, id, rows[id]);
    var workers' := workers[token := Worker(id, log.latest[id], Authorizing(None))];
    forall k | k in rows && k != id
      ensures HolderOk(log, workers', k, rows[k]) && UntakenOk(log, workers', k, rows[k])
    {
      assert HolderOk(log, workers, k, rows[k]) && UntakenOk(log, workers, k, rows[k]);
    }
    forall i | 0 <= i < |log.posts|
      ensures PostOk(log, workers', log.posts[i])
    {
      assert PostOk(log, workers, log.posts[i]);
    }
  }

  lemma ClaimKeepsLog(w: World, id: Id, token: Token, asOf: Time)
    requires Inv(w) && Logged(w)
    ensures Logged(DoClaim(w, id, token, asOf))
  {
    if id in w.rows && token !in w.workers && asOf <= w.now {
      var n := w.rows[id];
      var (m, claimed) := ClaimRow(n, token, asOf);
      if claimed {
        TakeKeepsLog(w.log, w.rows, w.workers, id, m, token);
      } else if m.state == Uncertain && n.state == Queued {
        QuietRowKeepsLog(w.log, w.rows, w.workers, id, m);
      } else {
        assert w.rows[id := m] == w.rows;
      }
    }
  }

  lemma ExpireKeepsLog(w: World, id: Id, asOf: Time)
    requires Inv(w) && Logged(w)
    ensures Logged(DoExpire(w, id, asOf))
  {
    if id in w.rows && asOf <= w.now {
      var m := ExpireRow(w.rows[id], asOf);
      if m == w.rows[id] {
        assert w.rows[id := m] == w.rows;
        assert DoExpire(w, id, asOf) == w;
      } else {
        QuietRowKeepsLog(w.log, w.rows, w.workers, id, m);
      }
    }
  }

  /** What one worker step may do to its row `n` and to its program counter. */
  predicate WorkShape(n: Row, m: Row, token: Token, pc: Pc, pc': Pc) {
    && m.message == n.message && m.draftVersion == n.draftVersion
    && (m.state == Queued ==> n.state == Queued)
    && (m.leaseToken == n.leaseToken || (Holds(n, token) && m.leaseToken.None? && m.state != Queued))
    && (pc'.Done? ==> !Holds(m, token))
    && (BeforePost(pc') ==> BeforePost(pc))
    && (pc'.Ready? ==> Holds(n, token) && n.state == Queued && pc'.version == n.draftVersion && pc'.text == n.message)
  }

  lemma WorkHasShape(d: Desk, n: Row, token: Token, pc: Pc, now: Time, step: WorkerStep)
    requires RowOk(n) && Enabled(pc, step)
    ensures var (m, pc') := WorkOn(d, n, token, pc, now, step); WorkShape(n, m, token, pc, pc')
  {
  }

  lemma ShapeKeepsWorkers(log: Log, rows: Rows, workers: Workers, token: Token, m: Row, pc: Pc)
    requires WorkersOk(log, rows, workers) && OneWorkerPerApproval(workers) && RowsLogged(log, rows, workers)
    requires token in workers && workers[token].row in rows
    requires WorkShape(rows[workers[token].row], m, token, workers[token].pc, pc)
    ensures var rows' := rows[workers[token].row := m];
            var workers' := workers[token := workers[token].(pc := pc)];
            WorkersOk(log, rows', workers') && OneWorkerPerApproval(workers')
  {
    var k := workers[token].row;
    assert QueueOk(log, k, rows[k]) && HolderOk(log, workers, k, rows[k]);
    assert WorkerOk(log, rows, workers[token]);
  }

  lemma ShapeKeepsRows(log: Log, rows: Rows, workers: Workers, token: Token, m: Row, pc: Pc)
    requires RowsLogged(log, rows, workers)
    requires token in workers && workers[token].row in rows
    requires WorkShape(rows[workers[token].row], m, token, workers[token].pc, pc)
    ensures var rows' := rows[workers[token].row := m];
            var workers' := workers[token := workers[token].(pc := pc)];
            RowsLogged(log, rows', workers')
  {
    var id := workers[token].row;
    var rows' := rows[id := m];
    var workers' := workers[token := workers[token].(pc := pc)];
    forall k | k in rows'
      ensures QueueOk(log, k, rows'[k]) && HolderOk(log, workers', k, rows'[k]) && UntakenOk(log, workers', k, rows'[k])
    {
      assert QueueOk(log, k, rows[k]) && HolderOk(log, workers, k, rows[k]) && UntakenOk(log, workers, k, rows[k]);
    }
  }

  lemma ShapeKeepsPosts(log: Log, workers: Workers, token: Token, pc: Pc)
    requires PostsOk(log, workers) && token in workers
    requires BeforePost(pc) ==> BeforePost(workers[token].pc)
    ensures PostsOk(log, workers[token := workers[token].(pc := pc)])
  {
    forall i | 0 <= i < |log.posts|
      ensures PostOk(log, workers[token := workers[token].(pc := pc)], log.posts[i])
    {
      assert PostOk(log, workers, log.posts[i]);
    }
  }

  /** A POST adds one entry, by a worker that had none. */
  lemma PostKeepsLog(log: Log, rows: Rows, workers: Workers, token: Token, step: WorkerStep, pc: Pc)
    requires WorkersOk(log, rows, workers) && PostsOk(log, workers) && token in workers
    requires Enabled(workers[token].pc, step) && step.PostMessage? && !BeforePost(pc)
    ensures var log' := PostedLog(log, token, workers[token], step);
            log'.approvals == log.approvals && log'.latest == log.latest
            && PostsOk(log', workers[token := workers[token].(pc := pc)])
  {
    var log' := PostedLog(log, token, workers[token], step);
    var workers' := workers[token := workers[token].(pc := pc)];
    assert WorkerOk(log, rows, workers[token]);
    forall i | 0 <= i < |log'.posts|
      ensures PostOk(log', workers', log'.posts[i])
      ensures i < |log.posts| ==> log.posts[i].token != token
    {
      assert i < |log.posts| ==> PostOk(log, workers, log.posts[i]);
    }
  }

  lemma WorkKeepsLog(w: World, token: Token, step: WorkerStep)
    requires Inv(w) && Logged(w)
    ensures Logged(DoWork(w, token, step))
  {
    if CanWork(w, token, step) {
      var worker := w.workers[token];
      var n := w.rows[worker.row];
      var (m, pc) := WorkOn(w.desk, n, token, worker.pc, w.now, step);
      WorkHasShape(w.desk, n, token, worker.pc, w.now, step);
      ShapeKeepsWorkers(w.log, w.rows, w.workers, token, m, pc);
      ShapeKeepsRows(w.log, w.rows, w.workers, token, m, pc);
      if step.PostMessage? {
        PostKeepsLog(w.log, w.rows, w.workers, token, step, pc);
        SameApprovals(w.log, DoWork(w, token, step).log, DoWork(w, token, step).rows, DoWork(w, token, step).workers);
      } else {
        ShapeKeepsPosts(w.log, w.workers, token, pc);
      }
    }
  }

  /** Rows and workers are judged by approvals alone. */
  lemma SameApprovals(log: Log, log': Log, rows: Rows, workers: Workers)
    requires log'.approvals == log.approvals && log'.latest == log.latest
    requires WorkersOk(log, rows, workers) && RowsLogged(log, rows, workers)
    ensures WorkersOk(log', rows, workers) && RowsLogged(log', rows, workers)
  {
    forall k | k in rows
      ensures QueueOk(log', k, rows[k]) && HolderOk(log', workers, k, rows[k]) && UntakenOk(log', workers, k, rows[k])
    {
      assert QueueOk(log, k, rows[k]) && HolderOk(log, workers, k, rows[k]) && UntakenOk(log, workers, k, rows[k]);
    }
  }

  lemma LogStep(w: World, step: Step)
    requires Inv(w) && Logged(w)
    ensures Logged(Apply(w, step))
  {
    match step
    case Tick(seconds) =>
    case Triage(t) => TriageKeepsLog(w, t);
    case Member(id, m) => MemberKeepsLog(w, id, m);
    case Claim(id, token, asOf) => ClaimKeepsLog(w, id, token, asOf);
    case Work(token, s) => WorkKeepsLog(w, token, s);
    case Expire(id, asOf) => ExpireKeepsLog(w, id, asOf);
  }

  lemma {:induction false} RunKeepsLog(w: World, steps: seq<Step>)
    requires Inv(w) && Logged(w)
    ensures Inv(Run(w, steps)) && Logged(Run(w, steps))
    decreases |steps|
  {
    if steps != [] {
      InvStep(w, steps[0]);
      LogStep(w, steps[0]);
      RunKeepsLog(Apply(w, steps[0]), steps[1..]);
    }
  }

  // ----- main results

  function PostsFor(log: Log, k: Id): set<nat> {
    set i | 0 <= i < |log.posts| && log.posts[i].row == k
  }

  function ApprovalsFor(log: Log, k: Id): set<nat> {
    set i | 0 <= i < |log.approvals| && log.approvals[i].row == k
  }

  predicate Answers(log: Log, post: Post) {
    && post.answers < |log.approvals|
    && log.approvals[post.answers] == Approval(post.row, post.version, post.text)
  }

  /** POSTs answer distinct approvals, each with exactly the approved version and text. */
  predicate AnswersApprovals(log: Log) {
    && (forall i :: 0 <= i < |log.posts| ==> Answers(log, log.posts[i]))
    && (forall i, j :: 0 <= i < j < |log.posts| ==> log.posts[i].answers != log.posts[j].answers)
  }

  lemma LoggedAnswers(log: Log, workers: Workers)
    requires PostsOk(log, workers) && OneWorkerPerApproval(workers)
    ensures AnswersApprovals(log)
  {
    forall i | 0 <= i < |log.posts|
      ensures Answers(log, log.posts[i])
    {
      assert PostOk(log, workers, log.posts[i]);
    }
    forall i, j | 0 <= i < j < |log.posts|
      ensures log.posts[i].answers != log.posts[j].answers
    {
      assert PostOk(log, workers, log.posts[i]) && PostOk(log, workers, log.posts[j]);
    }
  }

  lemma AnswersAreFewer(log: Log, k: Id)
    requires AnswersApprovals(log)
    ensures |PostsFor(log, k)| <= |ApprovalsFor(log, k)|
  {
    var f := map i | i in PostsFor(log, k) :: log.posts[i].answers;
    forall i | i in PostsFor(log, k)
      ensures f[i] in ApprovalsFor(log, k)
    {
      assert Answers(log, log.posts[i]);
    }
    InjectionSize(PostsFor(log, k), ApprovalsFor(log, k), f);
  }

  lemma ReachableLogged(w: World)
    requires Reachable(w)
    ensures Inv(w) && Logged(w)
  {
    var steps :| w == Run(EMPTY, steps);
    RunKeepsLog(EMPTY, steps);
  }

  /** In every reachable state, the POSTs of a notification answer distinct approvals of that
      very notification, with exactly the approved version and text, so a notification never
      has more POSTs than approvals. */
  lemma PostsAnswerApprovals(w: World, k: Id)
    requires Reachable(w)
    ensures AnswersApprovals(w.log) && |PostsFor(w.log, k)| <= |ApprovalsFor(w.log, k)|
  {
    ReachableLogged(w);
    LoggedAnswers(w.log, w.workers);
    AnswersAreFewer(w.log, k);
  }
}
