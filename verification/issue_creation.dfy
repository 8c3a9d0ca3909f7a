/** One issue-creation operation with every worker that ever ran for it. A `CellStep` is one
    transaction on the operation's row or one call to GitHub; refused transactions change
    nothing. Whatever the step reads outside the row is a parameter of the step. */
module IssueCreations {
  import opened Common
  import opened IssueMarkers
  import opened Retries

  datatype State = Draft | Queued | Running | Succeeded | Failed | Uncertain | Cancelled

  const LEASE_TTL := 190
  const DRAFT_TTL := 900

  datatype Operation = Operation(
    problem: Id,
    body: string,
    problemVersion: nat,
    bindingRevision: nat,
    repository: Id,
    draftVersion: nat,
    expiresAt: Time,
    state: State,
    attempts: nat,
    dueAt: Time,
    lease: Option<Token>,
    leaseExpires: Option<Time>,
    remote: Option<Id>,
    recoveryRequested: bool,
    recoveryReference: string,
    recoveryAttempts: nat)

  predicate Unresolved(s: State) {
    s in {Queued, Running, Uncertain}
  }

  /** What a failed call says happened. */
  datatype Fate = RateLimited(retryAfter: Option<int>) | InstallationRefused | Definite | Unknown

  /** Where one run of process_github_issue_create stands. `Verified` will post next; `Posted`
      waits for the answer; `Created` knows the issue; `Stored` has saved its ids. */
  datatype Pc =
    | Claimed
    | Verified
    | Posted(made: Option<Id>)
    | Created(issue: Id)
    | Stored(issue: Id)
    | Settling(fate: Fate)
    | Done

  datatype Worker = Worker(attempt: nat, body: string, pc: Pc)

  /** One POST of the issue: the attempt and text it carried, the issue GitHub made of it, and
      whether GitHub refused it for rate limiting. */
  datatype Post = Post(attempt: nat, body: string, made: Option<Id>, refused: bool)

  /** One run of reconcile_github_issue_create and the matches it has read. */
  datatype Search = Search(attempts: nat, matches: seq<Id>, finished: bool)

  datatype Cell = Cell(op: Operation, workers: map<Token, Worker>, searches: map<Token, Search>, posts: seq<Post>,
                       linked: seq<Id>)

  datatype Linking = Linked | Rebound | Broken

  datatype Reply = Answered | Unreadable | Failure(fate: Fate)

  datatype WorkerStep =
    | Verify(stale: bool)
    | Preflight(fate: Fate)
    | Send(made: Option<Id>)
    | Receive(reply: Reply)
    | Store(saved: bool)
    | Finish(linking: Linking)
    | Settle(now: Time, jitter: nat)
    | Crash

  datatype SearchStep =
    | Read(found: seq<Id>)
    | GiveUp(now: Time, retryAfter: Option<int>, jitter: nat)
    | Conclude(linking: Linking)
    | Lost

  datatype CellStep =
    | Redraft(body: string, problemVersion: nat, bindingRevision: nat, repository: Id, now: Time)
    | Approve(now: Time)
    | CancelDraft
    | RequestRecovery(reference: string, now: Time)
    | Abandon
    | Claim(token: Token, asOf: Time)
    | ExpireLease(asOf: Time)
    | Work(token: Token, work: WorkerStep)
    | ClaimSearch(token: Token, asOf: Time)
    | Searching(token: Token, search: SearchStep)

  function NewCell(id: Uuid, problem: Id, body: string, problemVersion: nat, bindingRevision: nat, repository: Id, now: Time): Cell {
    Cell(Operation(problem, body, problemVersion, bindingRevision, repository, 1, now + DRAFT_TTL, State.Draft, 0, now, None,
                   None, None, false, "", 0), map[], map[], [], [])
  }

  // ----- the row, transaction by transaction

  function Released(o: Operation): Operation {
    o.(lease := None, leaseExpires := None)
  }

  predicate Holds(o: Operation, token: Token) {
    o.state == Running && o.lease == Some(token)
  }

  function RedraftOp(o: Operation, body: string, problemVersion: nat, bindingRevision: nat, repository: Id, now: Time): Operation {
    if o.state != State.Draft || o.expiresAt <= now || !AcceptedBody(body) then o
    else o.(body := body, draftVersion := o.draftVersion + 1, problemVersion := problemVersion,
            bindingRevision := bindingRevision, repository := repository, expiresAt := now + DRAFT_TTL)
  }

  /** approve_draft once its checks have passed. */
  function ApproveOp(o: Operation, now: Time): Operation {
    if o.state != State.Draft then o
    else if o.expiresAt <= now then o.(state := Cancelled)
    else o.(state := Queued, dueAt := now)
  }

  function CancelDraftOp(o: Operation): Operation {
    if o.state == State.Draft then o.(state := Cancelled) else o
  }

  function RequestRecoveryOp(o: Operation, reference: string, now: Time): Operation {
    if o.state != Uncertain || o.recoveryRequested || o.lease.Some? then o
    else o.(recoveryReference := reference, recoveryRequested := true, dueAt := Max(now, o.dueAt))
  }

  function AbandonOp(o: Operation): Operation {
    if o.state != Uncertain then o
    else Released(o).(state := Cancelled, recoveryRequested := false, recoveryReference := "")
  }

  predicate Claimable(o: Operation, asOf: Time) {
    o.state == Queued && o.dueAt <= asOf
  }

  function ClaimOp(o: Operation, token: Token, asOf: Time): Operation {
    if !Claimable(o, asOf) then o
    else o.(state := Running, attempts := o.attempts + 1, lease := Some(token), leaseExpires := Some(asOf + LEASE_TTL))
  }

  /** The sweep never resends: an expired running lease becomes uncertain. */
  function ExpireOp(o: Operation, asOf: Time): Operation {
    if o.state == Running && o.leaseExpires.Some? && o.leaseExpires.value <= asOf then Released(o).(state := Uncertain)
    else o
  }

  function VerifyOp(o: Operation, token: Token, stale: bool): (Operation, Pc) {
    if !Holds(o, token) then (o, Done)
    else if stale then (Released(o).(state := Cancelled), Done)
    else (o, Verified)
  }

  /** _mark */
  function MarkOp(o: Operation, token: Token, to: State): Operation {
    if Holds(o, token) then Released(o).(state := to) else o
  }

  /** _requeue_rate_limited */
  function RequeueOp(o: Operation, token: Token, attempt: nat, retryAfter: Option<int>, now: Time, jitter: nat): Operation {
    if attempt >= MAX_ATTEMPTS then MarkOp(o, token, Failed)
    else if Holds(o, token) then Released(o).(state := Queued, dueAt := Delay(attempt, retryAfter, now, jitter))
    else o
  }

  function SettleOp(o: Operation, token: Token, attempt: nat, fate: Fate, now: Time, jitter: nat): Operation {
    match fate
    case RateLimited(retryAfter) => RequeueOp(o, token, attempt, retryAfter, now, jitter)
    case InstallationRefused => MarkOp(o, token, Cancelled)
    case Definite => MarkOp(o, token, Failed)
    case Unknown => MarkOp(o, token, Uncertain)
  }

  /** The transaction that links a created issue. */
  function LinkOp(o: Operation, token: Token, issue: Id, linking: Linking): (Operation, Pc) {
    if linking == Broken then (o, Settling(Unknown))
    else if !Holds(o, token) then (o, Done)
    else if linking == Rebound then (Released(o).(state := Uncertain, remote := Some(issue)), Done)
    else (Released(o).(state := Succeeded, remote := Some(issue)), Done)
  }

  predicate SearchOpen(o: Operation, asOf: Time) {
    o.state == Uncertain && o.dueAt <= asOf && (o.leaseExpires.Some? ==> o.leaseExpires.value <= asOf)
  }

  function ClaimSearchOp(o: Operation, token: Token, asOf: Time): Operation {
    if !SearchOpen(o, asOf) then o
    else o.(recoveryAttempts := o.recoveryAttempts + 1, lease := Some(token), leaseExpires := Some(asOf + LEASE_TTL))
  }

  predicate HoldsSearch(o: Operation, token: Token) {
    o.state == Uncertain && o.lease == Some(token)
  }

  /** _finish_recovery */
  function GiveUpOp(o: Operation, token: Token, attempts: nat, retryAfter: Option<int>, now: Time, jitter: nat): Operation {
    if !HoldsSearch(o, token) then o
    else Released(o).(recoveryRequested := false, recoveryReference := "", dueAt := Delay(attempts, retryAfter, now, jitter))
  }

  /** The transaction that links a recovered issue. An exception rolls it back. */
  function ConcludeOp(o: Operation, token: Token, issue: Id, linking: Linking): Operation {
    if !HoldsSearch(o, token) || linking == Broken then o
    else
      var cleared := Released(o).(recoveryRequested := false, recoveryReference := "", remote := Some(issue));
      if linking == Rebound then cleared else cleared.(state := Succeeded)
  }

  // ----- the cell, step by step

  /** GitHub's rate limiting is taken at its word: nothing was made. */
  predicate Honest(made: Option<Id>, reply: Reply) {
    match reply
    case Answered => made.Some?
    case Unreadable => made.Some?
    case Failure(fate) => fate.RateLimited? ==> made.None?
  }

  function Refusing(posts: seq<Post>): seq<Post> {
    if posts == [] then posts else posts[|posts| - 1 := posts[|posts| - 1].(refused := true)]
  }

  function Pass(c: Cell, token: Token, pc: Pc): Cell
    requires token in c.workers
  {
    c.(workers := c.workers[token := c.workers[token].(pc := pc)])
  }

  function AfterReply(made: Option<Id>, reply: Reply): Pc {
    match reply
    case Answered => if made.Some? then Created(made.value) else Settling(Unknown)
    case Unreadable => Settling(Unknown)
    case Failure(fate) => Settling(fate)
  }

  function WorkStep(c: Cell, token: Token, step: WorkerStep): Cell
    requires token in c.workers
  {
    var w := c.workers[token];
    match (w.pc, step)
    case (Claimed, Verify(stale)) =>
      var (o, pc) := VerifyOp(c.op, token, stale);
      Pass(c.(op := o), token, pc)
    case (Verified, Preflight(fate)) => Pass(c, token, Settling(if fate == Unknown then Definite else fate))
    case (Verified, Send(made)) =>
      Pass(c.(posts := c.posts + [Post(w.attempt, w.body, made, false)]), token, Posted(made))
    case (Posted(made), Receive(reply)) =>
      if !Honest(made, reply) then c
      else if reply.Failure? && reply.fate.RateLimited?
      then Pass(c.(posts := Refusing(c.posts)), token, AfterReply(made, reply))
      else Pass(c, token, AfterReply(made, reply))
    case (Created(issue), Store(saved)) =>
      if saved then Pass(c.(op := c.op.(remote := Some(issue))), token, Stored(issue))
      else Pass(c, token, Settling(Unknown))
    case (Stored(issue), Finish(linking)) =>
      var (o, pc) := LinkOp(c.op, token, issue, linking);
      var d := Pass(c.(op := o), token, pc);
      if linking == Linked && Holds(c.op, token) then d.(linked := d.linked + [issue]) else d
    case (Settling(fate), Settle(now, jitter)) =>
      Pass(c.(op := SettleOp(c.op, token, w.attempt, fate, now, jitter)), token, Done)
    case (_, Crash) => Pass(c, token, Done)
    case _ => c
  }

  function SearchAfter(c: Cell, token: Token, step: SearchStep): Cell
    requires token in c.searches
  {
    var s := c.searches[token];
    if s.finished then c
    else
      var over := c.(searches := c.searches[token := s.(finished := true)]);
      match step
      case Read(found) => c.(searches := c.searches[token := s.(matches := s.matches + found)])
      case GiveUp(now, retryAfter, jitter) => over.(op := GiveUpOp(c.op, token, s.attempts, retryAfter, now, jitter))
      case Conclude(linking) =>
        if |s.matches| != 1 then c
        else
          var d := over.(op := ConcludeOp(c.op, token, s.matches[0], linking));
          if linking == Linked && HoldsSearch(c.op, token) then d.(linked := d.linked + [s.matches[0]]) else d
      case Lost => over
  }

  function Next(c: Cell, step: CellStep): Cell {
    match step
    case Redraft(body, problemVersion, bindingRevision, repository, now) =>
      c.(op := RedraftOp(c.op, body, problemVersion, bindingRevision, repository, now))
    case Approve(now) => c.(op := ApproveOp(c.op, now))
    case CancelDraft => c.(op := CancelDraftOp(c.op))
    case RequestRecovery(reference, now) => c.(op := RequestRecoveryOp(c.op, reference, now))
    case Abandon => c.(op := AbandonOp(c.op))
    case Claim(token, asOf) =>
      if token in c.workers || token in c.searches || !Claimable(c.op, asOf) then c
      else Cell(ClaimOp(c.op, token, asOf), c.workers[token := Worker(c.op.attempts + 1, c.op.body, Claimed)], c.searches,
                c.posts, c.linked)
    case ExpireLease(asOf) => c.(op := ExpireOp(c.op, asOf))
    case Work(token, work) => if token in c.workers then WorkStep(c, token, work) else c
    case ClaimSearch(token, asOf) =>
      if token in c.workers || token in c.searches || !SearchOpen(c.op, asOf) then c
      else c.(op := ClaimSearchOp(c.op, token, asOf),
              searches := c.searches[token := Search(c.op.recoveryAttempts + 1, [], false)])
    case Searching(token, search) => if token in c.searches then SearchAfter(c, token, search) else c
  }

  // ----- what every reachable cell satisfies

  predicate Live(w: Worker) {
    !w.pc.Done?
  }

  /** Every POST but the last was refused, and attempts number the POSTs. */
  predicate PostsOk(o: Operation, posts: seq<Post>) {
    && (forall i :: 0 <= i < |posts| ==> 1 <= posts[i].attempt <= o.attempts && (posts[i].refused ==> posts[i].made.None?))
    && (forall i, j :: 0 <= i < j < |posts| ==> posts[i].attempt < posts[j].attempt && posts[i].refused)
  }

  predicate AllRefused(posts: seq<Post>) {
    posts != [] ==> posts[|posts| - 1].refused
  }

  /** What a worker that still runs knows. */
  predicate LiveOk(o: Operation, posts: seq<Post>, w: Worker) {
    && w.attempt == o.attempts >= 1 && w.body == o.body
    && match w.pc
       case Claimed => AllRefused(posts) && Unposted(o, posts)
       case Verified => AllRefused(posts) && Unposted(o, posts)
       case Posted(made) => posts != [] && posts[|posts| - 1].made == made && !posts[|posts| - 1].refused
       case Created(issue) => posts != [] && posts[|posts| - 1].made == Some(issue)
       case Stored(issue) => posts != [] && posts[|posts| - 1].made == Some(issue)
       case Settling(fate) => fate.RateLimited? ==> AllRefused(posts)
       case Done => true
  }

  /** The current attempt has not posted. */
  predicate Unposted(o: Operation, posts: seq<Post>) {
    posts != [] ==> posts[|posts| - 1].attempt < o.attempts
  }

  predicate Quiet(c: Cell) {
    forall t :: t in c.workers ==> !Live(c.workers[t])
  }

  predicate StateOk(c: Cell) {
    && c.op.attempts <= MAX_ATTEMPTS
    && (c.op.state == State.Draft ==> c.op.attempts == 0 && c.posts == [] && c.workers == map[] && c.searches == map[])
    && (c.op.state == Queued ==> AllRefused(c.posts) && c.op.attempts < MAX_ATTEMPTS)
    && (c.op.lease.Some? ==> c.op.state in {Running, Uncertain})
    && (c.op.lease.Some? <==> c.op.leaseExpires.Some?)
    && (c.op.state == Running ==> c.op.lease.Some? && c.op.attempts >= 1)
    && (if c.op.state == Succeeded then |c.linked| == 1 else c.linked == [])
    && AcceptedBody(c.op.body)
    && forall i :: 0 <= i < |c.posts| ==> c.posts[i].body == c.op.body
  }

  /** At most one worker runs, and none while the operation waits to be claimed. */
  predicate WorkersOk(c: Cell) {
    && (c.op.state in {State.Draft, Queued} ==> Quiet(c))
    && (forall t :: t in c.workers && Live(c.workers[t]) ==> LiveOk(c.op, c.posts, c.workers[t]))
    && (forall t, u :: t in c.workers && u in c.workers && Live(c.workers[t]) && Live(c.workers[u]) ==> t == u)
  }

  predicate SearchesOk(c: Cell) {
    forall t :: t in c.searches ==> c.searches[t].attempts >= 1
  }

  predicate CellInv(c: Cell) {
    StateOk(c) && WorkersOk(c) && PostsOk(c.op, c.posts) && SearchesOk(c)
  }

  // ----- the invariant, step by step

  /** A transaction that touches only the row, and leaves attempts and body alone. */
  predicate RowOnly(o: Operation, p: Operation) {
    && p.attempts == o.attempts
    && (p.body == o.body || o.state == State.Draft)
    && (p.state in {State.Draft, Queued} ==> o.state in {State.Draft, Queued})
    && (p.state == State.Draft ==> o.state == State.Draft)
    && (p.state == Running ==> o.state == Running)
    && (p.state == Succeeded <==> o.state == Succeeded)
    && (p.lease.Some? ==> p.state in {Running, Uncertain})
    && (p.lease.Some? <==> p.leaseExpires.Some?)
    && (p.state == Running ==> p.lease.Some?)
    && AcceptedBody(p.body)
  }

  lemma RowOnlyKeeps(c: Cell, p: Operation)
    requires CellInv(c) && RowOnly(c.op, p)
    ensures CellInv(c.(op := p))
  {
  }

  lemma MemberStepKeeps(c: Cell, step: CellStep)
    requires CellInv(c)
    requires step.Redraft? || step.Approve? || step.CancelDraft? || step.RequestRecovery? || step.Abandon? || step.ExpireLease?
    ensures CellInv(Next(c, step))
  {
    assert RowOnly(c.op, Next(c, step).op);
    RowOnlyKeeps(c, Next(c, step).op);
  }

  lemma ClaimKeeps(c: Cell, token: Token, asOf: Time)
    requires CellInv(c)
    ensures CellInv(Next(c, Claim(token, asOf)))
  {
  }

  lemma PassKeeps(c: Cell, token: Token, pc: Pc)
    requires CellInv(c) && token in c.workers && Live(c.workers[token])
    requires pc.Done? || LiveOk(c.op, c.posts, c.workers[token].(pc := pc))
    ensures CellInv(Pass(c, token, pc))
  {
  }

  lemma PassRowKeeps(c: Cell, token: Token, o: Operation, pc: Pc)
    requires CellInv(c) && token in c.workers && Live(c.workers[token]) && RowOnly(c.op, o) && c.op.state != State.Draft
    requires pc.Done? || LiveOk(o, c.posts, c.workers[token].(pc := pc))
    ensures CellInv(Pass(c.(op := o), token, pc))
  {
    RowOnlyKeeps(c, o);
    PassKeeps(c.(op := o), token, pc);
  }

  lemma AppendPost(o: Operation, posts: seq<Post>, p: Post)
    requires PostsOk(o, posts) && AllRefused(posts) && Unposted(o, posts)
    requires p.attempt == o.attempts >= 1 && !p.refused
    ensures PostsOk(o, posts + [p])
  {
    var all := posts + [p];
    forall i, j | 0 <= i < j < |all|
      ensures all[i].attempt < all[j].attempt && all[i].refused
    {
      if j == |posts| && i < j - 1 {
        assert posts[i].attempt < posts[j - 1].attempt;
      }
    }
  }

  lemma SendKeeps(c: Cell, token: Token, made: Option<Id>)
    requires CellInv(c) && token in c.workers && c.workers[token].pc == Verified
    ensures CellInv(WorkStep(c, token, Send(made)))
  {
    var w := c.workers[token];
    assert LiveOk(c.op, c.posts, w);
    var p := Post(w.attempt, w.body, made, false);
    AttemptStarted(c, token);
    AppendPost(c.op, c.posts, p);
    SentStateOk(c, p);
    SentWorkersOk(c, token, p);
  }

  lemma AttemptStarted(c: Cell, token: Token)
    requires CellInv(c) && token in c.workers && Live(c.workers[token])
    ensures c.op.attempts >= 1 && !(c.op.state in {State.Draft, Queued})
  {
    assert LiveOk(c.op, c.posts, c.workers[token]);
  }

  lemma SentStateOk(c: Cell, p: Post)
    requires StateOk(c) && !(c.op.state in {State.Draft, Queued}) && p.body == c.op.body
    ensures StateOk(c.(posts := c.posts + [p]))
  {
  }

  lemma SentWorkersOk(c: Cell, token: Token, p: Post)
    requires CellInv(c) && token in c.workers && Live(c.workers[token]) && !(c.op.state in {State.Draft, Queued})
    requires !p.refused
    ensures WorkersOk(Pass(c.(posts := c.posts + [p]), token, Posted(p.made)))
  {
  }

  lemma ReceiveKeeps(c: Cell, token: Token, reply: Reply)
    requires CellInv(c) && token in c.workers && c.workers[token].pc.Posted?
    ensures CellInv(WorkStep(c, token, Receive(reply)))
  {
    var made := c.workers[token].pc.made;
    if Honest(made, reply) {
      if reply.Failure? && reply.fate.RateLimited? {
        var posts := Refusing(c.posts);
        assert PostsOk(c.op, posts) && AllRefused(posts);
        var d := c.(posts := posts);
        assert WorkersOk(Pass(d, token, Settling(reply.fate)));
      } else {
        PassKeeps(c, token, AfterReply(made, reply));
      }
    }
  }

  /** The worker that settles or links is the only one alive, so it may free the row. */
  lemma AloneQuiet(c: Cell, token: Token, o: Operation)
    requires CellInv(c) && token in c.workers && Live(c.workers[token])
    ensures Quiet(Pass(c.(op := o), token, Done))
  {
  }

  lemma SettledStateOk(c: Cell, token: Token, w: Worker, fate: Fate, now: Time, jitter: nat)
    requires CellInv(c) && token in c.workers && c.workers[token] == w && w.pc == Settling(fate)
    ensures var d := Pass(c.(op := SettleOp(c.op, token, w.attempt, fate, now, jitter)), token, Done);
            StateOk(d) && PostsOk(d.op, d.posts)
  {
    assert LiveOk(c.op, c.posts, w);
  }

  lemma SettleKeeps(c: Cell, token: Token, now: Time, jitter: nat)
    requires CellInv(c) && token in c.workers && c.workers[token].pc.Settling?
    ensures CellInv(WorkStep(c, token, Settle(now, jitter)))
  {
    var w := c.workers[token];
    AloneQuiet(c, token, SettleOp(c.op, token, w.attempt, w.pc.fate, now, jitter));
    SettledStateOk(c, token, w, w.pc.fate, now, jitter);
  }

  lemma LinkKeeps(c: Cell, token: Token, linking: Linking)
    requires CellInv(c) && token in c.workers && c.workers[token].pc.Stored?
    ensures CellInv(WorkStep(c, token, Finish(linking)))
  {
    var issue := c.workers[token].pc.issue;
    var (o, pc) := LinkOp(c.op, token, issue, linking);
    var d := WorkStep(c, token, Finish(linking));
    if linking == Broken {
      PassKeeps(c, token, pc);
    } else {
      AloneQuiet(c, token, o);
      assert StateOk(d) && PostsOk(d.op, d.posts);
    }
  }

  lemma WorkKeeps(c: Cell, token: Token, step: WorkerStep)
    requires CellInv(c) && token in c.workers
    ensures CellInv(WorkStep(c, token, step))
  {
    var w := c.workers[token];
    if step.Crash? {
      CrashKeeps(c, token);
    } else if w.pc.Claimed? && step.Verify? {
      var (o, pc) := VerifyOp(c.op, token, step.stale);
      PassRowKeeps(c, token, o, pc);
    } else if w.pc.Verified? && step.Preflight? {
      PassKeeps(c, token, Settling(if step.fate == Unknown then Definite else step.fate));
    } else if w.pc.Verified? && step.Send? {
      SendKeeps(c, token, step.made);
    } else if w.pc.Posted? && step.Receive? {
      ReceiveKeeps(c, token, step.reply);
    } else if w.pc.Created? && step.Store? {
      StoreKeeps(c, token, step.saved);
    } else if w.pc.Stored? && step.Finish? {
      LinkKeeps(c, token, step.linking);
    } else if w.pc.Settling? && step.Settle? {
      SettleKeeps(c, token, step.now, step.jitter);
    }
  }

  lemma CrashKeeps(c: Cell, token: Token)
    requires CellInv(c) && token in c.workers
    ensures CellInv(Pass(c, token, Done))
  {
    if Live(c.workers[token]) {
      PassKeeps(c, token, Done);
    } else {
      assert Pass(c, token, Done) == c;
    }
  }

  lemma StoreKeeps(c: Cell, token: Token, saved: bool)
    requires CellInv(c) && token in c.workers && c.workers[token].pc.Created?
    ensures CellInv(WorkStep(c, token, Store(saved)))
  {
    if saved {
      PassRowKeeps(c, token, c.op.(remote := Some(c.workers[token].pc.issue)), Stored(c.workers[token].pc.issue));
    } else {
      PassKeeps(c, token, Settling(Unknown));
    }
  }

  /** A step that gives or takes no attempt, POST or worker, and links at most once. */
  lemma OffWorkersKeeps(c: Cell, d: Cell)
    requires CellInv(c) && d.workers == c.workers && d.posts == c.posts && c.op.state != State.Draft
    requires d.op == c.op || (d.op.state in {Uncertain, Succeeded} && c.op.state == Uncertain
                              && d.op.attempts == c.op.attempts && d.op.body == c.op.body)
    requires d.op.lease.Some? ==> d.op.state == c.op.state
    requires d.op.lease.Some? <==> d.op.leaseExpires.Some?
    requires if d.op.state == Succeeded then |d.linked| == 1 else d.linked == []
    requires SearchesOk(d)
    ensures CellInv(d)
  {
  }

  lemma SearchKeeps(c: Cell, token: Token, step: SearchStep)
    requires CellInv(c) && token in c.searches
    ensures CellInv(SearchAfter(c, token, step))
  {
    assert c.op.state != State.Draft;
    OffWorkersKeeps(c, SearchAfter(c, token, step));
  }

  lemma ClaimSearchKeeps(c: Cell, token: Token, asOf: Time)
    requires CellInv(c)
    ensures CellInv(Next(c, ClaimSearch(token, asOf)))
  {
  }

  lemma NextKeeps(c: Cell, step: CellStep)
    requires CellInv(c)
    ensures CellInv(Next(c, step))
  {
    match step
    case Claim(token, asOf) => ClaimKeeps(c, token, asOf);
    case Work(token, work) => if token in c.workers { WorkKeeps(c, token, work); }
    case ClaimSearch(token, asOf) => ClaimSearchKeeps(c, token, asOf);
    case Searching(token, search) => if token in c.searches { SearchKeeps(c, token, search); }
    case _ => MemberStepKeeps(c, step);
  }

  // ----- runs of one operation

  function RunCell(c: Cell, steps: seq<CellStep>): Cell
    decreases |steps|
  {
    if steps == [] then c else RunCell(Next(c, steps[0]), steps[1..])
  }

  function Unrefused(posts: seq<Post>): set<nat> {
    set i: nat | i < |posts| && !posts[i].refused
  }

  /** At most one POST of an operation was not refused for rate limiting, at most one made an
      issue, and there are at most twelve in all. */
  lemma AtMostOnePost(c: Cell)
    requires CellInv(c)
    ensures |Unrefused(c.posts)| <= 1 && |c.posts| <= MAX_ATTEMPTS
    ensures forall i, j :: 0 <= i < |c.posts| && 0 <= j < |c.posts| && c.posts[i].made.Some? && c.posts[j].made.Some? ==> i == j
  {
    var last := |c.posts| - 1;
    forall i | 0 <= i < last
      ensures c.posts[i].refused
    {
      assert c.posts[i].attempt < c.posts[last].attempt;
    }
    if last >= 0 {
      SubsetSize(Unrefused(c.posts), {last});
    } else {
      assert Unrefused(c.posts) == {};
    }
    PostsAreFew(c.posts, c.op.attempts);
  }

  lemma {:induction false} PostsAreFew(posts: seq<Post>, attempts: nat)
    requires forall i :: 0 <= i < |posts| ==> 1 <= posts[i].attempt <= attempts
    requires forall i, j :: 0 <= i < j < |posts| ==> posts[i].attempt < posts[j].attempt
    ensures |posts| <= attempts
    decreases attempts
  {
    if posts != [] {
      PostsAreFew(posts[..|posts| - 1], posts[|posts| - 1].attempt - 1);
    }
  }

  /** Running returns to queued only when the lease holder settles a rate-limited attempt, and
      then every POST so far was refused. */
  lemma RequeuedOnlyWhenRefused(c: Cell, step: CellStep)
    requires CellInv(c) && c.op.state == Running && Next(c, step).op.state == Queued
    ensures step.Work? && step.work.Settle? && step.token in c.workers && Holds(c.op, step.token)
    ensures c.workers[step.token].pc.Settling? && c.workers[step.token].pc.fate.RateLimited?
    ensures AllRefused(c.posts) && c.op.attempts < MAX_ATTEMPTS
    ensures Next(c, step).op.dueAt >= step.work.now
  {
    if step.Work? && step.token in c.workers {
      var w := c.workers[step.token];
      if w.pc.Settling? && step.work.Settle? {
        assert LiveOk(c.op, c.posts, w);
      }
    }
  }

  /** A final operation stays as it is: no late worker, search, sweep or member changes it,
      except that a late worker may still record the ids of the issue it made. */
  lemma FinalStays(c: Cell, step: CellStep)
    requires CellInv(c) && c.op.state in {Succeeded, Failed, Cancelled}
    ensures Next(c, step).op == c.op.(remote := Next(c, step).op.remote) && Next(c, step).linked == c.linked
    ensures Next(c, step).op.remote == c.op.remote
            || (step.Work? && step.token in c.workers && c.workers[step.token].pc.Created?
                && Next(c, step).op.remote == Some(c.workers[step.token].pc.issue))
  {
    assert c.op.lease.None?;
  }

  /** Once claimed, an operation is never resent unless GitHub refused every POST: from
      uncertain it can only be linked, or given up by a member. */
  lemma UncertainNeverResent(c: Cell, step: CellStep)
    requires CellInv(c) && c.op.state == Uncertain
    ensures Next(c, step).op.state in {Uncertain, Succeeded, Cancelled}
    ensures Next(c, step).op.state == Cancelled ==> step.Abandon?
    ensures Next(c, step).op.state == Succeeded ==>
              && step.Searching? && step.token in c.searches && HoldsSearch(c.op, step.token)
              && |c.searches[step.token].matches| == 1
  {
  }

  /** However long it runs on, a final operation keeps its state and its link. */
  lemma {:induction false} FinalForever(c: Cell, steps: seq<CellStep>)
    requires CellInv(c) && c.op.state in {Succeeded, Failed, Cancelled}
    ensures RunCell(c, steps).op.state == c.op.state && RunCell(c, steps).linked == c.linked
    decreases |steps|
  {
    if steps != [] {
      NextKeeps(c, steps[0]);
      FinalStays(c, steps[0]);
      FinalForever(Next(c, steps[0]), steps[1..]);
    }
  }
}
