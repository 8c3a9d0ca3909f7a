/** What each step of an issue creation does to its operation, exactly: when it acts, the row,
    the posts and the program counter it leaves, and how long every wait is. */
module CreationLaws {
  import opened Common
  import opened Retries
  import opened PythonStrings
  import opened IssueMarkers
  import opened IssueCreations

  // ----- what is posted

  lemma {:induction false} RstripExactly(s: string)
    ensures Rstrip(s) <= s && (Rstrip(s) != "" ==> !IsSpace(Rstrip(s)[|Rstrip(s)| - 1]))
    ensures forall i :: |Rstrip(s)| <= i < |s| ==> IsSpace(s[i])
  {
    if s != "" && IsSpace(s[|s| - 1]) {
      RstripExactly(s[..|s| - 1]);
    }
  }

  /** An accepted body is posted as it is, without trailing space, above its marker. */
  lemma PostedTextExactly(id: Uuid, body: string)
    requires AcceptedBody(body)
    ensures ExactBody(id, body)
            == (if forall i :: 0 <= i < |body| ==> IsSpace(body[i]) then "" else Rstrip(body) + "\n\n")
               + ("<!-- rescribo-operation:" + id + " -->")
  {
    NoMarkerInBody(body, id);
    RemoveNothing(body, MarkerFor(id));
    RstripExactly(body);
    assert MarkerFor(id) == "<!-- rescribo-operation:" + id + " -->";
    if Rstrip(body) == "" {
      assert forall i :: 0 <= i < |body| ==> IsSpace(body[i]);
      assert "" + MarkerFor(id) == MarkerFor(id);
    } else {
      assert !IsSpace(body[|Rstrip(body)| - 1]);
    }
  }

  // ----- members

  lemma RedraftExactly(c: Cell, body: string, version: nat, revision: nat, repository: Id, now: Time)
    ensures Next(c, Redraft(body, version, revision, repository, now))
            == if c.op.state == State.Draft && c.op.expiresAt > now && AcceptedBody(body)
               then c.(op := c.op.(body := body, draftVersion := c.op.draftVersion + 1, problemVersion := version,
                                   bindingRevision := revision, repository := repository, expiresAt := now + 900))
               else c
  {
  }

  lemma ApproveExactly(c: Cell, now: Time)
    ensures Next(c, Approve(now))
            == if c.op.state != State.Draft then c
               else if c.op.expiresAt <= now then c.(op := c.op.(state := Cancelled))
               else c.(op := c.op.(state := Queued, dueAt := now))
    ensures Next(c, CancelDraft) == if c.op.state == State.Draft then c.(op := c.op.(state := Cancelled)) else c
  {
  }

  /** Recovery is asked for once, of an uncertain operation that nobody is searching for; it
      never comes due earlier than it was. */
  lemma RequestRecoveryExactly(c: Cell, reference: string, now: Time)
    ensures Next(c, RequestRecovery(reference, now))
            == if c.op.state == Uncertain && !c.op.recoveryRequested && c.op.lease.None?
               then c.(op := c.op.(recoveryReference := reference, recoveryRequested := true,
                                   dueAt := if c.op.dueAt < now then now else c.op.dueAt))
               else c
    ensures Next(c, Abandon)
            == if c.op.state == Uncertain
               then c.(op := c.op.(state := Cancelled, recoveryRequested := false, recoveryReference := "",
                                   lease := None, leaseExpires := None))
               else c
  {
  }

  // ----- workers

  lemma ClaimExactly(c: Cell, token: Token, asOf: Time)
    requires token !in c.workers && token !in c.searches
    ensures Next(c, Claim(token, asOf))
            == if c.op.state == Queued && c.op.dueAt <= asOf
               then c.(op := c.op.(state := Running, attempts := c.op.attempts + 1, lease := Some(token), leaseExpires := Some(asOf + 190)),
                       workers := c.workers[token := Worker(c.op.attempts + 1, c.op.body, Claimed)])
               else c
  {
  }

  lemma ExpireExactly(c: Cell, asOf: Time)
    requires CellInv(c)
    ensures Next(c, ExpireLease(asOf))
            == if c.op.state == Running && c.op.leaseExpires.value <= asOf
               then c.(op := c.op.(state := Uncertain, lease := None, leaseExpires := None)) else c
  {
  }

  function At(c: Cell, token: Token, pc: Pc): Cell
    requires token in c.workers
  {
    c.(workers := c.workers[token := c.workers[token].(pc := pc)])
  }

  /** A worker posts next only while the operation runs under its lease and the approval holds. */
  lemma VerifyExactly(c: Cell, token: Token, stale: bool)
    requires token in c.workers && c.workers[token].pc.Claimed?
    ensures Next(c, Work(token, Verify(stale)))
            == if c.op.state != Running || c.op.lease != Some(token) then At(c, token, Done)
               else if stale then At(c, token, Done).(op := c.op.(state := Cancelled, lease := None, leaseExpires := None))
               else At(c, token, Verified)
  {
  }

  /** Before the POST nothing is ambiguous; the POST carries the text that was claimed. */
  lemma PostExactly(c: Cell, token: Token, fate: Fate, made: Option<Id>)
    requires token in c.workers && c.workers[token].pc.Verified?
    ensures Next(c, Work(token, Preflight(fate))) == At(c, token, Settling(if fate.Unknown? then Definite else fate))
    ensures Next(c, Work(token, Send(made)))
            == At(c, token, Posted(made)).(posts := c.posts + [Post(c.workers[token].attempt, c.workers[token].body, made, false)])
  {
  }

  /** GitHub's answer: only a readable issue is linked, only a rate limit counts as refused. */
  lemma ReplyExactly(c: Cell, token: Token, reply: Reply)
    requires CellInv(c) && token in c.workers && c.workers[token].pc.Posted?
    requires var made := c.workers[token].pc.made;
             (!reply.Failure? ==> made.Some?) && (reply.Failure? && reply.fate.RateLimited? ==> made.None?)
    ensures var d := Next(c, Work(token, Receive(reply)));
            && d == At(c, token, match reply
                                 case Answered => Created(c.workers[token].pc.made.value)
                                 case Unreadable => Settling(Unknown)
                                 case Failure(fate) => Settling(fate)).(posts := d.posts)
            && |d.posts| == |c.posts| && c.posts != []
            && forall k :: 0 <= k < |c.posts| ==>
                 d.posts[k] == if k == |c.posts| - 1 && reply.Failure? && reply.fate.RateLimited? then c.posts[k].(refused := true)
                               else c.posts[k]
  {
    assert LiveOk(c.op, c.posts, c.workers[token]);
  }

  lemma StoreExactly(c: Cell, token: Token, saved: bool)
    requires token in c.workers && c.workers[token].pc.Created?
    ensures var issue := c.workers[token].pc.issue;
            Next(c, Work(token, Store(saved)))
            == if saved then At(c, token, Stored(issue)).(op := c.op.(remote := Some(issue))) else At(c, token, Settling(Unknown))
  {
  }

  /** Linking succeeds, keeps the issue aside after a change of binding, or leaves the outcome
      unknown; without the lease it does nothing. */
  lemma FinishExactly(c: Cell, token: Token, linking: Linking)
    requires token in c.workers && c.workers[token].pc.Stored?
    ensures var issue := c.workers[token].pc.issue;
            var free := c.op.(remote := Some(issue), lease := None, leaseExpires := None);
            Next(c, Work(token, Finish(linking)))
            == if linking.Broken? then At(c, token, Settling(Unknown))
               else if c.op.state != Running || c.op.lease != Some(token) then At(c, token, Done)
               else if linking.Rebound? then At(c, token, Done).(op := free.(state := Uncertain))
               else At(c, token, Done).(op := free.(state := Succeeded), linked := c.linked + [issue])
  {
  }

  /** A failed attempt settles the operation only under its lease: a rate limit queues it again
      after the wait, up to the twelfth attempt; a refused installation cancels it, a definite
      failure fails it, and anything else leaves it uncertain. */
  lemma SettleExactly(c: Cell, token: Token, now: Time, jitter: nat)
    requires CellInv(c) && token in c.workers && c.workers[token].pc.Settling?
    ensures var d, fate := Next(c, Work(token, Settle(now, jitter))), c.workers[token].pc.fate;
            && d == At(c, token, Done).(op := d.op)
            && (if c.op.state != Running || c.op.lease != Some(token) then d.op == c.op
                else if fate.RateLimited? && c.op.attempts < 12
                then d.op == c.op.(state := Queued, dueAt := d.op.dueAt, lease := None, leaseExpires := None)
                     && Waits(d.op.dueAt - now, c.op.attempts, fate.retryAfter)
                else d.op == c.op.(state := match fate
                                            case InstallationRefused => Cancelled
                                            case Unknown => Uncertain
                                            case _ => Failed,
                                   lease := None, leaseExpires := None))
  {
    var w := c.workers[token];
    assert LiveOk(c.op, c.posts, w);
    if w.pc.fate.RateLimited? {
      DelayWaits(w.attempt, w.pc.fate.retryAfter, now, jitter);
    }
  }

  /** Running goes back to queued only after a wait of the stated length. */
  lemma RequeueWaits(c: Cell, step: CellStep)
    requires CellInv(c) && c.op.state == Running && Next(c, step).op.state == Queued
    ensures step.Work? && step.work.Settle? && step.token in c.workers
    ensures c.workers[step.token].pc.Settling? && c.workers[step.token].pc.fate.RateLimited?
    ensures Waits(Next(c, step).op.dueAt - step.work.now, c.op.attempts, c.workers[step.token].pc.fate.retryAfter)
  {
    RequeuedOnlyWhenRefused(c, step);
    SettleExactly(c, step.token, step.work.now, step.work.jitter);
  }

  /** A worker that stops changes nothing but itself. */
  lemma CrashExactly(c: Cell, token: Token)
    requires token in c.workers
    ensures Next(c, Work(token, Crash)) == At(c, token, Done)
  {
  }

  // ----- recovery

  lemma ClaimSearchExactly(c: Cell, token: Token, asOf: Time)
    requires token !in c.workers && token !in c.searches
    ensures Next(c, ClaimSearch(token, asOf))
            == if c.op.state == Uncertain && c.op.dueAt <= asOf && (c.op.leaseExpires.Some? ==> c.op.leaseExpires.value <= asOf)
               then c.(op := c.op.(recoveryAttempts := c.op.recoveryAttempts + 1, lease := Some(token), leaseExpires := Some(asOf + 190)),
                       searches := c.searches[token := Search(c.op.recoveryAttempts + 1, [], false)])
               else c
  {
  }

  function Over(c: Cell, token: Token): Cell
    requires token in c.searches
  {
    c.(searches := c.searches[token := c.searches[token].(finished := true)])
  }

  /** A recovery that gives up clears the request and waits, if it still holds its lease. */
  lemma GiveUpExactly(c: Cell, token: Token, now: Time, retryAfter: Option<int>, jitter: nat)
    requires CellInv(c) && token in c.searches && !c.searches[token].finished
    ensures var d := Next(c, Searching(token, GiveUp(now, retryAfter, jitter)));
            && d == Over(c, token).(op := d.op)
            && (if c.op.state != Uncertain || c.op.lease != Some(token) then d.op == c.op
                else d.op == c.op.(recoveryRequested := false, recoveryReference := "", dueAt := d.op.dueAt,
                                   lease := None, leaseExpires := None)
                     && Waits(d.op.dueAt - now, c.searches[token].attempts, retryAfter))
  {
    DelayWaits(c.searches[token].attempts, retryAfter, now, jitter);
  }

  /** A recovery concludes only with one match: it links it, or keeps it aside on a conflict, and
      a failure to link undoes everything. */
  lemma ConcludeExactly(c: Cell, token: Token, linking: Linking)
    requires token in c.searches && !c.searches[token].finished && |c.searches[token].matches| == 1
    ensures var issue := c.searches[token].matches[0];
            var free := c.op.(recoveryRequested := false, recoveryReference := "", remote := Some(issue), lease := None, leaseExpires := None);
            Next(c, Searching(token, Conclude(linking)))
            == if c.op.state != Uncertain || c.op.lease != Some(token) || linking.Broken? then Over(c, token)
               else if linking.Rebound? then Over(c, token).(op := free)
               else Over(c, token).(op := free.(state := Succeeded), linked := c.linked + [issue])
  {
  }

  lemma ReadExactly(c: Cell, token: Token, found: seq<Id>)
    requires token in c.searches && !c.searches[token].finished
    ensures Next(c, Searching(token, Read(found)))
            == c.(searches := c.searches[token := c.searches[token].(matches := c.searches[token].matches + found)])
    ensures Next(c, Searching(token, Lost)) == Over(c, token)
  {
  }

  // ----- waits are kept

  /** No claim reads the clock at or after `due`. */
  predicate Early(steps: seq<CellStep>, due: Time) {
    forall i :: 0 <= i < |steps| ==>
      (steps[i].Claim? ==> steps[i].asOf < due) && (steps[i].ClaimSearch? ==> steps[i].asOf < due)
  }

  lemma QueuedStep(c: Cell, step: CellStep)
    requires CellInv(c) && c.op.state == Queued && (step.Claim? ==> step.asOf < c.op.dueAt)
    ensures Next(c, step).op == c.op && Next(c, step).posts == c.posts && Next(c, step).linked == c.linked
  {
    if step.Work? && step.token in c.workers {
      assert !Live(c.workers[step.token]);
    }
  }

  /** Until it is due, whatever else happens, a queued operation stays as it is and posts nothing. */
  lemma {:induction false} QueuedUntilDue(c: Cell, steps: seq<CellStep>)
    requires CellInv(c) && c.op.state == Queued && Early(steps, c.op.dueAt)
    ensures RunCell(c, steps).op == c.op && RunCell(c, steps).posts == c.posts && RunCell(c, steps).linked == c.linked
    decreases |steps|
  {
    if steps != [] {
      QueuedStep(c, steps[0]);
      NextKeeps(c, steps[0]);
      QueuedUntilDue(Next(c, steps[0]), steps[1..]);
    }
  }

  lemma UncertainStep(c: Cell, step: CellStep)
    requires CellInv(c) && c.op.state == Uncertain && c.op.lease.None? && (step.ClaimSearch? ==> step.asOf < c.op.dueAt)
    ensures var d := Next(c, step);
            && d.op.lease.None? && d.op.state in {Uncertain, Cancelled} && d.op.dueAt >= c.op.dueAt
            && d.op.recoveryAttempts == c.op.recoveryAttempts && d.linked == c.linked
  {
  }

  /** Until it is due, no recovery searches for an uncertain operation that nobody holds. */
  lemma {:induction false} UncertainUntilDue(c: Cell, steps: seq<CellStep>, due: Time)
    requires CellInv(c) && (c.op.state == Uncertain || c.op.state == Cancelled) && c.op.lease.None?
    requires c.op.dueAt >= due && Early(steps, due)
    ensures var d := RunCell(c, steps);
            && d.op.lease.None? && d.op.state in {Uncertain, Cancelled} && d.op.dueAt >= due
            && d.op.recoveryAttempts == c.op.recoveryAttempts && d.linked == c.linked
    decreases |steps|
  {
    if steps != [] {
      if c.op.state == Uncertain {
        UncertainStep(c, steps[0]);
      } else {
        FinalStays(c, steps[0]);
      }
      NextKeeps(c, steps[0]);
      UncertainUntilDue(Next(c, steps[0]), steps[1..], due);
    }
  }
}
