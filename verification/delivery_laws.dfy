/** What each worker step and member decision does to the world, exactly: when it acts, the
    whole state it leaves, and that nothing changes otherwise. The conditions are stated on the
    rows and the desk themselves. */
module DeliveryLaws {
  import opened Common
  import opened Transitions
  import opened Notifications
  import opened DeliveryWorld
  import opened DeliveryInvariants
  import opened DeliveryHistory

  /** The report is as it was when the row was prepared, and still waits for the same fix. */
  predicate UpToDate(d: Desk, n: Row) {
    && n.report in d.reports && d.reports[n.report].version == n.reportVersion
    && d.reports[n.report].problem == Some(n.problem) && d.reports[n.report].triage == Linked
    && n.problem in d.problems && d.problems[n.problem].state == FixAvailable
    && d.problems[n.problem].revision == n.revision
  }

  predicate SameRecipient(d: Desk, n: Row) {
    n.followUp in d.followUps && d.followUps[n.followUp].recipient == n.recipient
  }

  /** In an orderly desk a fix that is available has been confirmed, so freshness is this. */
  lemma FreshExactly(w: World, n: Row, active: bool)
    requires Inv(w)
    ensures Freshness(w.desk, n, active).None? <==> UpToDate(w.desk, n) && active
  {
    if n.problem in w.desk.problems {
      assert FixOk(w.desk.problems[n.problem], Count(w.desk.confirmations, n.problem), w.now);
    }
  }

  // ----- member decisions

  lemma DraftExactly(w: World, id: Id, f: Key, text: string)
    requires Reachable(w)
    ensures var open := && id !in w.rows && f in w.desk.followUps && f.report in w.desk.reports
                        && w.desk.reports[f.report].problem == Some(f.problem) && w.desk.reports[f.report].triage == Linked
                        && f.problem in w.desk.problems && w.desk.problems[f.problem].state == FixAvailable
                        && w.desk.problems[f.problem].revision == f.revision
                        && forall k :: k in w.rows && w.rows[k].followUp == f ==> w.rows[k].state == Cancelled;
            Apply(w, Member(id, MemberStep.Draft(f, text)))
            == if open
               then w.(rows := w.rows[id := Row(f.report, f.problem, f, w.desk.followUps[f].recipient, f.revision,
                                                w.desk.reports[f.report].version, text, 1, State.Draft, 0, None, None, None,
                                                "", "", None, None, None)])
               else w
  {
    ReachableInv(w);
    if f.problem in w.desk.problems {
      assert FixOk(w.desk.problems[f.problem], Count(w.desk.confirmations, f.problem), w.now);
    }
  }

  lemma EditExactly(w: World, k: Id, version: nat, text: string)
    ensures Apply(w, Member(k, Edit(version, text)))
            == if k in w.rows && w.rows[k].state in {State.Draft, Failed} && w.rows[k].draftVersion == version && text != ""
               then w.(rows := w.rows[k := w.rows[k].(message := text, draftVersion := version + 1)])
               else w
  {
  }

  /** An approval queues exactly a draft or failed row at the version seen that is not
      invalidated and up to date, and records the text and version it was given for. */
  lemma ApprovalExactly(w: World, k: Id, version: nat)
    requires Reachable(w)
    ensures Apply(w, Member(k, Approve(version)))
            == if k in w.rows && w.rows[k].state in {State.Draft, Failed} && w.rows[k].draftVersion == version
                  && w.rows[k].invalidated.None? && UpToDate(w.desk, w.rows[k])
               then w.(rows := w.rows[k := w.rows[k].(state := Queued, dueAt := Some(w.now), attempts := 0)],
                       log := w.log.(approvals := w.log.approvals + [Approval(k, version, w.rows[k].message)],
                                     latest := w.log.latest[k := |w.log.approvals|]))
               else w
  {
    ReachableInv(w);
    if k in w.rows {
      assert RowOk(w.rows[k]);
      FreshExactly(w, w.rows[k], true);
    }
  }

  /** Sending again queues exactly an uncertain row that no worker holds, at the version seen,
      not invalidated, up to date and still meant for the follow-up's recipient. */
  lemma ResendExactly(w: World, k: Id, version: nat)
    requires Reachable(w)
    ensures Apply(w, Member(k, SendAgain(version)))
            == if k in w.rows && w.rows[k].state == Uncertain && w.rows[k].leaseToken.None? && w.rows[k].draftVersion == version
                  && w.rows[k].invalidated.None? && UpToDate(w.desk, w.rows[k]) && SameRecipient(w.desk, w.rows[k])
               then w.(rows := w.rows[k := w.rows[k].(state := Queued, dueAt := Some(w.now))],
                       log := w.log.(approvals := w.log.approvals + [Approval(k, version, w.rows[k].message)],
                                     latest := w.log.latest[k := |w.log.approvals|]))
               else w
  {
    ReachableInv(w);
    if k in w.rows {
      assert RowOk(w.rows[k]);
      FreshExactly(w, w.rows[k], true);
    }
  }

  /** An uncertain row that no worker holds is settled by a member's word, either way. */
  lemma SettlementExactly(w: World, k: Id, version: nat)
    requires Reachable(w)
    ensures var open := k in w.rows && w.rows[k].state == Uncertain && w.rows[k].leaseToken.None? && w.rows[k].draftVersion == version;
            && Apply(w, Member(k, MarkDelivered(version)))
               == (if !open then w
                   else w.(rows := w.rows[k := w.rows[k].(state := Sent, sentAt := Some(w.now), confirmedAt := Some(w.now))]))
            && Apply(w, Member(k, MemberStep.Cancel(version)))
               == (if !open then w
                   else w.(rows := w.rows[k := w.rows[k].(state := Cancelled,
                                                          invalidated := Some(Invalidation(w.now, MemberCancelled)))]))
  {
    ReachableInv(w);
    if k in w.rows {
      assert RowOk(w.rows[k]);
    }
  }

  // ----- workers

  /** A worker takes exactly a queued row that is due and unleased, for a minute; a queued row
      whose lease has run out becomes uncertain instead. */
  lemma ClaimExactly(w: World, k: Id, token: Token, asOf: Time)
    requires Reachable(w) && k in w.rows && token !in w.workers && asOf <= w.now
    ensures var n, v := w.rows[k], Apply(w, Claim(k, token, asOf));
            && v.desk == w.desk && v.log == w.log && v.now == w.now && v.rows == w.rows[k := v.rows[k]]
            && (if n.state == Queued && (n.dueAt.Some? ==> n.dueAt.value <= asOf) && n.leaseToken.None?
                then v.rows[k] == n.(attempts := n.attempts + 1, leaseToken := Some(token), leaseExpires := Some(asOf + 60))
                     && k in w.log.latest && v.workers == w.workers[token := Worker(k, w.log.latest[k], Authorizing(None))]
                else v.workers == w.workers
                     && v.rows[k] == if n.state == Queued && (n.dueAt.Some? ==> n.dueAt.value <= asOf)
                                        && n.leaseExpires.Some? && n.leaseExpires.value <= asOf
                                     then n.(state := Uncertain, leaseToken := None, leaseExpires := None) else n)
  {
    ReachableLogged(w);
    assert RowOk(w.rows[k]) && QueueOk(w.log, k, w.rows[k]);
    ClaimedExactly(w.rows[k], token, asOf);
  }

  lemma ClaimedExactly(n: Row, token: Token, asOf: Time)
    requires RowOk(n)
    ensures var due := n.state == Queued && (n.dueAt.Some? ==> n.dueAt.value <= asOf);
            ClaimRow(n, token, asOf)
            == if due && n.leaseToken.None?
               then (n.(attempts := n.attempts + 1, leaseToken := Some(token), leaseExpires := Some(asOf + 60)), true)
               else if due && n.leaseExpires.value <= asOf
               then (n.(state := Uncertain, leaseToken := None, leaseExpires := None), false)
               else (n, false)
  {
  }

  lemma ExpireExactly(w: World, k: Id, asOf: Time)
    requires Reachable(w) && k in w.rows && asOf <= w.now
    ensures var n := w.rows[k];
            Apply(w, Expire(k, asOf))
            == w.(rows := w.rows[k := if n.leaseExpires.Some? && n.leaseExpires.value <= asOf
                                      then n.(state := Uncertain, leaseToken := None, leaseExpires := None) else n])
  {
    ReachableInv(w);
    assert RowOk(w.rows[k]);
  }

  /** A worker's step touches its own row and its own program counter, nothing else. */
  predicate OwnStep(w: World, v: World, token: Token)
    requires token in w.workers
  {
    && v.now == w.now && v.desk == w.desk && w.workers[token].row in w.rows
    && token in v.workers && v.workers == w.workers[token := w.workers[token].(pc := v.workers[token].pc)]
    && w.workers[token].row in v.rows && v.rows == w.rows[w.workers[token].row := v.rows[w.workers[token].row]]
  }

  /** A worker goes on exactly while its row is queued under its lease, not invalidated, up to
      date and meant for the follow-up's recipient, who is active, and Slack is ready. A row that
      is out of date is cancelled as stale; any other refusal leaves the row to the failure. */
  lemma AuthorizeExactly(w: World, token: Token, active: bool, ready: bool)
    requires Reachable(w) && token in w.workers && w.workers[token].pc.Authorizing?
    ensures var v := Apply(w, Work(token, Authorize(active, ready)));
            OwnStep(w, v, token) && v.log == w.log
            && var k, c := w.workers[token].row, w.workers[token].pc.conversation;
               var n, pc := w.rows[k], v.workers[token].pc;
               var held := n.state == Queued && n.leaseToken == Some(token) && n.invalidated.None? && SameRecipient(w.desk, n) && active;
               && (pc.Opening? || pc.Ready? <==> held && UpToDate(w.desk, n) && ready)
               && pc == (if !(held && UpToDate(w.desk, n) && ready) then Failing(false)
                         else if c.None? then Opening else Ready(c.value, n.draftVersion, n.message))
               && v.rows[k] == if held && !UpToDate(w.desk, n)
                               then n.(state := Cancelled, invalidated := Some(Invalidation(w.now, Stale)),
                                       leaseToken := None, leaseExpires := None)
                               else n
  {
    ReachableLogged(w);
    assert WorkerOk(w.log, w.rows, w.workers[token]);
    var n := w.rows[w.workers[token].row];
    FreshExactly(w, n, active);
    AuthorizedExactly(w, n, token, w.workers[token].pc.conversation, active, ready);
  }

  lemma AuthorizedExactly(w: World, n: Row, token: Token, c: Option<string>, active: bool, ready: bool)
    requires Freshness(w.desk, n, active).None? <==> UpToDate(w.desk, n) && active
    ensures var held := n.state == Queued && n.leaseToken == Some(token) && n.invalidated.None? && SameRecipient(w.desk, n) && active;
            Authorized(w.desk, n, token, c, active, ready, w.now)
            == if held && !UpToDate(w.desk, n)
               then (n.(state := Cancelled, invalidated := Some(Invalidation(w.now, Stale)), leaseToken := None, leaseExpires := None),
                     Failing(false))
               else if held && ready then (n, if c.None? then Opening else Ready(c.value, n.draftVersion, n.message))
               else (n, Failing(false))
  {
  }

  lemma OpenExactly(w: World, token: Token, answer: Option<string>)
    requires Reachable(w) && token in w.workers && w.workers[token].pc.Opening?
    ensures Apply(w, Work(token, OpenConversation(answer)))
            == w.(workers := w.workers[token := w.workers[token].(
                    pc := if answer.Some? && answer.value != "" then Saving(answer.value) else Failing(false))])
  {
    ReachableLogged(w);
    assert WorkerOk(w.log, w.rows, w.workers[token]);
    assert w.rows[w.workers[token].row := w.rows[w.workers[token].row]] == w.rows;
  }

  /** The conversation is kept, and the send goes on, exactly while the row is queued under the
      worker's lease. An invalidated row under its lease is cancelled. */
  lemma SaveExactly(w: World, token: Token)
    requires Reachable(w) && token in w.workers && w.workers[token].pc.Saving?
    ensures var v := Apply(w, Work(token, SaveConversation));
            OwnStep(w, v, token) && v.log == w.log
            && var k, dm := w.workers[token].row, w.workers[token].pc.dm;
               var n := w.rows[k];
               && v.workers[token].pc == (if n.leaseToken == Some(token) && n.state == Queued then Authorizing(Some(dm)) else Done)
               && v.rows[k] == if n.leaseToken != Some(token) then n
                               else if n.state == Queued then n.(conversation := dm)
                               else n.(state := Cancelled, conversation := dm, leaseToken := None, leaseExpires := None)
  {
    ReachableLogged(w);
    assert WorkerOk(w.log, w.rows, w.workers[token]) && RowOk(w.rows[w.workers[token].row]);
  }

  /** The one step that posts: the message of the second authorization, word for word. */
  lemma PostExactly(w: World, token: Token, delivered: bool)
    requires Reachable(w) && token in w.workers && w.workers[token].pc.Ready?
    ensures var worker := w.workers[token];
            Apply(w, Work(token, PostMessage(delivered)))
            == w.(workers := w.workers[token := worker.(pc := Posted(worker.pc.channel, delivered))],
                  log := w.log.(posts := w.log.posts
                    + [Post(token, worker.row, worker.answers, worker.pc.version, worker.pc.text, delivered)]))
  {
    ReachableLogged(w);
    assert WorkerOk(w.log, w.rows, w.workers[token]);
    assert w.rows[w.workers[token].row := w.rows[w.workers[token].row]] == w.rows;
  }

  /** Only an answer with a message id counts as sent; no answer but a refusal is certain. */
  lemma ReplyExactly(w: World, token: Token, reply: Reply)
    requires Reachable(w) && token in w.workers && w.workers[token].pc.Posted?
    requires (reply.Accepted? ==> w.workers[token].pc.delivered) && (reply.Refused? ==> !w.workers[token].pc.delivered)
    ensures var worker := w.workers[token];
            Apply(w, Work(token, PostReply(reply)))
            == w.(workers := w.workers[token := worker.(
                    pc := if reply.Accepted? && reply.ts != "" then Storing(worker.pc.channel, reply.ts)
                          else Failing(!reply.Refused?))])
  {
    ReachableLogged(w);
    assert WorkerOk(w.log, w.rows, w.workers[token]);
    assert w.rows[w.workers[token].row := w.rows[w.workers[token].row]] == w.rows;
  }

  /** A failure settles the row only under the worker's lease: an uncertain one as uncertain, a
      certain one as failed, or as cancelled when the row was invalidated meanwhile. */
  lemma FailureExactly(w: World, token: Token)
    requires Reachable(w) && token in w.workers && w.workers[token].pc.Failing?
    ensures var v := Apply(w, Work(token, RecordFailure));
            OwnStep(w, v, token) && v.log == w.log && v.workers[token].pc == Done
            && var k := w.workers[token].row;
               var n := w.rows[k];
               v.rows[k] == if n.leaseToken != Some(token) then n
                            else n.(state := if w.workers[token].pc.uncertain then Uncertain
                                             else if n.state == Queued then Failed else Cancelled,
                                    leaseToken := None, leaseExpires := None)
  {
    ReachableLogged(w);
    assert WorkerOk(w.log, w.rows, w.workers[token]) && RowOk(w.rows[w.workers[token].row]);
  }

  /** A result is stored only under the worker's lease: as sent, or as uncertain when the row
      was invalidated meanwhile, with the conversation and the message id either way. */
  lemma ResultExactly(w: World, token: Token)
    requires Reachable(w) && token in w.workers && w.workers[token].pc.Storing?
    ensures var v := Apply(w, Work(token, RecordResult));
            OwnStep(w, v, token) && v.log == w.log && v.workers[token].pc == Done
            && var k, pc := w.workers[token].row, w.workers[token].pc;
               var n := w.rows[k];
               v.rows[k] == if n.leaseToken != Some(token) then n
                            else n.(state := if n.state == Queued then Sent else Uncertain,
                                    sentAt := if n.state == Queued then Some(w.now) else n.sentAt,
                                    conversation := pc.channel, remoteMessage := pc.ts, leaseToken := None, leaseExpires := None)
  {
    ReachableLogged(w);
    assert WorkerOk(w.log, w.rows, w.workers[token]) && RowOk(w.rows[w.workers[token].row]);
  }

  /** What the sweep lists as claimable is exactly what a claim then takes. */
  lemma ClaimableExactly(n: Row, token: Token, now: Time)
    ensures Claimable(n, now) <==> ClaimRow(n, token, now).1
    ensures Claimable(n, now) <==> n.state == Queued && n.leaseToken.None? && !(n.dueAt.Some? && now < n.dueAt.value)
  {
  }

  // ----- the fenced writes on any row at all

  /** Without the lease nothing is written; with it the outcome depends on the state and the mark
      alone, also in states that no reachable row has under a lease. */
  lemma FencedWritesExactly(n: Row, token: Token, uncertain: bool, dm: string, ts: string, now: Time)
    ensures var free := n.(leaseToken := None, leaseExpires := None);
            var marked := n.state == Uncertain && n.invalidated.Some?;
            && FailRow(n, token, uncertain)
               == (if n.leaseToken != Some(token) then n
                   else if n.state == Queued then free.(state := if uncertain then Uncertain else Failed)
                   else if marked then free.(state := if uncertain then Uncertain else Cancelled)
                   else if n.state == Cancelled then free.(state := if uncertain && n.invalidated.Some? then Uncertain else Cancelled)
                   else n)
            && SaveConversationRow(n, token, dm)
               == (if n.leaseToken != Some(token) then (n, false)
                   else if n.state == Queued then (n.(conversation := dm), true)
                   else if marked then (free.(state := Cancelled, conversation := dm), false)
                   else if n.state == Cancelled then (free, false)
                   else (n, false))
            && PostResultRow(n, token, dm, ts, now)
               == (if n.leaseToken != Some(token) then n
                   else if n.state == Queued then free.(state := Sent, sentAt := Some(now), conversation := dm, remoteMessage := ts)
                   else if marked || (n.state == Cancelled && n.invalidated.Some?)
                   then free.(state := Uncertain, conversation := dm, remoteMessage := ts)
                   else n)
  {
  }

  /** Whatever the reason, a row is stale exactly when it is marked, no longer to be sent, or not
      fresh. */
  lemma StaleExactly(d: Desk, n: Row, active: bool)
    ensures StaleReason(d, n, active).None?
            <==> n.invalidated.None? && (n.state == State.Draft || n.state == Queued) && Freshness(d, n, active).None?
  {
  }
}
