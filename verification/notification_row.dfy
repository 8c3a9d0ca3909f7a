/** The notification row as the source holds it: an object whose fields a locked transaction
    updates in place. Every method is proved against the row function of the same transaction. */
module NotificationRows {
  import opened Common
  import opened Notifications
  import opened DeliveryWorld

  class NotificationRow {
    const report: Id
    const problem: Id
    const followUp: Key
    const recipient: Id
    const revision: nat
    const reportVersion: nat
    var message: string
    var draftVersion: nat
    var state: State
    var attempts: nat
    var dueAt: Option<Time>
    var leaseToken: Option<Token>
    var leaseExpires: Option<Time>
    var conversation: string
    var remoteMessage: string
    var sentAt: Option<Time>
    var confirmedAt: Option<Time>
    var invalidated: Option<Invalidation>

    function Value(): Row
      reads this
    {
      Row(report, problem, followUp, recipient, revision, reportVersion, message, draftVersion, state,
          attempts, dueAt, leaseToken, leaseExpires, conversation, remoteMessage, sentAt, confirmedAt, invalidated)
    }

    constructor (n: Row)
      ensures Value() == n
    {
      report, problem, followUp, recipient := n.report, n.problem, n.followUp, n.recipient;
      revision, reportVersion := n.revision, n.reportVersion;
      message, draftVersion, state, attempts := n.message, n.draftVersion, n.state, n.attempts;
      dueAt, leaseToken, leaseExpires := n.dueAt, n.leaseToken, n.leaseExpires;
      conversation, remoteMessage := n.conversation, n.remoteMessage;
      sentAt, confirmedAt, invalidated := n.sentAt, n.confirmedAt, n.invalidated;
    }

    method Release()
      modifies this`leaseToken, this`leaseExpires
      ensures Value() == Released(old(Value()))
    {
      leaseToken := None;
      leaseExpires := None;
    }

    // ----- worker transactions

    method Claim(token: Token, now: Time) returns (claimed: bool)
      modifies this
      ensures (Value(), claimed) == ClaimRow(old(Value()), token, now)
    {
      if state != Queued {
        return false;
      }
      if dueAt.Some? && dueAt.value > now {
        return false;
      }
      if leaseToken.Some? {
        if leaseExpires.Some? && leaseExpires.value > now {
          return false;
        }
        state := Uncertain;
        Release();
        return false;
      }
      attempts := attempts + 1;
      leaseToken := Some(token);
      leaseExpires := Some(now + LEASE_TTL);
      return true;
    }

    method CancelStale(now: Time)
      modifies this
      ensures Value() == CancelStaleRow(old(Value()), now)
    {
      state := Cancelled;
      invalidated := Some(Invalidation(now, Stale));
      Release();
    }

    method MarkFailure(token: Token, uncertain: bool)
      modifies this
      ensures Value() == FailRow(old(Value()), token, uncertain)
    {
      var ownsLease := leaseToken == Some(token);
      if state == Queued && ownsLease {
        state := if uncertain then Uncertain else Failed;
      } else if state == Uncertain && ownsLease && invalidated.Some? {
        state := if uncertain then Uncertain else Cancelled;
      } else if state == Cancelled && ownsLease && uncertain && invalidated.Some? {
        state := Uncertain;
      } else if state == Cancelled && ownsLease {
        Release();
        return;
      } else {
        return;
      }
      Release();
    }

    method SaveConversation(token: Token, dm: string) returns (kept: bool)
      modifies this
      ensures (Value(), kept) == SaveConversationRow(old(Value()), token, dm)
    {
      if state == Uncertain && leaseToken == Some(token) && invalidated.Some? {
        state := Cancelled;
        conversation := dm;
        Release();
        return false;
      }
      if state == Cancelled && leaseToken == Some(token) {
        Release();
        return false;
      }
      if state != Queued || leaseToken != Some(token) {
        return false;
      }
      conversation := dm;
      return true;
    }

    method PostResult(token: Token, dm: string, ts: string, now: Time)
      modifies this
      ensures Value() == PostResultRow(old(Value()), token, dm, ts, now)
    {
      if state == Queued && leaseToken == Some(token) {
        state := Sent;
        sentAt := Some(now);
        conversation := dm;
        remoteMessage := ts;
        Release();
      } else if state in {Cancelled, Uncertain} && leaseToken == Some(token) && invalidated.Some? {
        state := Uncertain;
        conversation := dm;
        remoteMessage := ts;
        Release();
      }
    }

    method Expire(now: Time)
      modifies this
      ensures Value() == ExpireRow(old(Value()), now)
    {
      if state in {Queued, Uncertain} && leaseExpires.Some? && leaseExpires.value <= now {
        state := Uncertain;
        Release();
      }
    }

    // ----- member transactions, refused unless the row and the version allow them

    method Edit(version: nat, text: string) returns (done: bool)
      modifies this`message, this`draftVersion
      ensures done <==> old(Editable(Value(), version)) && text != ""
      ensures Value() == if done then EditRow(old(Value()), text) else old(Value())
    {
      if state !in EDITS || draftVersion != version || text == "" {
        return false;
      }
      message := text;
      draftVersion := draftVersion + 1;
      return true;
    }

    /** `ready` says that the recipient is active and the Slack checks found nothing. */
    method Approve(version: nat, d: Desk, ready: bool, now: Time) returns (done: bool)
      modifies this
      ensures done <==> old(Editable(Value(), version)) && old(invalidated).None? && Freshness(d, old(Value()), ready).None?
      ensures Value() == if done then ApproveRow(old(Value()), now) else old(Value())
    {
      if state !in EDITS || draftVersion != version || invalidated.Some? || Freshness(d, Value(), ready).Some? {
        return false;
      }
      state := Queued;
      dueAt := Some(now);
      attempts := 0;
      Release();
      return true;
    }

    method MarkDelivered(version: nat, now: Time) returns (done: bool)
      modifies this
      ensures done <==> old(Resolvable(Value(), version))
      ensures Value() == if done then MarkDeliveredRow(old(Value()), now) else old(Value())
    {
      if draftVersion != version || leaseToken.Some? || state != Uncertain {
        return false;
      }
      state := Sent;
      sentAt := Some(now);
      confirmedAt := Some(now);
      Release();
      return true;
    }

    method SendAgain(version: nat, d: Desk, ready: bool, now: Time) returns (done: bool)
      modifies this
      ensures done <==> && old(Resolvable(Value(), version)) && old(invalidated).None? && Freshness(d, old(Value()), ready).None?
                        && followUp in d.followUps && d.followUps[followUp].recipient == recipient
      ensures Value() == if done then SendAgainRow(old(Value()), now) else old(Value())
    {
      if state != Uncertain || draftVersion != version || leaseToken.Some? || invalidated.Some?
         || Freshness(d, Value(), ready).Some? || followUp !in d.followUps || d.followUps[followUp].recipient != recipient
      {
        return false;
      }
      state := Queued;
      dueAt := Some(now);
      Release();
      return true;
    }

    method Cancel(version: nat, now: Time) returns (done: bool)
      modifies this
      ensures done <==> old(Resolvable(Value(), version))
      ensures Value() == if done then CancelRow(old(Value()), now) else old(Value())
    {
      if draftVersion != version || leaseToken.Some? || state != Uncertain {
        return false;
      }
      state := Cancelled;
      invalidated := Some(Invalidation(now, MemberCancelled));
      Release();
      return true;
    }
  }

  predicate Distinct(rows: seq<NotificationRow>) {
    forall i, j :: 0 <= i < j < |rows| ==> rows[i] != rows[j]
  }

  /** The values of the rows, in order. */
  function Values(rows: seq<NotificationRow>): (s: seq<Row>)
    reads set n | n in rows
    ensures |s| == |rows| && forall i :: 0 <= i < |rows| ==> s[i] == rows[i].Value()
  {
    if rows == [] then [] else Values(rows[..|rows| - 1]) + [rows[|rows| - 1].Value()]
  }

  function Marked(n: Row, to: Option<State>, mark: Invalidation): Row {
    n.(state := if to.Some? then to.value else n.state, invalidated := Some(mark))
  }

  predicate UpdatedAll(was: seq<Row>, now: seq<Row>, group: set<nat>, to: Option<State>, mark: Invalidation) {
    && |now| == |was|
    && forall i :: 0 <= i < |was| ==> now[i] == if i in group then Marked(was[i], to, mark) else was[i]
  }

  /** A bulk update of the rows in `group`; the others are left alone. */
  method UpdateAll(rows: seq<NotificationRow>, group: set<nat>, to: Option<State>, mark: Invalidation)
    requires Distinct(rows)
    modifies set n | n in rows
    ensures UpdatedAll(old(Values(rows)), Values(rows), group, to, mark)
  {
    for k := 0 to |rows|
      invariant forall i :: 0 <= i < k ==>
        rows[i].Value() == if i in group then Marked(old(rows[i].Value()), to, mark) else old(rows[i].Value())
      invariant forall i :: k <= i < |rows| ==> rows[i].Value() == old(rows[i].Value())
    {
      if k in group {
        if to.Some? {
          rows[k].state := to.value;
        }
        rows[k].invalidated := Some(mark);
      }
    }
  }

  predicate Inflight(n: Row) {
    n.state == Queued && n.leaseToken.Some?
  }

  predicate Settles(n: Row) {
    n.state in PENDING && !Inflight(n)
  }

  predicate Flags(n: Row) {
    n.state == Uncertain && n.invalidated.None?
  }

  function AllSettling(s: seq<Row>): set<nat> {
    set i | 0 <= i < |s| && Settles(s[i])
  }

  function AllInflight(s: seq<Row>): set<nat> {
    set i | 0 <= i < |s| && Inflight(s[i])
  }

  function AllFlagged(s: seq<Row>): set<nat> {
    set i | 0 <= i < |s| && Flags(s[i])
  }

  function Changed(was: seq<Row>, now: seq<Row>): set<nat>
    requires |was| == |now|
  {
    set i | 0 <= i < |was| && now[i] != was[i]
  }

  function MarkedIf(group: bool, n: Row, to: Option<State>, mark: Invalidation): Row {
    if group then Marked(n, to, mark) else n
  }

  lemma GroupsOfOneRow(n: Row, reason: Reason, now: Time)
    requires RowOk(n)
    ensures var mark := Invalidation(now, reason);
            var m1 := MarkedIf(Settles(n), n, Some(Cancelled), mark);
            var m2 := MarkedIf(Inflight(n), m1, Some(Uncertain), mark);
            var m3 := MarkedIf(Flags(n), m2, None, mark);
            m3 == InvalidateRow(n, reason, now) && (m3 != n <==> Settles(n) || Inflight(n) || Flags(n))
    ensures !(Settles(n) && Inflight(n)) && !(Settles(n) && Flags(n)) && !(Inflight(n) && Flags(n))
  {
  }

  lemma DisjointSizes(a: set<nat>, b: set<nat>, c: set<nat>, all: set<nat>)
    requires a !! b && c !! (a + b) && all == a + b + c
    ensures |all| == |a| + |b| + |c|
  {
    assert |a + b| == |a| + |b|;
  }

  lemma GroupsAt(s0: seq<Row>, s1: seq<Row>, s2: seq<Row>, s3: seq<Row>, reason: Reason, now: Time, i: nat)
    requires i < |s0| && RowOk(s0[i])
    requires UpdatedAll(s0, s1, AllSettling(s0), Some(Cancelled), Invalidation(now, reason))
    requires UpdatedAll(s1, s2, AllInflight(s0), Some(Uncertain), Invalidation(now, reason))
    requires UpdatedAll(s2, s3, AllFlagged(s0), None, Invalidation(now, reason))
    ensures |s3| == |s0| && s3[i] == InvalidateRow(s0[i], reason, now)
    ensures s3[i] != s0[i] <==> Settles(s0[i]) || Inflight(s0[i]) || Flags(s0[i])
  {
    var mark := Invalidation(now, reason);
    assert s1[i] == MarkedIf(Settles(s0[i]), s0[i], Some(Cancelled), mark);
    assert s2[i] == MarkedIf(Inflight(s0[i]), s1[i], Some(Uncertain), mark);
    assert s3[i] == MarkedIf(Flags(s0[i]), s2[i], None, mark);
    GroupsOfOneRow(s0[i], reason, now);
  }

  lemma GroupsCount(s0: seq<Row>, s3: seq<Row>)
    requires |s3| == |s0|
    requires forall i :: 0 <= i < |s0| ==>
               (s3[i] != s0[i] <==> Settles(s0[i]) || Inflight(s0[i]) || Flags(s0[i]))
    ensures |AllSettling(s0)| + |AllInflight(s0)| + |AllFlagged(s0)| == |Changed(s0, s3)|
  {
    var a, b, c := AllSettling(s0), AllInflight(s0), AllFlagged(s0);
    assert forall i :: i in Changed(s0, s3) <==> i in a + b + c;
    DisjointSizes(a, b, c, Changed(s0, s3));
  }

  /** invalidate_pending_notifications: the three groups are read first, then updated in bulk.
      Each row ends as `InvalidateRow` says, and the count is the number of rows changed. */
  method InvalidatePending(rows: seq<NotificationRow>, reason: Reason, now: Time) returns (changed: nat)
    requires Distinct(rows) && forall i :: 0 <= i < |rows| ==> RowOk(rows[i].Value())
    modifies set n | n in rows
    ensures forall i :: 0 <= i < |rows| ==> rows[i].Value() == InvalidateRow(old(rows[i].Value()), reason, now)
    ensures changed == |Changed(old(Values(rows)), Values(rows))|
  {
    var s0 := Values(rows);
    var pending, inflight, uncertain := AllSettling(s0), AllInflight(s0), AllFlagged(s0);
    var mark := Invalidation(now, reason);
    UpdateAll(rows, pending, Some(Cancelled), mark);
    ghost var s1 := Values(rows);
    UpdateAll(rows, inflight, Some(Uncertain), mark);
    ghost var s2 := Values(rows);
    UpdateAll(rows, uncertain, None, mark);
    ghost var s3 := Values(rows);
    forall i | 0 <= i < |s0|
      ensures s3[i] == InvalidateRow(s0[i], reason, now)
      ensures s3[i] != s0[i] <==> Settles(s0[i]) || Inflight(s0[i]) || Flags(s0[i])
    {
      GroupsAt(s0, s1, s2, s3, reason, now, i);
    }
    GroupsCount(s0, s3);
    changed := |pending| + |inflight| + |uncertain|;
  }

  /** The second half of sweep: every row whose lease has run out becomes uncertain, and the
      first half's list holds exactly the rows it found claimable. */
  method Sweep(rows: seq<NotificationRow>, now: Time) returns (due: seq<nat>)
    requires Distinct(rows)
    modifies set n | n in rows
    ensures forall i :: 0 <= i < |rows| ==> rows[i].Value() == ExpireRow(old(rows[i].Value()), now)
    ensures forall i :: i in due <==>
              0 <= i < |rows| && old(rows[i].dueAt.Some? && Claimable(rows[i].Value(), now))
  {
    due := [];
    for k := 0 to |rows|
      invariant forall i :: i in due <==> 0 <= i < k && rows[i].dueAt.Some? && Claimable(rows[i].Value(), now)
    {
      if rows[k].state == Queued && rows[k].dueAt.Some? && rows[k].dueAt.value <= now && rows[k].leaseToken.None? {
        due := due + [k];
      }
    }
    for k := 0 to |rows|
      invariant forall i :: 0 <= i < k ==> rows[i].Value() == ExpireRow(old(rows[i].Value()), now)
      invariant forall i :: k <= i < |rows| ==> rows[i].Value() == old(rows[i].Value())
    {
      rows[k].Expire(now);
    }
  }
}
