/** One prepared employee notification (ReportNotificationOperation) as a value, and what
    each locked transaction does to it. Times are seconds on one clock that never runs back. */
module Notifications {
  import opened Common

  datatype State = Draft | Queued | Failed | Uncertain | Sent | Cancelled

  datatype Reason =
    | Disconnected | Reassigned | Moved | Unlinked
    | IssueReopened | IssueRelinked | Stale | MemberCancelled

  datatype Invalidation = Invalidation(at: Time, reason: Reason)

  /** A follow-up is identified by what the database keeps unique. */
  datatype Key = Key(report: Id, problem: Id, revision: nat)

  datatype Row = Row(
    report: Id,
    problem: Id,
    followUp: Key,
    recipient: Id,
    revision: nat,
    reportVersion: nat,
    message: string,
    draftVersion: nat,
    state: State,
    attempts: nat,
    dueAt: Option<Time>,
    leaseToken: Option<Token>,
    leaseExpires: Option<Time>,
    conversation: string,
    remoteMessage: string,
    sentAt: Option<Time>,
    confirmedAt: Option<Time>,
    invalidated: Option<Invalidation>)

  const LEASE_TTL: Time := 60
  const PENDING: set<State> := {Draft, Queued, Failed}
  const EDITS: set<State> := {Draft, Failed}
  const SENDABLE: set<State> := {Draft, Queued}

  // ----- what the database constraints and the worker protocol promise of one row

  /** The three check constraints of the table. */
  predicate Constrained(n: Row) {
    && (n.state == Sent <==> n.sentAt.Some?)
    && (n.state == Sent ==> n.remoteMessage != "" || n.confirmedAt.Some?)
    && (n.state == Cancelled ==> n.invalidated.Some?)
    && (n.state in PENDING ==> n.invalidated.None?)
  }

  /** A lease is held only by a queued row, or by an uncertain one that was invalidated
      while its send was in flight. */
  predicate LeaseRule(n: Row) {
    && (n.leaseToken.Some? <==> n.leaseExpires.Some?)
    && (n.leaseToken.Some? ==> n.state == Queued || (n.state == Uncertain && n.invalidated.Some?))
  }

  /** Only a member's word makes an invalidated row count as sent. */
  predicate WorkerSentClean(n: Row) {
    && (n.confirmedAt.Some? ==> n.state == Sent)
    && (n.state == Sent && n.confirmedAt.None? ==> n.invalidated.None?)
  }

  predicate RowOk(n: Row) {
    Constrained(n) && LeaseRule(n) && WorkerSentClean(n)
  }

  predicate Claimable(n: Row, now: Time) {
    n.state == Queued && n.leaseToken.None? && (n.dueAt.Some? ==> n.dueAt.value <= now)
  }

  // ----- worker transactions

  predicate Holds(n: Row, token: Token) {
    n.leaseToken == Some(token)
  }

  function Released(n: Row): Row {
    n.(leaseToken := None, leaseExpires := None)
  }

  function ClaimRow(n: Row, token: Token, now: Time): (Row, bool) {
    if n.state != Queued || (n.dueAt.Some? && n.dueAt.value > now) then (n, false)
    else if n.leaseToken.None? then
      (n.(attempts := n.attempts + 1, leaseToken := Some(token), leaseExpires := Some(now + LEASE_TTL)), true)
    else if n.leaseExpires.Some? && n.leaseExpires.value > now then (n, false)
    else (Released(n).(state := Uncertain), false)
  }

  function CancelStaleRow(n: Row, now: Time): Row {
    Released(n).(state := Cancelled, invalidated := Some(Invalidation(now, Stale)))
  }

  function FailRow(n: Row, token: Token, uncertain: bool): Row {
    if !Holds(n, token) then n
    else match n.state
      case Queued => Released(n).(state := if uncertain then Uncertain else Failed)
      case Uncertain =>
        if n.invalidated.None? then n
        else Released(n).(state := if uncertain then Uncertain else Cancelled)
      case Cancelled =>
        if uncertain && n.invalidated.Some? then Released(n).(state := Uncertain) else Released(n)
      case _ => n
  }

  function SaveConversationRow(n: Row, token: Token, conversation: string): (Row, bool) {
    if !Holds(n, token) then (n, false)
    else match n.state
      case Uncertain =>
        if n.invalidated.None? then (n, false)
        else (Released(n).(state := Cancelled, conversation := conversation), false)
      case Cancelled => (Released(n), false)
      case Queued => (n.(conversation := conversation), true)
      case _ => (n, false)
  }

  function PostResultRow(n: Row, token: Token, conversation: string, messageTs: string, now: Time): Row {
    if !Holds(n, token) then n
    else if n.state == Queued then
      Released(n).(state := Sent, sentAt := Some(now), conversation := conversation, remoteMessage := messageTs)
    else if n.state in {Cancelled, Uncertain} && n.invalidated.Some? then
      Released(n).(state := Uncertain, conversation := conversation, remoteMessage := messageTs)
    else n
  }

  function ExpireRow(n: Row, now: Time): Row {
    if n.state in {Queued, Uncertain} && n.leaseExpires.Some? && n.leaseExpires.value <= now
    then Released(n).(state := Uncertain)
    else n
  }

  // ----- report mutations and member transactions

  function InvalidateRow(n: Row, reason: Reason, now: Time): Row {
    var mark := Some(Invalidation(now, reason));
    if n.state == Queued && n.leaseToken.Some? then n.(state := Uncertain, invalidated := mark)
    else if n.state in PENDING then n.(state := Cancelled, invalidated := mark)
    else if n.state == Uncertain && n.invalidated.None? then n.(invalidated := mark)
    else n
  }

  /** The row that a member edits or approves, at the version they saw. */
  predicate Editable(n: Row, version: nat) {
    n.state in EDITS && n.draftVersion == version
  }

  /** An uncertain row that no worker is still resolving, at the version the member saw. */
  predicate Resolvable(n: Row, version: nat) {
    n.state == Uncertain && n.leaseToken.None? && n.draftVersion == version
  }

  function EditRow(n: Row, message: string): Row {
    n.(message := message, draftVersion := n.draftVersion + 1)
  }

  function ApproveRow(n: Row, now: Time): Row {
    Released(n).(state := Queued, dueAt := Some(now), attempts := 0)
  }

  function MarkDeliveredRow(n: Row, now: Time): Row {
    Released(n).(state := Sent, sentAt := Some(now), confirmedAt := Some(now))
  }

  function SendAgainRow(n: Row, now: Time): Row {
    Released(n).(state := Queued, dueAt := Some(now))
  }

  function CancelRow(n: Row, now: Time): Row {
    Released(n).(state := Cancelled, invalidated := Some(Invalidation(now, MemberCancelled)))
  }

  // ----- facts about single transactions

  /** Every worker transaction keeps the constraints and the lease rule, given that the
      message id Slack returned is not empty. */
  lemma WorkerKeepsRowOk(n: Row, token: Token, now: Time, uncertain: bool, conversation: string, ts: string)
    requires RowOk(n) && ts != ""
    ensures RowOk(ClaimRow(n, token, now).0)
    ensures RowOk(FailRow(n, token, uncertain))
    ensures RowOk(SaveConversationRow(n, token, conversation).0)
    ensures RowOk(PostResultRow(n, token, conversation, ts, now))
    ensures RowOk(ExpireRow(n, now))
    ensures n.state in SENDABLE ==> RowOk(CancelStaleRow(n, now))
  {
  }

  lemma MemberKeepsRowOk(n: Row, reason: Reason, now: Time, message: string)
    requires RowOk(n)
    ensures RowOk(InvalidateRow(n, reason, now))
    ensures n.state in EDITS ==> RowOk(EditRow(n, message)) && RowOk(ApproveRow(n, now))
    ensures n.state == Uncertain && n.leaseToken.None? ==>
              RowOk(MarkDeliveredRow(n, now)) && RowOk(CancelRow(n, now))
    ensures n.state == Uncertain && n.leaseToken.None? && n.invalidated.None? ==> RowOk(SendAgainRow(n, now))
  {
  }

  /** The worker's branches for a cancelled row can never run: such a row holds no lease. */
  lemma CancelledBranchesAreDead(n: Row, token: Token)
    requires RowOk(n) && n.state == Cancelled
    ensures !Holds(n, token)
    ensures forall uncertain :: FailRow(n, token, uncertain) == n
    ensures forall c :: SaveConversationRow(n, token, c) == (n, false)
    ensures forall c, ts, now :: PostResultRow(n, token, c, ts, now) == n
  {
  }

  /** Invalidating leaves nothing pending, touches no sent or cancelled row, and repeating
      it changes nothing. */
  lemma InvalidateSettles(n: Row, reason: Reason, reason': Reason, now: Time, now': Time)
    requires RowOk(n)
    ensures InvalidateRow(n, reason, now).state !in PENDING
    ensures n.state in {Sent, Cancelled} ==> InvalidateRow(n, reason, now) == n
    ensures var m := InvalidateRow(n, reason, now); InvalidateRow(m, reason', now') == m
  {
  }

  /** What no transaction may change about a row: what it was prepared for. */
  predicate SameTarget(a: Row, b: Row) {
    && a.report == b.report
    && a.problem == b.problem
    && a.followUp == b.followUp
    && a.recipient == b.recipient
    && a.revision == b.revision
    && a.reportVersion == b.reportVersion
  }
}
