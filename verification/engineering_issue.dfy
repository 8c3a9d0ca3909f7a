/** The issue row and the reconciliation run as the source holds them: objects that locked
    transactions change in place. */
module EngineeringIssues {
  import opened Common
  import opened IssueSync
  import opened Retries

  class EngineeringIssue {
    var active: bool
    var access: Access
    var requested: nat
    var completed: nat
    var lease: Option<Token>
    var leaseExpires: Option<Time>
    var retryAt: Option<Time>
    var attempts: nat
    var lastSuccess: Option<Time>

    function Value(): Row
      reads this
    {
      Row(active, access, requested, completed, lease, leaseExpires, retryAt, attempts, lastSuccess)
    }

    constructor (r: Row)
      ensures Value() == r
    {
      active, access, requested, completed := r.active, r.access, r.requested, r.completed;
      lease, leaseExpires, retryAt := r.lease, r.leaseExpires, r.retryAt;
      attempts, lastSuccess := r.attempts, r.lastSuccess;
    }

    method Refresh()
      modifies this`requested
      ensures Value() == RefreshRow(old(Value()))
    {
      if requested <= completed && lease.None? {
        requested := requested + 1;
      }
    }

    /** A run asks for an active issue unless a generation is pending already. */
    method Ask()
      modifies this`requested
      ensures Value() == AskedRow(old(Value()))
    {
      if active && requested <= completed {
        requested := requested + 1;
      }
    }

    method SettleUnsynced(to: Access)
      modifies this
      ensures Value() == SettleRow(old(Value()), to)
    {
      access := to;
      completed := requested;
      lease := None;
      leaseExpires := None;
    }

    /** The first transaction of sync_issue; a claim returns the generation to complete. */
    method Begin(token: Token, now: Time, event: bool, unusable: Option<Lost>) returns (target: Option<nat>)
      modifies this
      ensures (Value(), target.Some?) == BeginRow(old(Value()), token, now, event, unusable)
      ensures target.Some? ==> target.value == requested
    {
      if event {
        requested := requested + 1;
      }
      if retryAt.Some? && retryAt.value > now {
        return None;
      }
      if lease.Some? && leaseExpires.Some? && leaseExpires.value > now {
        return None;
      }
      if unusable.Some? {
        SettleUnsynced(unusable.value);
        return None;
      }
      lease := Some(token);
      leaseExpires := Some(now + LEASE_TTL);
      attempts := attempts + 1;
      return Some(requested);
    }

    method FinishFailure(token: Token, inaccessible: bool, started: Time, again: Again)
      modifies this
      ensures Value() == FailRow(old(Value()), token, inaccessible, RetryAt(old(Value()), started, again))
    {
      if lease != Some(token) {
        return;
      }
      if inaccessible {
        access := Inaccessible;
      }
      retryAt := if again.Never? then None else Some(Delay(attempts, again.retryAfter, started, again.jitter));
      lease := None;
      leaseExpires := None;
    }

    /** The last transaction of sync_issue. */
    method Finish(token: Token, target: nat, started: Time, outcome: Outcome, rebound: bool)
      modifies this
      ensures Value() == FinishRow(old(Value()), token, target, started, outcome, rebound)
    {
      if lease != Some(token) {
        return;
      }
      if rebound {
        SettleUnsynced(Inaccessible);
        return;
      }
      access := if outcome.Gone? then Inaccessible else Accessible;
      if outcome.Gone? && outcome.deleted {
        access := Deleted;
      }
      if outcome.Seen? {
        lastSuccess := Some(started);
        attempts := 0;
        retryAt := None;
      }
      completed := target;
      lease := None;
      leaseExpires := None;
    }
  }

  function AskedRow(r: Row): Row {
    if r.active && !Pending(r) then RequestRow(r) else r
  }

  predicate Distinct(issues: seq<EngineeringIssue>) {
    forall i, j :: 0 <= i < j < |issues| ==> issues[i] != issues[j]
  }

  /** The run of one connection: its targets are numbered like the connection's issues. */
  class Reconciliation {
    var startedAt: Time
    var revision: nat
    var targets: map<nat, Target>
    var lastReconciled: Option<Time>

    constructor ()
      ensures targets == map[] && lastReconciled.None?
    {
      startedAt, revision, targets, lastReconciled := 0, 0, map[], None;
    }

    /** The body of reconcile_github_issues for one connection. */
    method Start(issues: seq<EngineeringIssue>, now: Time, bindingRevision: nat)
      requires Distinct(issues) && forall i :: 0 <= i < |issues| ==> issues[i].completed <= issues[i].requested
      modifies this, issues
      ensures startedAt == now && revision == bindingRevision
      ensures forall i :: 0 <= i < |issues| ==> issues[i].Value() == AskedRow(old(issues[i].Value()))
      ensures forall i :: i in targets <==> 0 <= i < |issues| && issues[i].active
      ensures forall i :: i in targets ==> targets[i] == Target(issues[i].requested, false) && Pending(issues[i].Value())
      ensures lastReconciled == if targets == map[] then Some(now) else old(lastReconciled)
    {
      startedAt := now;
      revision := bindingRevision;
      targets := map[];
      var i := 0;
      while i < |issues|
        invariant i <= |issues| && startedAt == now && revision == bindingRevision && lastReconciled == old(lastReconciled)
        invariant forall j :: 0 <= j < i ==> issues[j].Value() == AskedRow(old(issues[j].Value()))
        invariant forall j :: i <= j < |issues| ==> issues[j].Value() == old(issues[j].Value())
        invariant forall j :: j in targets <==> 0 <= j < i && issues[j].active
        invariant forall j :: j in targets ==> targets[j] == Target(issues[j].requested, false)
      {
        var issue := issues[i];
        issue.Ask();
        if issue.active {
          targets := targets[i := Target(issue.requested, false)];
        }
        i := i + 1;
      }
      if targets == map[] {
        lastReconciled := Some(startedAt);
      }
    }

    /** _complete_reconciliation_target: the issue's target is marked if its generation is
        completed, and the connection is reconciled when no active target is left. */
    method CompleteTarget(issues: seq<EngineeringIssue>, k: nat, bindingRevision: nat, now: Time)
      requires k < |issues| && forall i :: i in targets ==> i < |issues|
      modifies this`targets, this`lastReconciled
      ensures var issue := issues[k];
              var ready := && revision == bindingRevision && issue.access == Accessible
                           && issue.lastSuccess.Some? && issue.lastSuccess.value >= startedAt;
              && targets == (if ready then Marked(Run(startedAt, revision, old(targets)), k, issue.completed).targets
                             else old(targets))
              && lastReconciled == (if ready && forall i :: i in targets && issues[i].active ==> targets[i].done then Some(now)
                                    else old(lastReconciled))
    {
      var issue := issues[k];
      if revision != bindingRevision || issue.access != Accessible
         || issue.lastSuccess.None? || issue.lastSuccess.value < startedAt
      {
        return;
      }
      if k in targets && targets[k].generation <= issue.completed {
        targets := targets[k := targets[k].(done := true)];
      }
      var left := targets.Keys;
      while left != {}
        invariant left <= targets.Keys
        invariant forall i :: i in targets && i !in left && issues[i].active ==> targets[i].done
        decreases left
      {
        var i :| i in left;
        if !targets[i].done && issues[i].active {
          return;
        }
        left := left - {i};
      }
      lastReconciled := Some(now);
    }
  }
}
