/** The operation row as the source holds it: an object whose fields locked transactions and
    fenced updates change in place, each proved against the row function of the same step. */
module ExternalOperations {
  import opened Common
  import opened IssueMarkers
  import opened IssueCreations
  import opened Retries

  class ExternalOperation {
    const problem: Id
    var body: string
    var problemVersion: nat
    var bindingRevision: nat
    var repository: Id
    var draftVersion: nat
    var expiresAt: Time
    var state: State
    var attempts: nat
    var dueAt: Time
    var lease: Option<Token>
    var leaseExpires: Option<Time>
    var remote: Option<Id>
    var recoveryRequested: bool
    var recoveryReference: string
    var recoveryAttempts: nat

    function Value(): Operation
      reads this
    {
      Operation(problem, body, problemVersion, bindingRevision, repository, draftVersion, expiresAt, state, attempts, dueAt,
                lease, leaseExpires, remote, recoveryRequested, recoveryReference, recoveryAttempts)
    }

    constructor (o: Operation)
      ensures Value() == o
    {
      problem, body, problemVersion, bindingRevision := o.problem, o.body, o.problemVersion, o.bindingRevision;
      repository, draftVersion, expiresAt, state := o.repository, o.draftVersion, o.expiresAt, o.state;
      attempts, dueAt, lease, leaseExpires := o.attempts, o.dueAt, o.lease, o.leaseExpires;
      remote, recoveryRequested := o.remote, o.recoveryRequested;
      recoveryReference, recoveryAttempts := o.recoveryReference, o.recoveryAttempts;
    }

    method Release()
      modifies this`lease, this`leaseExpires
      ensures Value() == Released(old(Value()))
    {
      lease := None;
      leaseExpires := None;
    }

    // ----- members

    method Redraft(text: string, version: nat, revision: nat, repo: Id, now: Time) returns (found: bool)
      requires AcceptedBody(text)
      modifies this
      ensures Value() == RedraftOp(old(Value()), text, version, revision, repo, now)
      ensures found <==> old(state) == State.Draft && old(expiresAt) > now
    {
      if state != State.Draft || expiresAt <= now {
        return false;
      }
      body := text;
      draftVersion := draftVersion + 1;
      problemVersion := version;
      repository := repo;
      bindingRevision := revision;
      expiresAt := now + DRAFT_TTL;
      return true;
    }

    method Approve(now: Time) returns (expired: bool)
      modifies this
      ensures Value() == ApproveOp(old(Value()), now)
      ensures expired <==> old(state) == State.Draft && old(expiresAt) <= now
    {
      expired := false;
      if state == State.Draft {
        if expiresAt <= now {
          state := Cancelled;
          expired := true;
        } else {
          state := Queued;
          dueAt := now;
        }
      }
    }

    method RequestRecovery(reference: string, now: Time)
      modifies this
      ensures Value() == RequestRecoveryOp(old(Value()), reference, now)
    {
      if state != Uncertain {
        return;
      }
      if recoveryRequested || lease.Some? {
        return;
      }
      recoveryReference := reference;
      recoveryRequested := true;
      dueAt := Max(now, dueAt);
    }

    method Abandon()
      modifies this
      ensures Value() == AbandonOp(old(Value()))
    {
      if state == Uncertain {
        state := Cancelled;
        recoveryRequested := false;
        recoveryReference := "";
        Release();
      }
    }

    // ----- the creating worker

    method Claim(token: Token, now: Time) returns (claimed: bool)
      modifies this
      ensures Value() == ClaimOp(old(Value()), token, now)
      ensures claimed <==> Claimable(old(Value()), now)
    {
      if state != Queued {
        return false;
      }
      if dueAt > now {
        return false;
      }
      state := Running;
      attempts := attempts + 1;
      lease := Some(token);
      leaseExpires := Some(now + LEASE_TTL);
      return true;
    }

    method Verify(token: Token, stale: bool) returns (pc: Pc)
      modifies this
      ensures (Value(), pc) == VerifyOp(old(Value()), token, stale)
    {
      if lease != Some(token) || state != Running {
        return Done;
      }
      if stale {
        state := Cancelled;
        Release();
        return Done;
      }
      return Verified;
    }

    method Mark(token: Token, to: State)
      modifies this
      ensures Value() == MarkOp(old(Value()), token, to)
    {
      if state == Running && lease == Some(token) {
        state := to;
        Release();
      }
    }

    method RequeueRateLimited(token: Token, attempt: nat, retryAfter: Option<int>, now: Time, jitter: nat)
      modifies this
      ensures Value() == RequeueOp(old(Value()), token, attempt, retryAfter, now, jitter)
    {
      if attempt >= MAX_ATTEMPTS {
        Mark(token, Failed);
        return;
      }
      if state == Running && lease == Some(token) {
        state := Queued;
        dueAt := Delay(attempt, retryAfter, now, jitter);
        Release();
      }
    }

    method Settle(token: Token, attempt: nat, fate: Fate, now: Time, jitter: nat)
      modifies this
      ensures Value() == SettleOp(old(Value()), token, attempt, fate, now, jitter)
    {
      match fate {
        case RateLimited(retryAfter) => RequeueRateLimited(token, attempt, retryAfter, now, jitter);
        case InstallationRefused => Mark(token, Cancelled);
        case Definite => Mark(token, Failed);
        case Unknown => Mark(token, Uncertain);
      }
    }

    method LinkCreated(token: Token, issue: Id, linking: Linking) returns (pc: Pc)
      modifies this
      ensures (Value(), pc) == LinkOp(old(Value()), token, issue, linking)
    {
      if linking == Broken {
        return Settling(Unknown);
      }
      if lease != Some(token) || state != Running {
        return Done;
      }
      remote := Some(issue);
      state := if linking == Rebound then Uncertain else Succeeded;
      Release();
      return Done;
    }

    // ----- the sweep and recovery

    method Expire(now: Time)
      modifies this
      ensures Value() == ExpireOp(old(Value()), now)
    {
      if state == Running && leaseExpires.Some? && leaseExpires.value <= now {
        state := Uncertain;
        Release();
      }
    }

    method ClaimSearch(token: Token, now: Time) returns (claimed: bool)
      modifies this
      ensures Value() == ClaimSearchOp(old(Value()), token, now)
      ensures claimed <==> SearchOpen(old(Value()), now)
    {
      if state != Uncertain || dueAt > now {
        return false;
      }
      if leaseExpires.Some? && leaseExpires.value > now {
        return false;
      }
      recoveryAttempts := recoveryAttempts + 1;
      lease := Some(token);
      leaseExpires := Some(now + LEASE_TTL);
      return true;
    }

    method FinishRecovery(token: Token, tries: nat, retryAfter: Option<int>, now: Time, jitter: nat)
      modifies this
      ensures Value() == GiveUpOp(old(Value()), token, tries, retryAfter, now, jitter)
    {
      if state == Uncertain && lease == Some(token) {
        recoveryRequested := false;
        recoveryReference := "";
        dueAt := Delay(tries, retryAfter, now, jitter);
        Release();
      }
    }

    method LinkRecovered(token: Token, issue: Id, linking: Linking)
      modifies this
      ensures Value() == ConcludeOp(old(Value()), token, issue, linking)
    {
      if state != Uncertain || lease != Some(token) || linking == Broken {
        return;
      }
      recoveryRequested := false;
      recoveryReference := "";
      Release();
      remote := Some(issue);
      if linking != Rebound {
        state := Succeeded;
      }
    }
  }

  predicate Distinct(rows: seq<ExternalOperation>) {
    forall i, j :: 0 <= i < j < |rows| ==> rows[i] != rows[j]
  }

  /** dispatch_due_operations ends by expiring every running lease that is due. */
  method ExpireLeases(rows: seq<ExternalOperation>, now: Time)
    requires Distinct(rows)
    modifies rows
    ensures forall i :: 0 <= i < |rows| ==> rows[i].Value() == ExpireOp(old(rows[i].Value()), now)
  {
    var i := 0;
    while i < |rows|
      invariant i <= |rows|
      invariant forall j :: 0 <= j < i ==> rows[j].Value() == ExpireOp(old(rows[j].Value()), now)
      invariant forall j :: i <= j < |rows| ==> rows[j].Value() == old(rows[j].Value())
    {
      rows[i].Expire(now);
      i := i + 1;
    }
  }
}
