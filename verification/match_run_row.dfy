/** The match-run row as the source holds it, and the loops that save suggestions, supersede
    active runs and expire abandoned leases. */
module MatchRunRows {
  import opened Common
  import opened Retries
  import opened MatchContract
  import opened MatchRetrieval
  import opened MatchRuns

  /** A saved suggestion and its rank. */
  datatype Saved = Saved(rank: nat, suggestion: Suggestion)

  class MatchRunRow {
    const report: Id
    const reportVersion: nat
    const cap: nat
    var state: State
    var failure: Option<Category>
    var abstainReason: string
    var candidates: Option<Snapshot>
    var attempts: nat
    var dueAt: Time
    var lease: Option<Token>
    var leaseExpires: Option<Time>
    var saved: seq<Saved>

    function Value(): MatchRun
      reads this
    {
      MatchRun(report, reportVersion, cap, state, failure, abstainReason, candidates, attempts, dueAt, lease, leaseExpires,
               Suggestions(saved))
    }

    constructor (r: MatchRun)
      requires r.suggestions == []
      ensures Value() == r && saved == []
    {
      report, reportVersion, cap := r.report, r.reportVersion, r.cap;
      state, failure, abstainReason, candidates := r.state, r.failure, r.abstainReason, r.candidates;
      attempts, dueAt, lease, leaseExpires := r.attempts, r.dueAt, r.lease, r.leaseExpires;
      saved := [];
    }

    method Release()
      modifies this`lease, this`leaseExpires
      ensures Value() == Released(old(Value()))
    {
      lease := None;
      leaseExpires := None;
    }

    method Claim(token: Token, now: Time) returns (claimed: bool)
      modifies this
      ensures Value() == ClaimRun(old(Value()), token, now) && (claimed <==> Claimable(old(Value()), now))
    {
      if state != Pending || dueAt > now {
        return false;
      }
      state := Running;
      attempts := attempts + 1;
      lease := Some(token);
      leaseExpires := Some(now + LEASE);
      return true;
    }

    method RecordSnapshot(token: Token, snapshot: Snapshot) returns (updated: bool)
      modifies this
      ensures Value() == RecordRun(old(Value()), token, snapshot) && (updated <==> Holds(old(Value()), token))
    {
      updated := state == Running && lease == Some(token);
      if updated {
        candidates := Some(snapshot);
      }
    }

    /** The end of _save: suggestion `k` gets rank `k + 1`. */
    method Save(token: Token, answer: Answer) returns (done: bool)
      requires saved == [] && !answer.ErrorAnswer?
      modifies this
      ensures Value() == SaveRun(old(Value()), token, answer) && (done <==> Holds(old(Value()), token))
      ensures forall k :: 0 <= k < |saved| ==> saved[k].rank == k + 1
    {
      if state != Running || lease != Some(token) {
        return false;
      }
      if answer.RankedAnswer? {
        state := Ranked;
        var k := 0;
        while k < |answer.suggestions|
          invariant k <= |answer.suggestions| && |saved| == k
          invariant forall j :: 0 <= j < k ==> saved[j] == Saved(j + 1, answer.suggestions[j])
          invariant Value() == old(Value()).(state := Ranked, suggestions := Suggestions(saved))
        {
          saved := saved + [Saved(k + 1, answer.suggestions[k])];
          k := k + 1;
        }
        assert Suggestions(saved) == answer.suggestions;
      } else {
        state := Abstained;
        abstainReason := answer.reason;
      }
      Release();
      return true;
    }

    method MarkStale(token: Token) returns (marked: bool)
      modifies this
      ensures Value() == MarkStaleRun(old(Value()), token) && (marked <==> Holds(old(Value()), token))
    {
      marked := state == Running && lease == Some(token);
      if marked {
        state := Stale;
        failure := Some(StaleSnapshot);
        Release();
      }
    }

    method Fail(token: Token, category: Category, now: Time, jitter: nat)
      modifies this
      ensures Value() == FailRun(old(Value()), token, category, now, jitter)
    {
      if state != Running || lease != Some(token) {
        return;
      }
      if Transient(category) && attempts < MAX_CLAIMS {
        state := Pending;
        dueAt := Delay(attempts, None, now, jitter);
      } else {
        state := Failed;
        failure := Some(category);
      }
      Release();
    }

    method Supersede(of: Id)
      modifies this
      ensures Value() == if report == of && Active(old(Value())) then StaleRun(old(Value())) else old(Value())
    {
      if report == of && (state == Pending || state == Running) {
        state := Stale;
        failure := Some(StaleSnapshot);
        Release();
      }
    }
  }

  function Suggestions(saved: seq<Saved>): (s: seq<Suggestion>)
    ensures |s| == |saved| && forall i :: 0 <= i < |s| ==> s[i] == saved[i].suggestion
  {
    seq(|saved|, i requires 0 <= i < |saved| => saved[i].suggestion)
  }

  predicate Distinct(rows: seq<MatchRunRow>) {
    forall i, j :: 0 <= i < j < |rows| ==> rows[i] != rows[j]
  }

  /** The bulk update of request_match: afterwards no run of the report is active. */
  method SupersedeAll(rows: seq<MatchRunRow>, report: Id)
    requires Distinct(rows)
    modifies rows
    ensures forall i :: 0 <= i < |rows| ==>
              rows[i].Value() == (if rows[i].report == report && Active(old(rows[i].Value())) then StaleRun(old(rows[i].Value()))
                                  else old(rows[i].Value()))
    ensures forall i :: 0 <= i < |rows| && rows[i].report == report ==> !Active(rows[i].Value())
  {
    var k := 0;
    while k < |rows|
      invariant k <= |rows|
      invariant forall i :: 0 <= i < k ==>
                  rows[i].Value() == (if rows[i].report == report && Active(old(rows[i].Value())) then StaleRun(old(rows[i].Value()))
                                      else old(rows[i].Value()))
      invariant forall i :: k <= i < |rows| ==> rows[i].Value() == old(rows[i].Value())
    {
      rows[k].Supersede(report);
      k := k + 1;
    }
  }

  predicate Abandoned(r: MatchRun, now: Time) {
    r.state == Running && r.lease.Some? && r.leaseExpires.Some? && r.leaseExpires.value < now
  }

  /** recover_runs: abandoned leases are listed first, then failed one by one. */
  method RecoverRuns(rows: seq<MatchRunRow>, now: Time, jitter: nat)
    requires Distinct(rows)
    modifies rows
    ensures forall i :: 0 <= i < |rows| ==>
              rows[i].Value() == (if Abandoned(old(rows[i].Value()), now)
                                  then FailRun(old(rows[i].Value()), old(rows[i].lease).value, ProcessFailed, now, jitter)
                                  else old(rows[i].Value()))
  {
    var k := 0;
    while k < |rows|
      invariant k <= |rows|
      invariant forall i :: 0 <= i < k ==>
                  rows[i].Value() == (if Abandoned(old(rows[i].Value()), now)
                                      then FailRun(old(rows[i].Value()), old(rows[i].lease).value, ProcessFailed, now, jitter)
                                      else old(rows[i].Value()))
      invariant forall i :: k <= i < |rows| ==> rows[i].Value() == old(rows[i].Value())
    {
      var row := rows[k];
      assert row.Value() == old(rows[k].Value());
      if row.state == Running && row.lease.Some? && row.leaseExpires.Some? && row.leaseExpires.value < now {
        row.Fail(row.lease.value, ProcessFailed, now, jitter);
      }
      k := k + 1;
    }
  }
}
