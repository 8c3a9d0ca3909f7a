/** GitHub issue sync: requested and completed generations under a fenced lease, and the
    reconciliation runs that count on them. Each step is one transaction. */
module IssueSync {
  import opened Common
  import opened Retries

  datatype Access = Accessible | Inaccessible | Disconnected | AccessLost | Suspended | Deleted

  /** Any access but the accessible one: only a read or a link makes an issue accessible. */
  type Lost = a: Access | a != Accessible witness Inaccessible

  const LEASE_TTL := 190

  /** The sync fields of an EngineeringIssue row. */
  datatype Row = Row(
    active: bool,
    access: Access,
    requested: nat,
    completed: nat,
    lease: Option<Token>,
    leaseExpires: Option<Time>,
    retryAt: Option<Time>,
    attempts: nat,
    lastSuccess: Option<Time>)

  // ----- the row, transaction by transaction

  function LinkedRow(stamp: Time): Row {
    Row(true, Accessible, 0, 0, None, None, None, 0, Some(stamp))
  }

  function RelinkRow(r: Row, stamp: Time): Row {
    r.(active := true, access := Accessible, lastSuccess := Some(stamp))
  }

  function RequestRow(r: Row): Row {
    r.(requested := r.requested + 1)
  }

  predicate Pending(r: Row) {
    r.requested > r.completed
  }

  /** refresh_issue asks only when nothing is pending or running. */
  function RefreshRow(r: Row): Row {
    if Pending(r) || r.lease.Some? then r else RequestRow(r)
  }

  /** _settle_unsynced: every pending generation completes without a fetch. */
  function SettleRow(r: Row, access: Access): Row {
    r.(access := access, completed := r.requested, lease := None, leaseExpires := None)
  }

  predicate Waiting(r: Row, asOf: Time) {
    || (r.retryAt.Some? && r.retryAt.value > asOf)
    || (r.lease.Some? && r.leaseExpires.Some? && r.leaseExpires.value > asOf)
  }

  function ClaimRow(r: Row, token: Token, asOf: Time): Row {
    r.(lease := Some(token), leaseExpires := Some(asOf + LEASE_TTL), attempts := r.attempts + 1)
  }

  /** The first transaction of sync_issue. `unusable` is the access that a changed binding, a
      transfer or an inactive connection leaves. The second result says whether it claimed. */
  function BeginRow(r: Row, token: Token, asOf: Time, event: bool, unusable: Option<Lost>): (Row, bool) {
    var asked := if event then RequestRow(r) else r;
    if Waiting(asked, asOf) then (asked, false)
    else if unusable.Some? then (SettleRow(asked, unusable.value), false)
    else (ClaimRow(asked, token, asOf), true)
  }

  /** Whether a failure is retried: never when the installation is refused, else after the
      usual wait, counted from the clock reading the sync started with. */
  datatype Again = Never | Later(retryAfter: Option<int>, jitter: nat)

  function RetryAt(r: Row, started: Time, again: Again): Option<Time> {
    match again
    case Never => None
    case Later(retryAfter, jitter) => Some(Delay(r.attempts, retryAfter, started, jitter))
  }

  /** _finish_issue_sync_failure */
  function FailRow(r: Row, token: Token, inaccessible: bool, retryAt: Option<Time>): Row {
    if r.lease != Some(token) then r
    else r.(access := if inaccessible then Inaccessible else r.access, retryAt := retryAt, lease := None, leaseExpires := None)
  }

  /** What the fetch saw: the issue, or that it is gone (deleted, for a deletion event). */
  datatype Outcome = Seen | Gone(deleted: bool)

  /** The last transaction of sync_issue. */
  function FinishRow(r: Row, token: Token, target: nat, started: Time, outcome: Outcome, rebound: bool): Row {
    if r.lease != Some(token) then r
    else if rebound then SettleRow(r, Inaccessible)
    else
      var done := r.(completed := target, lease := None, leaseExpires := None);
      match outcome
      case Seen => done.(access := Accessible, lastSuccess := Some(started), attempts := 0, retryAt := None)
      case Gone(deleted) => done.(access := if deleted then Deleted else Inaccessible)
  }

  // ----- histories

  /** How a generation was completed: by a fetch claimed at that tick, or without one. */
  datatype Evidence = Fetched(claimed: nat) | Settled

  /** A successful read: when its sync started and the binding revision it ran under. */
  datatype Read = Read(started: Time, revision: nat)

  /** A row with its history: the tick each generation was requested at, how each completed one
      was completed, and every successful read. */
  datatype Entry = Entry(row: Row, asked: seq<nat>, evidence: seq<Evidence>, readings: seq<Read>)

  /** One run of sync_issue that has claimed its row. */
  datatype Fetch = Fetch(issue: Id, target: nat, started: Time, revision: nat, claimed: nat)

  datatype Target = Target(generation: nat, done: bool)
  datatype Run = Run(startedAt: Time, revision: nat, targets: map<Id, Target>)

  datatype World = World(
    now: Time,
    tick: nat,
    connected: bool,
    revision: nat,
    entries: map<Id, Entry>,
    fetches: map<Token, Fetch>,
    run: Option<Run>,
    lastReconciled: Option<Time>)

  const EMPTY := World(0, 0, false, 0, map[], map[], None, None)

  datatype Step =
    | Advance(seconds: nat)
    | Rebind(connected: bool)
    | SetConnected(connected: bool)
    | Link(issue: Id, stamp: Time)
    | Unlink(issue: Id)
    | Refresh(issue: Id)
    | Request(issue: Id)
    | SetAccess(issue: Id, access: Lost)
    | Begin(issue: Id, token: Token, asOf: Time, event: bool, unusable: Option<Lost>)
    | Fail(token: Token, inaccessible: bool, again: Again)
    | Finish(token: Token, outcome: Outcome, rebound: bool)
    | StartRun
    | Complete(issue: Id)

  /** The history after a row changes at `tick`: new requests are dated, and generations that
      the change completes get `how`. */
  function Recorded(e: Entry, row: Row, tick: nat, how: Evidence): Entry {
    Entry(row, Padded(e.asked, row.requested, tick), Padded(e.evidence, row.completed, how), e.readings)
  }

  function Padded<T>(s: seq<T>, n: nat, x: T): seq<T>
    decreases n - |s|
  {
    if |s| >= n then s else Padded(s + [x], n, x)
  }

  function Put(w: World, issue: Id, row: Row, how: Evidence): World
    requires issue in w.entries
  {
    w.(entries := w.entries[issue := Recorded(w.entries[issue], row, w.tick, how)])
  }

  function AddRead(e: Entry, read: Read): Entry {
    e.(readings := e.readings + [read])
  }

  function DoLink(w: World, issue: Id, stamp: Time): World {
    if stamp > w.now then w
    else
      var e := if issue in w.entries then w.entries[issue].(row := RelinkRow(w.entries[issue].row, stamp))
               else Entry(LinkedRow(stamp), [], [], []);
      w.(entries := w.entries[issue := AddRead(e, Read(stamp, w.revision))])
  }

  function DoBegin(w: World, issue: Id, token: Token, asOf: Time, event: bool, unusable: Option<Lost>): World {
    if issue !in w.entries || token in w.fetches || asOf > w.now then w
    else
      var (row, claimed) := BeginRow(w.entries[issue].row, token, asOf, event, unusable);
      var v := Put(w, issue, row, Settled);
      if !claimed then v
      else v.(fetches := v.fetches[token := Fetch(issue, row.requested, asOf, w.revision, w.tick)])
  }

  function DoFinish(w: World, token: Token, outcome: Outcome, rebound: bool): World {
    if token !in w.fetches || w.fetches[token].issue !in w.entries then w
    else
      var f := w.fetches[token];
      var e := w.entries[f.issue];
      if e.row.lease != Some(token) then w
      else
        var row := FinishRow(e.row, token, f.target, f.started, outcome, rebound);
        var v := Put(w, f.issue, row, if rebound then Settled else Fetched(f.claimed));
        if rebound || outcome.Gone? then v
        else v.(entries := v.entries[f.issue := AddRead(v.entries[f.issue], Read(f.started, f.revision))])
  }

  function Failed(w: World, token: Token, inaccessible: bool, again: Again): Row
    requires token in w.fetches && w.fetches[token].issue in w.entries
  {
    var r := w.entries[w.fetches[token].issue].row;
    FailRow(r, token, inaccessible, RetryAt(r, w.fetches[token].started, again))
  }

  /** The active issues a run asks for, each pending afterwards. */
  function AskedEntries(w: World): map<Id, Entry> {
    map i | i in w.entries :: AskedEntry(w.entries[i], w.tick)
  }

  function AskedEntry(e: Entry, tick: nat): Entry {
    if e.row.active && !Pending(e.row) then Recorded(e, RequestRow(e.row), tick, Settled) else e
  }

  function TargetsOf(entries: map<Id, Entry>): map<Id, Target> {
    map i | i in entries && entries[i].row.active :: Target(entries[i].row.requested, false)
  }

  /** reconcile_github_issues for the connection */
  function DoStartRun(w: World): World {
    if !w.connected then w
    else
      var entries := AskedEntries(w);
      var targets := TargetsOf(entries);
      w.(entries := entries, run := Some(Run(w.now, w.revision, targets)),
         lastReconciled := if targets == map[] then Some(w.now) else w.lastReconciled)
  }

  predicate MayComplete(w: World, issue: Id) {
    && issue in w.entries && w.run.Some? && w.run.value.revision == w.revision
    && w.entries[issue].row.access == Accessible
    && w.entries[issue].row.lastSuccess.Some? && w.entries[issue].row.lastSuccess.value >= w.run.value.startedAt
  }

  function Marked(run: Run, issue: Id, completed: nat): Run {
    if issue !in run.targets || run.targets[issue].generation > completed then run
    else run.(targets := run.targets[issue := run.targets[issue].(done := true)])
  }

  predicate AllDone(entries: map<Id, Entry>, run: Run) {
    forall i :: i in run.targets && i in entries && entries[i].row.active ==> run.targets[i].done
  }

  /** _complete_reconciliation_target */
  function DoComplete(w: World, issue: Id): World {
    if !MayComplete(w, issue) then w
    else
      var run := Marked(w.run.value, issue, w.entries[issue].row.completed);
      w.(run := Some(run), lastReconciled := if AllDone(w.entries, run) then Some(w.now) else w.lastReconciled)
  }

  function Do(w: World, step: Step): World {
    match step
    case Advance(seconds) => w.(now := w.now + seconds)
    case Rebind(connected) => w.(revision := w.revision + 1, connected := connected)
    case SetConnected(connected) => w.(connected := connected)
    case Link(issue, stamp) => DoLink(w, issue, stamp)
    case Unlink(issue) =>
      if issue !in w.entries then w else Put(w, issue, w.entries[issue].row.(active := false), Settled)
    case Refresh(issue) => if issue !in w.entries then w else Put(w, issue, RefreshRow(w.entries[issue].row), Settled)
    case Request(issue) => if issue !in w.entries then w else Put(w, issue, RequestRow(w.entries[issue].row), Settled)
    case SetAccess(issue, access) =>
      if issue !in w.entries then w else Put(w, issue, w.entries[issue].row.(access := access), Settled)
    case Begin(issue, token, asOf, event, unusable) => DoBegin(w, issue, token, asOf, event, unusable)
    case Fail(token, inaccessible, again) =>
      if token !in w.fetches || w.fetches[token].issue !in w.entries then w
      else
        var issue := w.fetches[token].issue;
        Put(w, issue, Failed(w, token, inaccessible, again), Settled)
    case Finish(token, outcome, rebound) => DoFinish(w, token, outcome, rebound)
    case StartRun => DoStartRun(w)
    case Complete(issue) => DoComplete(w, issue)
  }

  function Apply(w: World, step: Step): World {
    var v := Do(w, step);
    v.(tick := w.tick + 1)
  }

  function RunSteps(w: World, steps: seq<Step>): World
    decreases |steps|
  {
    if steps == [] then w else RunSteps(Apply(w, steps[0]), steps[1..])
  }

  ghost predicate Reachable(w: World) {
    exists steps :: RunSteps(EMPTY, steps) == w
  }
}
