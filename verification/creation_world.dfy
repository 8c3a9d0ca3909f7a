/** Every issue-creation operation, the issue links, the connection and the repository's issues
    as one state machine. Outsiders write and change issues on GitHub as they like. */
module CreationWorlds {
  import opened Common
  import opened IssueMarkers
  import opened IssueLinks
  import opened IssueCreations

  datatype Connection = Connection(active: bool, revision: nat, repository: Id)

  /** An issue on GitHub; `writer` is the operation whose POST wrote the text, if one did. */
  datatype Remote = Remote(body: Option<string>, pullRequest: bool, writer: Option<Uuid>)

  type Cells = map<Uuid, Cell>

  /** `outside` collects every text that somebody else wrote on GitHub. */
  datatype World = World(
    connection: Connection,
    versions: map<Id, nat>,
    cells: Cells,
    links: Links,
    remotes: map<Id, Remote>,
    outside: seq<string>)

  const EMPTY := World(Connection(false, 0, 0), map[], map[], map[], map[], [])

  datatype Step =
    | SetConnection(connection: Connection)
    | SetVersion(problem: Id, version: nat)
    | Outsider(issue: Id, text: Option<string>, pullRequest: bool)
    | NewDraft(id: Uuid, problem: Id, body: string, now: Time)
    | DropDraft(id: Uuid, now: Time)
    | EditDraft(id: Uuid, body: string, now: Time)
    | ApproveDraft(id: Uuid, draftVersion: nat, now: Time)
    | LinkIssue(problem: Id, issue: Id, sameRepository: bool, replace: bool, row: Id)
    | VerifyApproval(id: Uuid, token: Token, requesterActive: bool)
    | PostIssue(id: Uuid, token: Token, made: Option<Id>)
    | LinkCreated(id: Uuid, token: Token, broken: bool, sameRepository: bool, row: Id)
    | ReadMatches(id: Uuid, token: Token, found: seq<Id>)
    | LinkRecovered(id: Uuid, token: Token, broken: bool, sameRepository: bool, row: Id)
    | Other(id: Uuid, step: CellStep)

  // ----- conditions that look beyond one operation

  predicate UnresolvedFor(cells: Cells, id: Uuid, p: Id) {
    id in cells && Unresolved(cells[id].op.state) && cells[id].op.problem == p
  }

  ghost predicate HasUnresolved(cells: Cells, p: Id) {
    exists id :: UnresolvedFor(cells, id, p)
  }

  function VersionOf(w: World, p: Id): nat {
    if p in w.versions then w.versions[p] else 0
  }

  predicate SameBinding(w: World, o: Operation) {
    w.connection.revision == o.bindingRevision && w.connection.repository == o.repository
  }

  ghost predicate DraftOpen(w: World, p: Id, body: string) {
    w.connection.active && !HasActive(w.links, p) && !HasUnresolved(w.cells, p) && AcceptedBody(body)
  }

  /** approve_draft, including the database's refusal of a second unresolved operation. */
  ghost predicate ApprovalOpen(w: World, o: Operation, draftVersion: nat, now: Time) {
    && o.state == State.Draft
    && (o.expiresAt <= now
        || (&& o.draftVersion == draftVersion && VersionOf(w, o.problem) == o.problemVersion
            && w.connection.active && SameBinding(w, o)
            && !HasActive(w.links, o.problem) && !HasUnresolved(w.cells, o.problem)))
  }

  ghost predicate StaleApproval(w: World, o: Operation, requesterActive: bool) {
    || !requesterActive || VersionOf(w, o.problem) != o.problemVersion || !w.connection.active || !SameBinding(w, o)
    || HasActive(w.links, o.problem)
  }

  /** Steps of one operation that need nothing else. */
  predicate LocalStep(step: CellStep) {
    match step
    case Redraft(_, _, _, _, _) => false
    case Approve(_) => false
    case CancelDraft => false
    case Work(_, work) => !work.Verify? && !work.Send? && !work.Finish?
    case Searching(_, search) => !search.Read? && !search.Conclude?
    case _ => true
  }

  predicate CarriesMarker(w: World, i: Id, id: Uuid) {
    i in w.remotes && !w.remotes[i].pullRequest && w.remotes[i].body.Some?
    && Contains(w.remotes[i].body.value, MarkerFor(id))
  }

  // ----- steps

  function Advance(w: World, id: Uuid, step: CellStep): World
    requires id in w.cells
  {
    w.(cells := w.cells[id := Next(w.cells[id], step)])
  }

  function DropDrafts(cells: Cells, p: Id): Cells {
    map id | id in cells :: if cells[id].op.problem == p then Next(cells[id], CancelDraft) else cells[id]
  }

  ghost function DoLinkIssue(w: World, p: Id, issue: Id, sameRepository: bool, replace: bool, row: Id): World {
    if row in w.links || !w.connection.active || HasUnresolved(w.cells, p) then w
    else
      match RecordIssue(w.links, p, issue, w.connection.repository, sameRepository, replace, row)
      case Refused => w
      case Same => w.(cells := DropDrafts(w.cells, p))
      case Recorded(links) => w.(cells := DropDrafts(w.cells, p), links := links)
  }

  function DoPost(w: World, id: Uuid, token: Token, made: Option<Id>): World
    requires id in w.cells
  {
    var c := w.cells[id];
    if token !in c.workers || !c.workers[token].pc.Verified? || (made.Some? && made.value in w.remotes) then w
    else
      var v := Advance(w, id, Work(token, Send(made)));
      if made.None? then v
      else v.(remotes := v.remotes[made.value := Remote(Some(ExactBody(id, c.workers[token].body)), false, Some(id))])
  }

  /** The outcome of recording an issue for an operation, and the links after it. */
  ghost function Recorder(w: World, o: Operation, issue: Id, broken: bool, conflict: bool, sameRepository: bool, row: Id)
    : (Linking, Links)
    requires row !in w.links
  {
    if broken then (Broken, w.links)
    else if conflict then (Rebound, w.links)
    else
      match RecordIssue(w.links, o.problem, issue, w.connection.repository, sameRepository, true, row)
      case Refused => (Broken, w.links)
      case Same => (Linked, w.links)
      case Recorded(links) => (Linked, links)
  }

  ghost function DoLinkCreated(w: World, id: Uuid, token: Token, broken: bool, sameRepository: bool, row: Id): World
    requires id in w.cells
  {
    var c := w.cells[id];
    if token !in c.workers || !c.workers[token].pc.Stored? || row in w.links then w
    else
      var issue := c.workers[token].pc.issue;
      var (linking, links) := Recorder(w, c.op, issue, broken, !SameBinding(w, c.op), sameRepository, row);
      var v := Advance(w, id, Work(token, Finish(linking)));
      if linking == Linked && Holds(c.op, token) then v.(links := links) else v
  }

  ghost function DoLinkRecovered(w: World, id: Uuid, token: Token, broken: bool, sameRepository: bool, row: Id): World
    requires id in w.cells
  {
    var c := w.cells[id];
    if token !in c.searches || c.searches[token].finished || |c.searches[token].matches| != 1 || row in w.links then w
    else
      var issue := c.searches[token].matches[0];
      var conflict := !SameBinding(w, c.op) || HasActive(w.links, c.op.problem);
      var (linking, links) := Recorder(w, c.op, issue, broken, conflict, sameRepository, row);
      var v := Advance(w, id, Searching(token, Conclude(linking)));
      if linking == Linked && HoldsSearch(c.op, token) then v.(links := links) else v
  }

  /** The step of one operation that a step of the world performs, if it performs just one. */
  ghost function Inner(w: World, step: Step): Option<(Uuid, CellStep)> {
    match step
    case EditDraft(id, body, now) =>
      if id !in w.cells || !DraftOpen(w, w.cells[id].op.problem, body) then None
      else Some((id, Redraft(body, VersionOf(w, w.cells[id].op.problem), w.connection.revision, w.connection.repository, now)))
    case ApproveDraft(id, draftVersion, now) =>
      if id !in w.cells || !ApprovalOpen(w, w.cells[id].op, draftVersion, now) then None else Some((id, Approve(now)))
    case VerifyApproval(id, token, requesterActive) =>
      if id !in w.cells then None else Some((id, Work(token, Verify(StaleApproval(w, w.cells[id].op, requesterActive)))))
    case ReadMatches(id, token, found) =>
      if id !in w.cells || (exists i :: i in found && !CarriesMarker(w, i, id)) then None else Some((id, Searching(token, Read(found))))
    case Other(id, s) => if id !in w.cells || !LocalStep(s) then None else Some((id, s))
    case _ => None
  }

  ghost function Apply(w: World, step: Step): World {
    match step
    case SetConnection(connection) => w.(connection := connection)
    case SetVersion(p, version) => w.(versions := w.versions[p := version])
    case Outsider(issue, text, pullRequest) =>
      w.(remotes := w.remotes[issue := Remote(text, pullRequest, None)],
         outside := if text.Some? then w.outside + [text.value] else w.outside)
    case NewDraft(id, p, body, now) =>
      if id in w.cells || !DraftOpen(w, p, body) then w
      else w.(cells := w.cells[id := NewCell(id, p, body, VersionOf(w, p), w.connection.revision, w.connection.repository, now)])
    case DropDraft(id, now) =>
      if id !in w.cells || w.cells[id].op.state != State.Draft || w.cells[id].op.expiresAt > now then w
      else w.(cells := map x | x in w.cells && x != id :: w.cells[x])
    case LinkIssue(p, issue, sameRepository, replace, row) => DoLinkIssue(w, p, issue, sameRepository, replace, row)
    case PostIssue(id, token, made) => if id !in w.cells then w else DoPost(w, id, token, made)
    case LinkCreated(id, token, broken, sameRepository, row) =>
      if id !in w.cells then w else DoLinkCreated(w, id, token, broken, sameRepository, row)
    case LinkRecovered(id, token, broken, sameRepository, row) =>
      if id !in w.cells then w else DoLinkRecovered(w, id, token, broken, sameRepository, row)
    case _ => var one := Inner(w, step); if one.None? then w else Advance(w, one.value.0, one.value.1)
  }

  ghost function Run(w: World, steps: seq<Step>): World
    decreases |steps|
  {
    if steps == [] then w else Run(Apply(w, steps[0]), steps[1..])
  }

  ghost predicate Reachable(w: World) {
    exists steps :: Run(EMPTY, steps) == w
  }

  // ----- every operation keeps its own invariant

  ghost predicate CellsOk(cells: Cells) {
    forall id :: id in cells ==> CellInv(cells[id])
  }

  lemma AdvanceCellsOk(w: World, id: Uuid, step: CellStep)
    requires CellsOk(w.cells) && id in w.cells
    ensures CellsOk(Advance(w, id, step).cells)
  {
    NextKeeps(w.cells[id], step);
  }

  lemma LinkCreatedCellsOk(w: World, id: Uuid, token: Token, broken: bool, sameRepository: bool, row: Id)
    requires CellsOk(w.cells) && id in w.cells
    ensures CellsOk(DoLinkCreated(w, id, token, broken, sameRepository, row).cells)
  {
    var c := w.cells[id];
    if token in c.workers && c.workers[token].pc.Stored? && row !in w.links {
      var (linking, _) := Recorder(w, c.op, c.workers[token].pc.issue, broken, !SameBinding(w, c.op), sameRepository, row);
      AdvanceCellsOk(w, id, Work(token, Finish(linking)));
    }
  }

  lemma LinkRecoveredCellsOk(w: World, id: Uuid, token: Token, broken: bool, sameRepository: bool, row: Id)
    requires CellsOk(w.cells) && id in w.cells
    ensures CellsOk(DoLinkRecovered(w, id, token, broken, sameRepository, row).cells)
  {
    var c := w.cells[id];
    if token in c.searches && !c.searches[token].finished && |c.searches[token].matches| == 1 && row !in w.links {
      var (linking, _) := Recorder(w, c.op, c.searches[token].matches[0], broken,
                                   !SameBinding(w, c.op) || HasActive(w.links, c.op.problem), sameRepository, row);
      AdvanceCellsOk(w, id, Searching(token, Conclude(linking)));
    }
  }

  lemma DropDraftsOk(cells: Cells, p: Id)
    requires CellsOk(cells)
    ensures CellsOk(DropDrafts(cells, p))
  {
    forall id | id in cells
      ensures CellInv(Next(cells[id], CancelDraft))
    {
      NextKeeps(cells[id], CancelDraft);
    }
  }

  lemma PostCellsOk(w: World, id: Uuid, token: Token, made: Option<Id>)
    requires CellsOk(w.cells) && id in w.cells
    ensures CellsOk(DoPost(w, id, token, made).cells)
  {
    AdvanceCellsOk(w, id, Work(token, Send(made)));
  }

  lemma LinkIssueCellsOk(w: World, p: Id, issue: Id, sameRepository: bool, replace: bool, row: Id)
    requires CellsOk(w.cells)
    ensures CellsOk(DoLinkIssue(w, p, issue, sameRepository, replace, row).cells)
  {
    DropDraftsOk(w.cells, p);
  }

  lemma DraftsCellsOk(w: World, step: Step)
    requires CellsOk(w.cells) && (step.NewDraft? || step.DropDraft?)
    ensures CellsOk(Apply(w, step).cells)
  {
  }

  lemma CreatedStepCellsOk(w: World, step: Step)
    requires CellsOk(w.cells) && step.LinkCreated?
    ensures CellsOk(Apply(w, step).cells)
  {
    if step.id in w.cells {
      LinkCreatedCellsOk(w, step.id, step.token, step.broken, step.sameRepository, step.row);
    }
  }

  lemma RecoveredStepCellsOk(w: World, step: Step)
    requires CellsOk(w.cells) && step.LinkRecovered?
    ensures CellsOk(Apply(w, step).cells)
  {
    if step.id in w.cells {
      LinkRecoveredCellsOk(w, step.id, step.token, step.broken, step.sameRepository, step.row);
    }
  }

  lemma LinkStepCellsOk(w: World, step: Step)
    requires CellsOk(w.cells) && (step.LinkIssue? || step.PostIssue?)
    ensures CellsOk(Apply(w, step).cells)
  {
    match step
    case LinkIssue(p, issue, same, replace, row) => LinkIssueCellsOk(w, p, issue, same, replace, row);
    case PostIssue(id, token, made) => if id in w.cells { PostCellsOk(w, id, token, made); }
  }

  lemma InnerCellsOk(w: World, step: Step)
    requires CellsOk(w.cells)
    requires step.EditDraft? || step.ApproveDraft? || step.VerifyApproval? || step.ReadMatches? || step.Other?
    ensures CellsOk(Apply(w, step).cells)
  {
    var one := Inner(w, step);
    if one.Some? {
      AdvanceCellsOk(w, one.value.0, one.value.1);
    }
  }

  lemma CellsStep(w: World, step: Step)
    requires CellsOk(w.cells)
    ensures CellsOk(Apply(w, step).cells)
  {
    if step.SetConnection? || step.SetVersion? || step.Outsider? {
      assert Apply(w, step).cells == w.cells;
    } else if step.NewDraft? || step.DropDraft? {
      DraftsCellsOk(w, step);
    } else if step.LinkIssue? || step.PostIssue? {
      LinkStepCellsOk(w, step);
    } else if step.LinkCreated? {
      CreatedStepCellsOk(w, step);
    } else if step.LinkRecovered? {
      RecoveredStepCellsOk(w, step);
    } else {
      InnerCellsOk(w, step);
    }
  }

  lemma {:induction false} RunCellsOk(w: World, steps: seq<Step>)
    requires CellsOk(w.cells)
    ensures CellsOk(Run(w, steps).cells)
    decreases |steps|
  {
    if steps != [] {
      CellsStep(w, steps[0]);
      RunCellsOk(Apply(w, steps[0]), steps[1..]);
    }
  }

  /** Every operation of every reachable world keeps its invariant, so the bounds on its POSTs
      and the finality of its end hold in every interleaving. */
  lemma ReachableCells(w: World, id: Uuid)
    requires Reachable(w) && id in w.cells
    ensures CellInv(w.cells[id])
    ensures |Unrefused(w.cells[id].posts)| <= 1 && |w.cells[id].posts| <= 12
  {
    var steps :| Run(EMPTY, steps) == w;
    RunCellsOk(EMPTY, steps);
    AtMostOnePost(w.cells[id]);
  }
}
