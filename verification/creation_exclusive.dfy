/** A problem never has both an unresolved creation and an active issue. */
module CreationExclusion {
  import opened Common
  import opened IssueMarkers
  import opened IssueLinks
  import opened IssueCreations
  import opened CreationWorlds

  ghost predicate OneUnresolved(cells: Cells) {
    forall a, b, p :: UnresolvedFor(cells, a, p) && UnresolvedFor(cells, b, p) ==> a == b
  }

  ghost predicate Apart(cells: Cells, links: Links) {
    forall a, r, p :: UnresolvedFor(cells, a, p) ==> !ActiveFor(links, r, p)
  }

  ghost predicate Exclusive(w: World) {
    OneUnresolved(w.cells) && Apart(w.cells, w.links) && LinksOk(w.links)
  }

  lemma WorkOpensNone(c: Cell, token: Token, work: WorkerStep)
    requires token in c.workers
    ensures WorkStep(c, token, work).op.problem == c.op.problem
    ensures Unresolved(WorkStep(c, token, work).op.state) ==> Unresolved(c.op.state)
  {
  }

  lemma SearchOpensNone(c: Cell, token: Token, search: SearchStep)
    requires token in c.searches
    ensures SearchAfter(c, token, search).op.problem == c.op.problem
    ensures Unresolved(SearchAfter(c, token, search).op.state) ==> Unresolved(c.op.state)
  {
  }

  /** Only an approval makes an operation unresolved, and no step moves it to another problem. */
  lemma OnlyApprovalOpens(c: Cell, step: CellStep)
    ensures Next(c, step).op.problem == c.op.problem
    ensures Unresolved(Next(c, step).op.state) && !Unresolved(c.op.state) ==> step.Approve?
  {
    if step.Work? && step.token in c.workers {
      WorkOpensNone(c, step.token, step.work);
    } else if step.Searching? && step.token in c.searches {
      SearchOpensNone(c, step.token, step.search);
    }
  }

  /** What was unresolved before may still be, and nothing else is. */
  ghost predicate NoneOpened(before: Cells, after: Cells) {
    forall a, p :: UnresolvedFor(after, a, p) ==> UnresolvedFor(before, a, p)
  }

  lemma AdvanceOpensNone(w: World, id: Uuid, step: CellStep)
    requires id in w.cells && !step.Approve?
    ensures NoneOpened(w.cells, Advance(w, id, step).cells) && Advance(w, id, step).links == w.links
  {
    OnlyApprovalOpens(w.cells[id], step);
  }

  lemma NoneOpenedKeeps(w: World, v: World)
    requires Exclusive(w) && NoneOpened(w.cells, v.cells) && v.links == w.links
    ensures Exclusive(v)
  {
  }

  lemma ApprovalKeeps(w: World, id: Uuid, draftVersion: nat, now: Time)
    requires Exclusive(w) && id in w.cells && ApprovalOpen(w, w.cells[id].op, draftVersion, now)
    ensures Exclusive(Advance(w, id, Approve(now)))
  {
    var v := Advance(w, id, Approve(now));
    var p := w.cells[id].op.problem;
    assert forall a, q :: a != id && UnresolvedFor(v.cells, a, q) ==> UnresolvedFor(w.cells, a, q);
    assert forall q :: UnresolvedFor(v.cells, id, q) ==> q == p && !HasActive(w.links, p) && !HasUnresolved(w.cells, p);
  }

  lemma DropDraftsOpensNone(cells: Cells, p: Id)
    ensures NoneOpened(cells, DropDrafts(cells, p))
  {
    forall id | id in cells
      ensures Next(cells[id], CancelDraft).op.problem == cells[id].op.problem
      ensures Unresolved(Next(cells[id], CancelDraft).op.state) ==> Unresolved(cells[id].op.state)
    {
      OnlyApprovalOpens(cells[id], CancelDraft);
    }
  }

  /** Recording an issue for a problem without unresolved operations. */
  lemma RecordingKeeps(w: World, v: World, p: Id, issue: Id, sameRepository: bool, replace: bool, row: Id)
    requires Exclusive(w) && row !in w.links && NoneOpened(w.cells, v.cells) && !HasUnresolved(v.cells, p)
    requires var r := RecordIssue(w.links, p, issue, w.connection.repository, sameRepository, replace, row);
             v.links == if r.Recorded? then r.links else w.links
    ensures Exclusive(v)
  {
    RecordKeepsLinks(w.links, p, issue, w.connection.repository, sameRepository, replace, row);
    RecordedIsActive(w.links, p, issue, w.connection.repository, sameRepository, replace, row);
    forall a, r, q | UnresolvedFor(v.cells, a, q)
      ensures !ActiveFor(v.links, r, q)
    {
      assert UnresolvedFor(w.cells, a, q) && q != p;
    }
  }

  lemma LinkIssueKeeps(w: World, p: Id, issue: Id, sameRepository: bool, replace: bool, row: Id)
    requires Exclusive(w)
    ensures Exclusive(DoLinkIssue(w, p, issue, sameRepository, replace, row))
  {
    var v := DoLinkIssue(w, p, issue, sameRepository, replace, row);
    if row !in w.links && w.connection.active && !HasUnresolved(w.cells, p) {
      var r := RecordIssue(w.links, p, issue, w.connection.repository, sameRepository, replace, row);
      DropDraftsOpensNone(w.cells, p);
      if !r.Refused? {
        RecordingKeeps(w, v, p, issue, sameRepository, replace, row);
      }
    }
  }

  /** The operation that gets its issue is the only unresolved one of its problem. */
  lemma LinkedKeeps(w: World, v: World, id: Uuid, issue: Id, sameRepository: bool, row: Id)
    requires Exclusive(w) && row !in w.links && id in w.cells && Unresolved(w.cells[id].op.state)
    requires NoneOpened(w.cells, v.cells) && id in v.cells && v.cells[id].op.state == Succeeded
    requires var r := RecordIssue(w.links, w.cells[id].op.problem, issue, w.connection.repository, sameRepository, true, row);
             v.links == if r.Recorded? then r.links else w.links
    ensures Exclusive(v)
  {
    var p := w.cells[id].op.problem;
    assert UnresolvedFor(w.cells, id, p);
    RecordingKeeps(w, v, p, issue, sameRepository, true, row);
  }

  lemma LinkCreatedKeeps(w: World, id: Uuid, token: Token, broken: bool, sameRepository: bool, row: Id)
    requires Exclusive(w) && id in w.cells
    ensures Exclusive(DoLinkCreated(w, id, token, broken, sameRepository, row))
  {
    var c := w.cells[id];
    if token in c.workers && c.workers[token].pc.Stored? && row !in w.links {
      var issue := c.workers[token].pc.issue;
      var (linking, _) := Recorder(w, c.op, issue, broken, !SameBinding(w, c.op), sameRepository, row);
      var v := DoLinkCreated(w, id, token, broken, sameRepository, row);
      AdvanceOpensNone(w, id, Work(token, Finish(linking)));
      if linking == Linked && Holds(c.op, token) {
        LinkedKeeps(w, v, id, issue, sameRepository, row);
      } else {
        NoneOpenedKeeps(w, v);
      }
    }
  }

  lemma LinkRecoveredKeeps(w: World, id: Uuid, token: Token, broken: bool, sameRepository: bool, row: Id)
    requires Exclusive(w) && id in w.cells
    ensures Exclusive(DoLinkRecovered(w, id, token, broken, sameRepository, row))
  {
    var c := w.cells[id];
    if token in c.searches && !c.searches[token].finished && |c.searches[token].matches| == 1 && row !in w.links {
      var issue := c.searches[token].matches[0];
      var conflict := !SameBinding(w, c.op) || HasActive(w.links, c.op.problem);
      var (linking, _) := Recorder(w, c.op, issue, broken, conflict, sameRepository, row);
      var v := DoLinkRecovered(w, id, token, broken, sameRepository, row);
      AdvanceOpensNone(w, id, Searching(token, Conclude(linking)));
      if linking == Linked && HoldsSearch(c.op, token) {
        LinkedKeeps(w, v, id, issue, sameRepository, row);
      } else {
        NoneOpenedKeeps(w, v);
      }
    }
  }

  lemma DraftsKeep(w: World, step: Step)
    requires Exclusive(w) && (step.NewDraft? || step.DropDraft?)
    ensures Exclusive(Apply(w, step))
  {
    NoneOpenedKeeps(w, Apply(w, step));
  }

  lemma PostKeeps(w: World, id: Uuid, token: Token, made: Option<Id>)
    requires Exclusive(w) && id in w.cells
    ensures Exclusive(DoPost(w, id, token, made))
  {
    AdvanceOpensNone(w, id, Work(token, Send(made)));
    NoneOpenedKeeps(w, DoPost(w, id, token, made));
  }

  lemma InnerKeeps(w: World, id: Uuid, step: CellStep)
    requires Exclusive(w) && id in w.cells && !step.Approve?
    ensures Exclusive(Advance(w, id, step))
  {
    AdvanceOpensNone(w, id, step);
    NoneOpenedKeeps(w, Advance(w, id, step));
  }

  /** A step that reaches neither an operation nor a link. */
  lemma OutsideKeeps(w: World, step: Step)
    requires Exclusive(w) && (step.SetConnection? || step.SetVersion? || step.Outsider?)
    ensures Exclusive(Apply(w, step))
  {
    NoneOpenedKeeps(w, Apply(w, step));
  }

  lemma InnerStepKeeps(w: World, step: Step)
    requires Exclusive(w) && (step.EditDraft? || step.VerifyApproval? || step.ReadMatches? || step.Other?)
    ensures Exclusive(Apply(w, step))
  {
    var one := Inner(w, step);
    if one.Some? {
      InnerKeeps(w, one.value.0, one.value.1);
    }
  }

  lemma RecordStepKeeps(w: World, step: Step)
    requires Exclusive(w) && (step.LinkCreated? || step.LinkRecovered?)
    ensures Exclusive(Apply(w, step))
  {
    if step.id in w.cells {
      match step
      case LinkCreated(id, token, broken, same, row) => LinkCreatedKeeps(w, id, token, broken, same, row);
      case LinkRecovered(id, token, broken, same, row) => LinkRecoveredKeeps(w, id, token, broken, same, row);
    }
  }

  lemma LinkStepKeeps(w: World, step: Step)
    requires Exclusive(w) && (step.LinkIssue? || step.PostIssue?)
    ensures Exclusive(Apply(w, step))
  {
    match step
    case LinkIssue(p, issue, same, replace, row) => LinkIssueKeeps(w, p, issue, same, replace, row);
    case PostIssue(id, token, made) => if id in w.cells { PostKeeps(w, id, token, made); }
  }

  lemma ApproveStepKeeps(w: World, step: Step)
    requires Exclusive(w) && step.ApproveDraft?
    ensures Exclusive(Apply(w, step))
  {
    if step.id in w.cells && ApprovalOpen(w, w.cells[step.id].op, step.draftVersion, step.now) {
      ApprovalKeeps(w, step.id, step.draftVersion, step.now);
    }
  }

  lemma ExclusiveStep(w: World, step: Step)
    requires Exclusive(w)
    ensures Exclusive(Apply(w, step))
  {
    if step.SetConnection? || step.SetVersion? || step.Outsider? {
      OutsideKeeps(w, step);
    } else if step.NewDraft? || step.DropDraft? {
      DraftsKeep(w, step);
    } else if step.ApproveDraft? {
      ApproveStepKeeps(w, step);
    } else if step.LinkIssue? || step.PostIssue? {
      LinkStepKeeps(w, step);
    } else if step.LinkCreated? || step.LinkRecovered? {
      RecordStepKeeps(w, step);
    } else {
      InnerStepKeeps(w, step);
    }
  }

  lemma {:induction false} RunExclusive(w: World, steps: seq<Step>)
    requires Exclusive(w)
    ensures Exclusive(Run(w, steps))
    decreases |steps|
  {
    if steps != [] {
      ExclusiveStep(w, steps[0]);
      RunExclusive(Apply(w, steps[0]), steps[1..]);
    }
  }

  /** In every reachable world: no problem has both an unresolved creation and an active issue,
      none has two of either, and every GitHub issue has one row. */
  lemma CreationExcludesLinking(w: World, p: Id)
    requires Reachable(w)
    ensures !(HasUnresolved(w.cells, p) && HasActive(w.links, p))
    ensures forall a, b :: UnresolvedFor(w.cells, a, p) && UnresolvedFor(w.cells, b, p) ==> a == b
    ensures forall r, s :: ActiveFor(w.links, r, p) && ActiveFor(w.links, s, p) ==> r == s
    ensures forall r, s :: r in w.links && s in w.links && w.links[r].issue == w.links[s].issue ==> r == s
  {
    var steps :| Run(EMPTY, steps) == w;
    RunExclusive(EMPTY, steps);
  }

  // ----- rows keep their problem

  /** What recording one issue may do to the links. */
  ghost predicate Records(links: Links, p: Id, issue: Id, repository: Id, same: bool, replace: bool, row: Id, after: Links) {
    && row !in links
    && RecordIssue(links, p, issue, repository, same, replace, row) == Recorded(after)
  }

  /** A step leaves the links alone or records one issue. */
  ghost predicate LinksMove(links: Links, after: Links) {
    after == links
    || exists p, issue, repository, same, replace, row :: Records(links, p, issue, repository, same, replace, row, after)
  }

  lemma LinkIssueMoves(w: World, p: Id, issue: Id, same: bool, replace: bool, row: Id)
    ensures LinksMove(w.links, DoLinkIssue(w, p, issue, same, replace, row).links)
  {
    var after := DoLinkIssue(w, p, issue, same, replace, row).links;
    if after != w.links {
      assert Records(w.links, p, issue, w.connection.repository, same, replace, row, after);
    }
  }

  lemma RecorderMoves(w: World, o: Operation, issue: Id, broken: bool, conflict: bool, same: bool, row: Id)
    requires row !in w.links
    ensures LinksMove(w.links, Recorder(w, o, issue, broken, conflict, same, row).1)
  {
    var after := Recorder(w, o, issue, broken, conflict, same, row).1;
    if after != w.links {
      assert Records(w.links, o.problem, issue, w.connection.repository, same, true, row, after);
    }
  }

  lemma LinkCreatedMoves(w: World, id: Uuid, token: Token, broken: bool, same: bool, row: Id)
    requires id in w.cells
    ensures LinksMove(w.links, DoLinkCreated(w, id, token, broken, same, row).links)
  {
    var c := w.cells[id];
    if token in c.workers && c.workers[token].pc.Stored? && row !in w.links {
      RecorderMoves(w, c.op, c.workers[token].pc.issue, broken, !SameBinding(w, c.op), same, row);
    }
  }

  lemma LinkRecoveredMoves(w: World, id: Uuid, token: Token, broken: bool, same: bool, row: Id)
    requires id in w.cells
    ensures LinksMove(w.links, DoLinkRecovered(w, id, token, broken, same, row).links)
  {
    var c := w.cells[id];
    if token in c.searches && !c.searches[token].finished && |c.searches[token].matches| == 1 && row !in w.links {
      RecorderMoves(w, c.op, c.searches[token].matches[0], broken, !SameBinding(w, c.op) || HasActive(w.links, c.op.problem), same, row);
    }
  }

  lemma LinksMoveStep(w: World, step: Step)
    ensures LinksMove(w.links, Apply(w, step).links)
  {
    match step
    case LinkIssue(p, issue, same, replace, row) => LinkIssueMoves(w, p, issue, same, replace, row);
    case LinkCreated(id, token, broken, same, row) => if id in w.cells { LinkCreatedMoves(w, id, token, broken, same, row); }
    case LinkRecovered(id, token, broken, same, row) => if id in w.cells { LinkRecoveredMoves(w, id, token, broken, same, row); }
    case _ =>
  }

  lemma MovedKeepsRows(links: Links, after: Links)
    requires LinksOk(links) && LinksMove(links, after)
    ensures RowsKept(links, after)
  {
    if after != links {
      var p, issue, repository, same, replace, row :| Records(links, p, issue, repository, same, replace, row, after);
      RecordKeepsLinks(links, p, issue, repository, same, replace, row);
    }
  }

  /** A linked issue's row is never deleted and never moves to another problem. */
  lemma {:induction false} RowNeverMoves(w: World, steps: seq<Step>)
    requires Exclusive(w)
    ensures RowsKept(w.links, Run(w, steps).links)
    decreases |steps|
  {
    if steps != [] {
      ExclusiveStep(w, steps[0]);
      LinksMoveStep(w, steps[0]);
      MovedKeepsRows(w.links, Apply(w, steps[0]).links);
      RowNeverMoves(Apply(w, steps[0]), steps[1..]);
    }
  }

  // ----- a created issue always gets a row of its own

  /** A problem that ever had an issue linked has an active one. */
  ghost predicate RowsMeanActive(links: Links) {
    forall r :: r in links ==> HasActive(links, links[r].problem)
  }

  lemma RecordedRows(links: Links, p: Id, issue: Id, repository: Id, same: bool, replace: bool, row: Id, after: Links)
    requires Records(links, p, issue, repository, same, replace, row, after)
    ensures forall s :: s in after ==> after[s].problem == p || (s in links && links[s].problem == after[s].problem)
  {
  }

  lemma ActiveCarried(links: Links, after: Links, p: Id)
    requires RowsMeanActive(links) && HasActive(after, p)
    requires forall q, x :: q != p ==> (ActiveFor(after, x, q) <==> ActiveFor(links, x, q))
    requires forall s :: s in after ==> after[s].problem == p || (s in links && links[s].problem == after[s].problem)
    ensures RowsMeanActive(after)
  {
    forall s | s in after && after[s].problem != p
      ensures HasActive(after, after[s].problem)
    {
      assert HasActive(links, links[s].problem);
      var x :| ActiveFor(links, x, links[s].problem);
      assert ActiveFor(after, x, after[s].problem);
    }
  }

  lemma MovedRowsMeanActive(links: Links, after: Links)
    requires LinksOk(links) && RowsMeanActive(links) && LinksMove(links, after)
    ensures RowsMeanActive(after)
  {
    if after != links {
      var p, issue, repository, same, replace, row :| Records(links, p, issue, repository, same, replace, row, after);
      RecordedIsActive(links, p, issue, repository, same, replace, row);
      RecordedRows(links, p, issue, repository, same, replace, row, after);
      ActiveCarried(links, after, p);
    }
  }

  lemma {:induction false} RunRowsMeanActive(w: World, steps: seq<Step>)
    requires Exclusive(w) && RowsMeanActive(w.links)
    ensures Exclusive(Run(w, steps)) && RowsMeanActive(Run(w, steps).links)
    decreases |steps|
  {
    if steps != [] {
      ExclusiveStep(w, steps[0]);
      LinksMoveStep(w, steps[0]);
      MovedRowsMeanActive(w.links, Apply(w, steps[0]).links);
      RunRowsMeanActive(Apply(w, steps[0]), steps[1..]);
    }
  }

  /** While an operation is unresolved its problem has no issue row at all, active or not, so
      what a creation or recovery links is always a new row. */
  lemma UnresolvedHasNoRows(w: World, id: Uuid, r: Id)
    requires Reachable(w) && id in w.cells && Unresolved(w.cells[id].op.state) && r in w.links
    ensures w.links[r].problem != w.cells[id].op.problem
  {
    var steps :| Run(EMPTY, steps) == w;
    RunRowsMeanActive(EMPTY, steps);
    assert UnresolvedFor(w.cells, id, w.cells[id].op.problem);
    assert HasActive(w.links, w.links[r].problem) && !HasActive(w.links, w.cells[id].op.problem);
  }
}
