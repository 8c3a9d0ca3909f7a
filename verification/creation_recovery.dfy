/** Which issue a creation or a recovery can link: the one the operation's POST made, unless
    somebody copied the operation's marker. */
module CreationRecovery {
  import opened Common
  import opened IssueMarkers
  import opened IssueLinks
  import opened IssueCreations
  import opened CreationWorlds
  import CreationExclusion

  ghost predicate Made(posts: seq<Post>, i: Id) {
    exists k :: 0 <= k < |posts| && posts[k].made == Some(i)
  }

  /** Somebody else wrote a text with the operation's marker on GitHub. */
  ghost predicate Copied(outside: seq<string>, id: Uuid) {
    exists k :: 0 <= k < |outside| && Contains(outside[k], MarkerFor(id))
  }

  ghost predicate Genuine(c: Cell, outside: seq<string>, id: Uuid, i: Id) {
    Made(c.posts, i) || Copied(outside, id)
  }

  /** Every issue on GitHub has the text of the POST that made it, or one written outside. */
  ghost predicate RemoteOk(cells: Cells, outside: seq<string>, i: Id, r: Remote) {
    match r.writer
    case Some(p) => p in cells && r.body == Some(ExactBody(p, cells[p].op.body)) && !r.pullRequest && Made(cells[p].posts, i)
    case None => r.body.Some? ==> r.body.value in outside
  }

  ghost predicate RemotesOk(w: World) {
    forall i :: i in w.remotes ==> RemoteOk(w.cells, w.outside, i, w.remotes[i])
  }

  ghost predicate MatchesOk(c: Cell, outside: seq<string>, id: Uuid) {
    && (forall t, m :: t in c.searches && m in c.searches[t].matches ==> Genuine(c, outside, id, m))
    && (forall m :: m in c.linked ==> Genuine(c, outside, id, m))
  }

  ghost predicate AllMatchesOk(w: World) {
    forall id :: id in w.cells ==> MatchesOk(w.cells[id], w.outside, id)
  }

  ghost predicate Traced(w: World) {
    RemotesOk(w) && AllMatchesOk(w)
  }

  // ----- one operation

  predicate PostsGrow(posts: seq<Post>, more: seq<Post>) {
    |posts| <= |more| && forall k :: 0 <= k < |posts| ==> more[k].made == posts[k].made
  }

  /** Steps keep what was made, and freeze the text once it has been posted. */
  predicate Extends(c: Cell, d: Cell) {
    PostsGrow(c.posts, d.posts) && (c.posts != [] ==> d.op.body == c.op.body)
  }

  lemma MadeGrows(posts: seq<Post>, more: seq<Post>, i: Id)
    requires PostsGrow(posts, more) && Made(posts, i)
    ensures Made(more, i)
  {
    var k :| 0 <= k < |posts| && posts[k].made == Some(i);
    assert more[k].made == Some(i);
  }

  lemma GenuineGrows(c: Cell, d: Cell, outside: seq<string>, more: seq<string>, id: Uuid, i: Id)
    requires Genuine(c, outside, id, i) && PostsGrow(c.posts, d.posts) && outside <= more
    ensures Genuine(d, more, id, i)
  {
    if Made(c.posts, i) {
      MadeGrows(c.posts, d.posts, i);
    } else {
      var k :| 0 <= k < |outside| && Contains(outside[k], MarkerFor(id));
      assert Contains(more[k], MarkerFor(id));
    }
  }

  lemma WorkExtends(c: Cell, token: Token, work: WorkerStep)
    requires token in c.workers
    ensures Extends(c, WorkStep(c, token, work))
  {
  }

  lemma NextExtends(c: Cell, step: CellStep)
    requires c.op.state == State.Draft ==> c.posts == []
    ensures Extends(c, Next(c, step))
  {
    if step.Work? && step.token in c.workers {
      WorkExtends(c, step.token, step.work);
    }
  }

  ghost predicate Matched(c: Cell, i: Id) {
    exists t :: t in c.searches && i in c.searches[t].matches
  }

  /** Matches come from reading, links from a POST or a match. */
  ghost predicate Sources(c: Cell, d: Cell, found: seq<Id>) {
    && (forall t, m :: t in d.searches && m in d.searches[t].matches ==> Matched(c, m) || m in found)
    && (forall m :: m in d.linked ==> m in c.linked || Made(c.posts, m) || Matched(c, m))
  }

  lemma WorkSources(c: Cell, token: Token, work: WorkerStep)
    requires CellInv(c) && token in c.workers
    ensures Sources(c, WorkStep(c, token, work), [])
  {
    var d := WorkStep(c, token, work);
    assert d.searches == c.searches;
    if work.Finish? && c.workers[token].pc.Stored? {
      assert c.posts[|c.posts| - 1].made == Some(c.workers[token].pc.issue);
    }
  }

  lemma SearchSources(c: Cell, token: Token, search: SearchStep)
    requires token in c.searches
    ensures Sources(c, SearchAfter(c, token, search), if search.Read? then search.found else [])
  {
  }

  lemma NextSources(c: Cell, step: CellStep)
    requires CellInv(c)
    ensures Sources(c, Next(c, step), if step.Searching? && step.search.Read? then step.search.found else [])
  {
    if step.Work? && step.token in c.workers {
      WorkSources(c, step.token, step.work);
    } else if step.Searching? && step.token in c.searches {
      SearchSources(c, step.token, step.search);
    }
  }

  lemma MatchesExtend(c: Cell, d: Cell, found: seq<Id>, outside: seq<string>, more: seq<string>, id: Uuid)
    requires MatchesOk(c, outside, id) && PostsGrow(c.posts, d.posts) && Sources(c, d, found) && outside <= more
    requires forall i :: i in found ==> Genuine(c, outside, id, i)
    ensures MatchesOk(d, more, id)
  {
    forall i | Genuine(c, outside, id, i)
      ensures Genuine(d, more, id, i)
    {
      GenuineGrows(c, d, outside, more, id, i);
    }
    forall i | Matched(c, i)
      ensures Genuine(c, outside, id, i)
    {
      var t :| t in c.searches && i in c.searches[t].matches;
    }
  }

  lemma Unchanged(c: Cell)
    ensures Sources(c, c, []) && PostsGrow(c.posts, c.posts)
  {
  }

  lemma NextMatches(c: Cell, step: CellStep, outside: seq<string>, id: Uuid)
    requires CellInv(c) && MatchesOk(c, outside, id)
    requires step.Searching? && step.search.Read? ==> forall i :: i in step.search.found ==> Genuine(c, outside, id, i)
    ensures MatchesOk(Next(c, step), outside, id)
  {
    NextExtends(c, step);
    NextSources(c, step);
    MatchesExtend(c, Next(c, step), if step.Searching? && step.search.Read? then step.search.found else [], outside, outside, id);
  }

  // ----- what the marker proves

  /** An issue that carries an operation's marker was made by its POST, or copied. */
  lemma CarrierIsGenuine(w: World, i: Id, id: Uuid)
    requires CellsOk(w.cells) && RemotesOk(w) && id in w.cells && CarriesMarker(w, i, id)
    ensures Genuine(w.cells[id], w.outside, id, i)
  {
    var r := w.remotes[i];
    assert RemoteOk(w.cells, w.outside, i, r);
    match r.writer
    case Some(p) =>
      assert CellInv(w.cells[p]);
      MarkerNamesItsOperation(p, id, w.cells[p].op.body);
    case None =>
      var k :| 0 <= k < |w.outside| && w.outside[k] == r.body.value;
  }

  // ----- steps of the world

  lemma RemoteKept(before: Cells, after: Cells, outside: seq<string>, more: seq<string>, i: Id, r: Remote)
    requires RemoteOk(before, outside, i, r) && outside <= more
    requires r.writer.Some? ==> r.writer.value in after && Extends(before[r.writer.value], after[r.writer.value])
    ensures RemoteOk(after, more, i, r)
  {
    if r.writer.Some? {
      MadeGrows(before[r.writer.value].posts, after[r.writer.value].posts, i);
    }
  }

  lemma AllRemotesKept(w: World, cells: Cells)
    requires RemotesOk(w) && forall id :: id in w.cells ==> id in cells && Extends(w.cells[id], cells[id])
    ensures RemotesOk(w.(cells := cells))
  {
    forall i | i in w.remotes
      ensures RemoteOk(cells, w.outside, i, w.remotes[i])
    {
      assert RemoteOk(w.cells, w.outside, i, w.remotes[i]);
      RemoteKept(w.cells, cells, w.outside, w.outside, i, w.remotes[i]);
    }
  }

  lemma AdvanceTraced(w: World, id: Uuid, step: CellStep)
    requires CellsOk(w.cells) && Traced(w) && id in w.cells
    requires step.Searching? && step.search.Read? ==> forall i :: i in step.search.found ==> CarriesMarker(w, i, id)
    ensures Traced(Advance(w, id, step))
  {
    NextExtends(w.cells[id], step);
    AllRemotesKept(w, w.cells[id := Next(w.cells[id], step)]);
    if step.Searching? && step.search.Read? {
      forall i | i in step.search.found
        ensures Genuine(w.cells[id], w.outside, id, i)
      {
        CarrierIsGenuine(w, i, id);
      }
    }
    NextMatches(w.cells[id], step, w.outside, id);
  }

  lemma LinksDoNotMatter(v: World, links: Links)
    requires Traced(v)
    ensures Traced(v.(links := links))
  {
  }

  lemma OutsiderTraced(w: World, issue: Id, text: Option<string>, pullRequest: bool)
    requires CellsOk(w.cells) && Traced(w)
    ensures Traced(Apply(w, Outsider(issue, text, pullRequest)))
  {
    var v := Apply(w, Outsider(issue, text, pullRequest));
    assert w.outside <= v.outside;
    if text.Some? {
      assert v.outside[|w.outside|] == text.value;
    }
    forall i | i in v.remotes
      ensures RemoteOk(v.cells, v.outside, i, v.remotes[i])
    {
      if i != issue {
        assert RemoteOk(w.cells, w.outside, i, w.remotes[i]);
        RemoteKept(w.cells, w.cells, w.outside, v.outside, i, w.remotes[i]);
      }
    }
    forall id | id in v.cells
      ensures MatchesOk(v.cells[id], v.outside, id)
    {
      Unchanged(w.cells[id]);
      MatchesExtend(w.cells[id], v.cells[id], [], w.outside, v.outside, id);
    }
  }

  /** No issue on GitHub names a draft as its writer. */
  lemma DraftWroteNothing(w: World, i: Id, p: Uuid)
    requires CellsOk(w.cells) && Traced(w) && i in w.remotes && w.remotes[i].writer == Some(p)
    ensures p in w.cells && w.cells[p].op.state != State.Draft
  {
    assert RemoteOk(w.cells, w.outside, i, w.remotes[i]);
    assert CellInv(w.cells[p]);
  }

  lemma DropTraced(w: World, id: Uuid, now: Time)
    requires CellsOk(w.cells) && Traced(w)
    ensures Traced(Apply(w, DropDraft(id, now)))
  {
    var v := Apply(w, DropDraft(id, now));
    forall i | i in v.remotes
      ensures RemoteOk(v.cells, v.outside, i, v.remotes[i])
    {
      assert RemoteOk(w.cells, w.outside, i, w.remotes[i]);
      if w.remotes[i].writer.Some? {
        DraftWroteNothing(w, i, w.remotes[i].writer.value);
        Unchanged(w.cells[w.remotes[i].writer.value]);
      }
      RemoteKept(w.cells, v.cells, w.outside, w.outside, i, w.remotes[i]);
    }
  }

  lemma NewDraftTraced(w: World, step: Step)
    requires CellsOk(w.cells) && Traced(w) && step.NewDraft?
    ensures Traced(Apply(w, step))
  {
    var cells := Apply(w, step).cells;
    forall id | id in w.cells
      ensures id in cells && Extends(w.cells[id], cells[id])
    {
      Unchanged(w.cells[id]);
    }
    AllRemotesKept(w, cells);
  }

  lemma DropDraftsTraced(w: World, p: Id)
    requires CellsOk(w.cells) && Traced(w)
    ensures Traced(w.(cells := DropDrafts(w.cells, p)))
  {
    var cells := DropDrafts(w.cells, p);
    forall id | id in cells
      ensures Extends(w.cells[id], cells[id]) && MatchesOk(cells[id], w.outside, id)
    {
      DropDraftTraced(w, id);
      Unchanged(w.cells[id]);
    }
    AllRemotesKept(w, cells);
  }

  lemma LinkIssueTraced(w: World, p: Id, issue: Id, sameRepository: bool, replace: bool, row: Id)
    requires CellsOk(w.cells) && Traced(w)
    ensures Traced(DoLinkIssue(w, p, issue, sameRepository, replace, row))
  {
    DropDraftsTraced(w, p);
    LinksDoNotMatter(w.(cells := DropDrafts(w.cells, p)), DoLinkIssue(w, p, issue, sameRepository, replace, row).links);
  }

  lemma DropDraftTraced(w: World, id: Uuid)
    requires CellsOk(w.cells) && Traced(w) && id in w.cells
    ensures var d := Next(w.cells[id], CancelDraft); Extends(w.cells[id], d) && MatchesOk(d, w.outside, id)
  {
    assert CellInv(w.cells[id]) && MatchesOk(w.cells[id], w.outside, id);
    NextExtends(w.cells[id], CancelDraft);
    NextMatches(w.cells[id], CancelDraft, w.outside, id);
  }

  lemma PostTraced(w: World, id: Uuid, token: Token, made: Option<Id>)
    requires CellsOk(w.cells) && Traced(w) && id in w.cells
    ensures Traced(DoPost(w, id, token, made))
  {
    var c := w.cells[id];
    if token in c.workers && c.workers[token].pc.Verified? {
      AdvanceTraced(w, id, Work(token, Send(made)));
      if made.Some? && made.value !in w.remotes {
        PostedText(c, token, made.value);
        NewRemote(Advance(w, id, Work(token, Send(made))), made.value,
                  Remote(Some(ExactBody(id, c.workers[token].body)), false, Some(id)));
      }
    }
  }

  lemma PostedText(c: Cell, token: Token, made: Id)
    requires CellInv(c) && token in c.workers && c.workers[token].pc.Verified?
    ensures var d := Next(c, Work(token, Send(Some(made)))); Made(d.posts, made) && d.op.body == c.workers[token].body
  {
    var d := Next(c, Work(token, Send(Some(made))));
    assert d.posts[|c.posts|].made == Some(made);
    assert LiveOk(c.op, c.posts, c.workers[token]);
  }

  lemma NewRemote(v: World, i: Id, r: Remote)
    requires Traced(v) && RemoteOk(v.cells, v.outside, i, r)
    ensures Traced(v.(remotes := v.remotes[i := r]))
  {
  }

  lemma LinkCreatedTraced(w: World, id: Uuid, token: Token, broken: bool, sameRepository: bool, row: Id)
    requires CellsOk(w.cells) && Traced(w) && id in w.cells
    ensures Traced(DoLinkCreated(w, id, token, broken, sameRepository, row))
  {
    var c := w.cells[id];
    if token in c.workers && c.workers[token].pc.Stored? && row !in w.links {
      var (linking, links) := Recorder(w, c.op, c.workers[token].pc.issue, broken, !SameBinding(w, c.op), sameRepository, row);
      AdvanceTraced(w, id, Work(token, Finish(linking)));
      LinksDoNotMatter(Advance(w, id, Work(token, Finish(linking))), links);
    }
  }

  lemma LinkRecoveredTraced(w: World, id: Uuid, token: Token, broken: bool, sameRepository: bool, row: Id)
    requires CellsOk(w.cells) && Traced(w) && id in w.cells
    ensures Traced(DoLinkRecovered(w, id, token, broken, sameRepository, row))
  {
    var c := w.cells[id];
    if token in c.searches && !c.searches[token].finished && |c.searches[token].matches| == 1 && row !in w.links {
      var conflict := !SameBinding(w, c.op) || HasActive(w.links, c.op.problem);
      var (linking, links) := Recorder(w, c.op, c.searches[token].matches[0], broken, conflict, sameRepository, row);
      AdvanceTraced(w, id, Searching(token, Conclude(linking)));
      LinksDoNotMatter(Advance(w, id, Searching(token, Conclude(linking))), links);
    }
  }

  lemma OutsideTraced(w: World, step: Step)
    requires CellsOk(w.cells) && Traced(w) && (step.SetConnection? || step.SetVersion? || step.Outsider?)
    ensures Traced(Apply(w, step))
  {
    if step.Outsider? {
      OutsiderTraced(w, step.issue, step.text, step.pullRequest);
    }
  }

  lemma CreatedStepTraced(w: World, step: Step)
    requires CellsOk(w.cells) && Traced(w) && step.LinkCreated?
    ensures Traced(Apply(w, step))
  {
    if step.id in w.cells {
      LinkCreatedTraced(w, step.id, step.token, step.broken, step.sameRepository, step.row);
    }
  }

  lemma RecoveredStepTraced(w: World, step: Step)
    requires CellsOk(w.cells) && Traced(w) && step.LinkRecovered?
    ensures Traced(Apply(w, step))
  {
    if step.id in w.cells {
      LinkRecoveredTraced(w, step.id, step.token, step.broken, step.sameRepository, step.row);
    }
  }

  lemma LinkStepTraced(w: World, step: Step)
    requires CellsOk(w.cells) && Traced(w) && (step.LinkIssue? || step.PostIssue?)
    ensures Traced(Apply(w, step))
  {
    match step
    case LinkIssue(p, issue, same, replace, row) => LinkIssueTraced(w, p, issue, same, replace, row);
    case PostIssue(id, token, made) => if id in w.cells { PostTraced(w, id, token, made); }
  }

  lemma InnerTraced(w: World, step: Step)
    requires CellsOk(w.cells) && Traced(w)
    requires step.EditDraft? || step.ApproveDraft? || step.VerifyApproval? || step.ReadMatches? || step.Other?
    ensures Traced(Apply(w, step))
  {
    var one := Inner(w, step);
    if one.Some? {
      AdvanceTraced(w, one.value.0, one.value.1);
    }
  }

  lemma TracedStep(w: World, step: Step)
    requires CellsOk(w.cells) && Traced(w)
    ensures Traced(Apply(w, step))
  {
    if step.SetConnection? || step.SetVersion? || step.Outsider? {
      OutsideTraced(w, step);
    } else if step.NewDraft? {
      NewDraftTraced(w, step);
    } else if step.DropDraft? {
      DropTraced(w, step.id, step.now);
    } else if step.LinkIssue? || step.PostIssue? {
      LinkStepTraced(w, step);
    } else if step.LinkCreated? {
      CreatedStepTraced(w, step);
    } else if step.LinkRecovered? {
      RecoveredStepTraced(w, step);
    } else {
      InnerTraced(w, step);
    }
  }

  lemma {:induction false} RunTraced(w: World, steps: seq<Step>)
    requires CellsOk(w.cells) && Traced(w)
    ensures Traced(CreationWorlds.Run(w, steps))
    decreases |steps|
  {
    if steps != [] {
      CellsStep(w, steps[0]);
      TracedStep(w, steps[0]);
      RunTraced(Apply(w, steps[0]), steps[1..]);
    }
  }

  // ----- the theorems

  /** Whatever an operation linked, by itself or by recovery, is the one issue its POST made,
      unless somebody copied its marker. */
  lemma LinksTheLostIssue(w: World, id: Uuid, i: Id)
    requires Reachable(w) && id in w.cells && i in w.cells[id].linked && !Copied(w.outside, id)
    ensures Made(w.cells[id].posts, i) && forall j :: Made(w.cells[id].posts, j) ==> j == i
  {
    var steps :| Run(EMPTY, steps) == w;
    RunCellsOk(EMPTY, steps);
    RunTraced(EMPTY, steps);
    assert MatchesOk(w.cells[id], w.outside, id);
    OnlyOneMade(w.cells[id], i);
  }

  lemma OnlyOneMade(c: Cell, i: Id)
    requires CellInv(c) && Made(c.posts, i)
    ensures forall j :: Made(c.posts, j) ==> j == i
  {
    AtMostOnePost(c);
    var k :| 0 <= k < |c.posts| && c.posts[k].made == Some(i);
    forall j | Made(c.posts, j)
      ensures j == i
    {
      var l :| 0 <= l < |c.posts| && c.posts[l].made == Some(j);
    }
  }

  lemma CarrierExactly(w: World, id: Uuid, i: Id)
    requires CellsOk(w.cells) && Traced(w) && id in w.cells && i in w.remotes && !Copied(w.outside, id)
    ensures CarriesMarker(w, i, id) <==> w.remotes[i].writer == Some(id)
  {
    var r := w.remotes[i];
    assert RemoteOk(w.cells, w.outside, i, r);
    if r.writer.Some? {
      assert CellInv(w.cells[r.writer.value]);
      MarkerNamesItsOperation(r.writer.value, id, w.cells[r.writer.value].op.body);
    } else if r.body.Some? {
      var k :| 0 <= k < |w.outside| && w.outside[k] == r.body.value;
      assert !Contains(w.outside[k], MarkerFor(id));
    }
  }

  /** While nobody copied the marker, the issues that carry it are exactly those whose text the
      operation's POST wrote, and there is at most one: a search finds the lost issue alone. */
  lemma SearchFindsOnlyTheLost(w: World, id: Uuid, i: Id)
    requires Reachable(w) && id in w.cells && !Copied(w.outside, id)
    ensures CarriesMarker(w, i, id) <==> i in w.remotes && w.remotes[i].writer == Some(id)
    ensures CarriesMarker(w, i, id) ==> forall j :: CarriesMarker(w, j, id) ==> j == i
  {
    var steps :| Run(EMPTY, steps) == w;
    RunCellsOk(EMPTY, steps);
    RunTraced(EMPTY, steps);
    if i in w.remotes {
      CarrierExactly(w, id, i);
    }
    if CarriesMarker(w, i, id) {
      CarrierIsGenuine(w, i, id);
      OnlyOneMade(w.cells[id], i);
      forall j | CarriesMarker(w, j, id)
        ensures j == i
      {
        CarrierIsGenuine(w, j, id);
      }
    }
  }

  // ----- recovery succeeds

  /** What a listing of the repository shows: every issue once, as it is. */
  ghost predicate Lists(w: World, rows: seq<Row>) {
    && (forall k :: 0 <= k < |rows| ==>
          rows[k].issue in w.remotes && rows[k].pullRequest == w.remotes[rows[k].issue].pullRequest
          && rows[k].body == w.remotes[rows[k].issue].body)
    && (forall j, k :: 0 <= j < k < |rows| ==> rows[j].issue != rows[k].issue)
    && (forall i :: i in w.remotes ==> exists k :: 0 <= k < |rows| && rows[k].issue == i)
  }

  lemma {:induction false} NoneCarries(rows: seq<Row>, id: Uuid)
    requires forall k :: 0 <= k < |rows| ==> !Carries(rows[k], id)
    ensures Carrying(rows, id) == []
    decreases |rows|
  {
    if rows != [] {
      NoneCarries(rows[..|rows| - 1], id);
    }
  }

  lemma {:induction false} OneCarries(rows: seq<Row>, id: Uuid, k: nat)
    requires k < |rows| && Carries(rows[k], id)
    requires forall j :: 0 <= j < |rows| && j != k ==> !Carries(rows[j], id)
    ensures Carrying(rows, id) == [rows[k]]
    decreases |rows|
  {
    var most := rows[..|rows| - 1];
    if k == |rows| - 1 {
      NoneCarries(most, id);
    } else {
      OneCarries(most, id, k);
    }
  }

  /** While nobody copied the marker and the lost issue still has its text, reading the whole
      listing finds that issue and nothing else. */
  lemma ListingFindsTheLost(w: World, id: Uuid, i: Id, rows: seq<Row>)
    requires Reachable(w) && id in w.cells && !Copied(w.outside, id)
    requires i in w.remotes && w.remotes[i].writer == Some(id) && Lists(w, rows)
    ensures |Carrying(rows, id)| == 1 && Carrying(rows, id)[0].issue == i
    ensures CarriesMarker(w, i, id) && Made(w.cells[id].posts, i)
  {
    var k :| 0 <= k < |rows| && rows[k].issue == i;
    SearchFindsOnlyTheLost(w, id, i);
    forall j | 0 <= j < |rows| && j != k
      ensures !Carries(rows[j], id)
    {
      assert Carries(rows[j], id) ==> CarriesMarker(w, rows[j].issue, id);
    }
    OneCarries(rows, id, k);
    ReachableTraced(w);
    CarrierIsGenuine(w, i, id);
  }

  lemma ReachableTraced(w: World)
    requires Reachable(w)
    ensures CellsOk(w.cells) && Traced(w)
  {
    var steps :| Run(EMPTY, steps) == w;
    RunCellsOk(EMPTY, steps);
    RunTraced(EMPTY, steps);
  }

  /** What a conclusion does to the operation whose lease it holds. */
  lemma ConclusionOf(c: Cell, token: Token, i: Id, linking: Linking)
    requires CellInv(c) && HoldsSearch(c.op, token) && token in c.searches
    requires c.searches[token].matches == [i] && !c.searches[token].finished
    ensures var d := Next(c, Searching(token, Conclude(linking)));
            && (d.op.state == Succeeded <==> linking == Linked)
            && (linking == Linked ==> d.linked == [i] && d.op.remote == Some(i))
  {
    assert c.linked == [];
  }

  /** Whether recording the issue for its operation would be a conflict. */
  ghost predicate Conflict(w: World, o: Operation) {
    !SameBinding(w, o) || HasActive(w.links, o.problem)
  }

  lemma LinkRecoveredIs(w: World, id: Uuid, token: Token, i: Id, row: Id)
    requires id in w.cells && row !in w.links && token in w.cells[id].searches
    requires w.cells[id].searches[token].matches == [i] && !w.cells[id].searches[token].finished
    ensures var linking := Recorder(w, w.cells[id].op, i, false, Conflict(w, w.cells[id].op), true, row).0;
            var v := Apply(w, LinkRecovered(id, token, false, true, row));
            id in v.cells && v.cells[id] == Next(w.cells[id], Searching(token, Conclude(linking)))
  {
  }

  /** While a creation is unresolved its issue is recorded unless it has a row already. */
  lemma RecorderExactly(w: World, id: Uuid, i: Id, row: Id)
    requires Reachable(w) && id in w.cells && Unresolved(w.cells[id].op.state) && row !in w.links
    ensures Conflict(w, w.cells[id].op) <==> !SameBinding(w, w.cells[id].op)
    ensures Recorder(w, w.cells[id].op, i, false, Conflict(w, w.cells[id].op), true, row).0 == Linked
            <==> SameBinding(w, w.cells[id].op) && forall x :: x in w.links ==> w.links[x].issue != i
  {
    var o := w.cells[id].op;
    ReachableLinks(w, o.problem);
    assert UnresolvedFor(w.cells, id, o.problem);
    forall x | x in w.links
      ensures w.links[x].problem != o.problem
    {
      CreationExclusion.UnresolvedHasNoRows(w, id, x);
    }
    RefusedExactly(w.links, o.problem, i, w.connection.repository, true, true, row);
  }

  lemma ReachableLinks(w: World, p: Id)
    requires Reachable(w)
    ensures LinksOk(w.links) && !(HasUnresolved(w.cells, p) && HasActive(w.links, p))
  {
    var steps :| Run(EMPTY, steps) == w;
    CreationExclusion.RunExclusive(EMPTY, steps);
  }

  /** Recovery succeeds: the holder of an uncertain operation's lease that has read the lost
      issue links it, if and only if the binding is still the operation's and nobody linked that
      issue meanwhile. */
  lemma RecoveryLinksExactly(w: World, id: Uuid, token: Token, i: Id, row: Id)
    requires Reachable(w) && id in w.cells && HoldsSearch(w.cells[id].op, token) && row !in w.links
    requires token in w.cells[id].searches
    requires w.cells[id].searches[token].matches == [i] && !w.cells[id].searches[token].finished
    ensures var v := Apply(w, LinkRecovered(id, token, false, true, row));
            && id in v.cells
            && (v.cells[id].op.state == Succeeded
                <==> SameBinding(w, w.cells[id].op) && forall x :: x in w.links ==> w.links[x].issue != i)
            && (v.cells[id].op.state == Succeeded ==> v.cells[id].linked == [i] && v.cells[id].op.remote == Some(i))
  {
    var c := w.cells[id];
    ReachableTraced(w);
    RecorderExactly(w, id, i, row);
    LinkRecoveredIs(w, id, token, i, row);
    ConclusionOf(c, token, i, Recorder(w, c.op, i, false, Conflict(w, c.op), true, row).0);
  }

  /** The search holds its one match, and nothing else that matters to linking has changed. */
  lemma ReadIs(w: World, id: Uuid, token: Token, i: Id)
    requires id in w.cells && token in w.cells[id].searches && !w.cells[id].searches[token].finished
    requires w.cells[id].searches[token].matches == [] && CarriesMarker(w, i, id)
    ensures var v := Apply(w, ReadMatches(id, token, [i]));
            && id in v.cells && v.cells[id].op == w.cells[id].op && v.links == w.links && v.connection == w.connection
            && token in v.cells[id].searches && v.cells[id].searches[token] == w.cells[id].searches[token].(matches := [i])
  {
    assert Inner(w, ReadMatches(id, token, [i])) == Some((id, Searching(token, Read([i]))));
    assert [] + [i] == [i];
  }

  /** From the listing to the link: reading the listing finds the issue that the operation's POST
      made and nothing else, and the search then links it, if and only if the binding is still
      the operation's and nobody linked the issue meanwhile. */
  lemma LostIssueRecovered(w: World, id: Uuid, token: Token, i: Id, rows: seq<Row>, row: Id)
    requires Reachable(w) && id in w.cells && !Copied(w.outside, id) && HoldsSearch(w.cells[id].op, token)
    requires i in w.remotes && w.remotes[i].writer == Some(id) && Lists(w, rows)
    requires token in w.cells[id].searches && w.cells[id].searches[token].matches == [] && !w.cells[id].searches[token].finished
    requires row !in w.links
    ensures |Carrying(rows, id)| == 1
    ensures var found := [Carrying(rows, id)[0].issue];
            var v := Apply(Apply(w, ReadMatches(id, token, found)), LinkRecovered(id, token, false, true, row));
            && found == [i] && id in v.cells
            && (v.cells[id].op.state == Succeeded && v.cells[id].linked == [i]
                <==> SameBinding(w, w.cells[id].op) && forall x :: x in w.links ==> w.links[x].issue != i)
  {
    ListingFindsTheLost(w, id, i, rows);
    ReachableStep(w, ReadMatches(id, token, [i]));
    ReadIs(w, id, token, i);
    RecoveryLinksExactly(Apply(w, ReadMatches(id, token, [i])), id, token, i, row);
  }

  lemma {:induction false} RunSnoc(w: World, steps: seq<Step>, step: Step)
    ensures Run(w, steps + [step]) == Apply(Run(w, steps), step)
    decreases |steps|
  {
    if steps == [] {
      assert Run(Apply(w, step), []) == Apply(w, step);
      assert (steps + [step])[1..] == [];
    } else {
      assert (steps + [step])[1..] == steps[1..] + [step];
      RunSnoc(Apply(w, steps[0]), steps[1..], step);
    }
  }

  lemma ReachableStep(w: World, step: Step)
    requires Reachable(w)
    ensures Reachable(Apply(w, step))
  {
    var steps :| Run(EMPTY, steps) == w;
    RunSnoc(EMPTY, steps, step);
  }
}
