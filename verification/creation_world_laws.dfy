/** What each step of the creation world does, exactly: the conditions on the connection, the
    problem and its links under which a draft, an approval, a POST or a link goes ahead. */
module CreationWorldLaws {
  import opened Common
  import opened IssueMarkers
  import opened IssueLinks
  import opened IssueCreations
  import opened CreationWorlds

  /** No active issue and no unresolved creation. */
  ghost predicate Clear(w: World, p: Id) {
    && (forall r :: r in w.links ==> !(w.links[r].active && w.links[r].problem == p))
    && (forall id :: id in w.cells && w.cells[id].op.problem == p ==> w.cells[id].op.state !in {Queued, Running, Uncertain})
  }

  lemma ClearExactly(w: World, p: Id)
    ensures Clear(w, p) <==> !HasActive(w.links, p) && !HasUnresolved(w.cells, p)
  {
    forall r | r in w.links && w.links[r].active && w.links[r].problem == p
      ensures HasActive(w.links, p)
    {
      assert ActiveFor(w.links, r, p);
    }
    forall id | id in w.cells && w.cells[id].op.problem == p && w.cells[id].op.state in {Queued, Running, Uncertain}
      ensures HasUnresolved(w.cells, p)
    {
      assert UnresolvedFor(w.cells, id, p);
    }
  }

  function Version(w: World, p: Id): nat {
    if p in w.versions then w.versions[p] else 0
  }

  /** A preview is made, or made anew, exactly for a clear problem of an active connection, and
      freezes the problem's version and the connection's binding for fifteen minutes. */
  lemma NewDraftExactly(w: World, id: Uuid, p: Id, body: string, now: Time)
    requires id !in w.cells
    ensures Apply(w, NewDraft(id, p, body, now))
            == if w.connection.active && Clear(w, p) && |body| <= 10000 && !Contains(body, "<!-- rescribo-operation:")
               then w.(cells := w.cells[id := Cell(Operation(p, body, Version(w, p), w.connection.revision, w.connection.repository, 1,
                                                             now + 900, State.Draft, 0, now, None, None, None, false, "", 0),
                                                   map[], map[], [], [])])
               else w
  {
    ClearExactly(w, p);
  }

  lemma EditDraftExactly(w: World, id: Uuid, body: string, now: Time)
    requires id in w.cells
    ensures var o := w.cells[id].op;
            Apply(w, EditDraft(id, body, now))
            == if w.connection.active && Clear(w, o.problem) && |body| <= 10000 && !Contains(body, "<!-- rescribo-operation:")
                  && o.state == State.Draft && o.expiresAt > now
               then w.(cells := w.cells[id := w.cells[id].(
                         op := o.(body := body, draftVersion := o.draftVersion + 1, problemVersion := Version(w, o.problem),
                                  bindingRevision := w.connection.revision, repository := w.connection.repository,
                                  expiresAt := now + 900))])
               else w
  {
    ClearExactly(w, w.cells[id].op.problem);
    assert w.cells[id := w.cells[id]] == w.cells;
  }

  /** An approval queues exactly an unexpired draft at the version seen, of a problem and a binding
      that have not changed since and that are clear; an expired one it cancels. */
  lemma ApprovalExactly(w: World, id: Uuid, draftVersion: nat, now: Time)
    requires id in w.cells
    ensures var c := w.cells[id];
            Apply(w, ApproveDraft(id, draftVersion, now))
            == if c.op.state != State.Draft then w
               else if c.op.expiresAt <= now then w.(cells := w.cells[id := c.(op := c.op.(state := Cancelled))])
               else if c.op.draftVersion == draftVersion && Version(w, c.op.problem) == c.op.problemVersion && w.connection.active
                       && w.connection.revision == c.op.bindingRevision && w.connection.repository == c.op.repository
                       && Clear(w, c.op.problem)
               then w.(cells := w.cells[id := c.(op := c.op.(state := Queued, dueAt := now))])
               else w
  {
    ClearExactly(w, w.cells[id].op.problem);
  }

  /** The second check lets a worker post exactly while the approval still holds. */
  lemma VerifyExactly(w: World, id: Uuid, token: Token, requesterActive: bool)
    requires id in w.cells && token in w.cells[id].workers && w.cells[id].workers[token].pc.Claimed?
    ensures var c := w.cells[id];
            var holds := requesterActive && Version(w, c.op.problem) == c.op.problemVersion && w.connection.active
                         && w.connection.revision == c.op.bindingRevision && w.connection.repository == c.op.repository
                         && forall r :: r in w.links ==> !(w.links[r].active && w.links[r].problem == c.op.problem);
            var v := Apply(w, VerifyApproval(id, token, requesterActive));
            && v == w.(cells := w.cells[id := v.cells[id]])
            && (v.cells[id].workers[token].pc.Verified? <==> c.op.state == Running && c.op.lease == Some(token) && holds)
            && v.cells[id].op == if c.op.state == Running && c.op.lease == Some(token) && !holds
                                 then c.op.(state := Cancelled, lease := None, leaseExpires := None) else c.op
  {
    assert HasActive(w.links, w.cells[id].op.problem)
           <==> exists r :: r in w.links && w.links[r].active && w.links[r].problem == w.cells[id].op.problem by {
      if r :| r in w.links && w.links[r].active && w.links[r].problem == w.cells[id].op.problem {
        assert ActiveFor(w.links, r, w.cells[id].op.problem);
      }
    }
  }

  /** A POST makes at most the one issue it says, with the text that was claimed. */
  lemma PostExactly(w: World, id: Uuid, token: Token, made: Option<Id>)
    requires id in w.cells && token in w.cells[id].workers && w.cells[id].workers[token].pc.Verified?
    requires made.Some? ==> made.value !in w.remotes
    ensures var c, v := w.cells[id], Apply(w, PostIssue(id, token, made));
            && v.connection == w.connection && v.versions == w.versions && v.links == w.links && v.outside == w.outside
            && v.cells == w.cells[id := Next(c, Work(token, Send(made)))]
            && v.remotes == if made.None? then w.remotes
                            else w.remotes[made.value := Remote(Some(ExactBody(id, c.workers[token].body)), false, Some(id))]
  {
  }

  /** A member links an issue exactly for an active connection and a problem without an unresolved
      creation; the problem's drafts are cancelled with it. */
  lemma LinkIssueExactly(w: World, p: Id, issue: Id, same: bool, replace: bool, row: Id)
    requires row !in w.links
    ensures var v := Apply(w, LinkIssue(p, issue, same, replace, row));
            var r := RecordIssue(w.links, p, issue, w.connection.repository, same, replace, row);
            if w.connection.active && !r.Refused?
               && forall id :: id in w.cells && w.cells[id].op.problem == p ==> w.cells[id].op.state !in {Queued, Running, Uncertain}
            then
              && v == w.(cells := v.cells, links := if r.Recorded? then r.links else w.links)
              && v.cells.Keys == w.cells.Keys
              && forall id :: id in w.cells ==>
                   v.cells[id] == if w.cells[id].op.problem == p && w.cells[id].op.state == State.Draft
                                  then w.cells[id].(op := w.cells[id].op.(state := Cancelled)) else w.cells[id]
            else v == w
  {
    forall id | id in w.cells && w.cells[id].op.problem == p && w.cells[id].op.state in {Queued, Running, Uncertain}
      ensures HasUnresolved(w.cells, p)
    {
      assert UnresolvedFor(w.cells, id, p);
    }
  }

  /** A created issue is linked exactly under the lease and the operation's own binding, unless
      the recording is refused; a changed binding keeps it aside. */
  lemma LinkCreatedExactly(w: World, id: Uuid, token: Token, broken: bool, same: bool, row: Id)
    requires id in w.cells && token in w.cells[id].workers && w.cells[id].workers[token].pc.Stored? && row !in w.links
    ensures var c, v := w.cells[id], Apply(w, LinkCreated(id, token, broken, same, row));
            var issue := c.workers[token].pc.issue;
            var bound := w.connection.revision == c.op.bindingRevision && w.connection.repository == c.op.repository;
            var r := RecordIssue(w.links, c.op.problem, issue, w.connection.repository, same, true, row);
            var linking := if broken || (bound && r.Refused?) then Broken else if bound then Linked else Rebound;
            && v == w.(cells := w.cells[id := Next(c, Work(token, Finish(linking)))], links := v.links)
            && v.links == if linking == Linked && r.Recorded? && c.op.state == Running && c.op.lease == Some(token) then r.links else w.links
  {
  }

  /** A search reads exactly issues that carry the marker. */
  lemma ReadMatchesExactly(w: World, id: Uuid, token: Token, found: seq<Id>)
    requires id in w.cells
    ensures Apply(w, ReadMatches(id, token, found))
            == if forall i :: i in found ==>
                    && i in w.remotes && !w.remotes[i].pullRequest && w.remotes[i].body.Some?
                    && Contains(w.remotes[i].body.value, "<!-- rescribo-operation:" + id + " -->")
               then w.(cells := w.cells[id := Next(w.cells[id], Searching(token, Read(found)))])
               else w
  {
    assert MarkerFor(id) == "<!-- rescribo-operation:" + id + " -->";
  }

  /** A recovered issue is linked exactly when `Conclude` would link it without a conflict: under
      the operation's own binding, for a problem without an active issue, unless it is refused. */
  lemma LinkRecoveredExactly(w: World, id: Uuid, token: Token, broken: bool, same: bool, row: Id)
    requires id in w.cells && token in w.cells[id].searches && !w.cells[id].searches[token].finished
    requires |w.cells[id].searches[token].matches| == 1 && row !in w.links
    ensures var c, v := w.cells[id], Apply(w, LinkRecovered(id, token, broken, same, row));
            var clear := w.connection.revision == c.op.bindingRevision && w.connection.repository == c.op.repository
                         && forall r :: r in w.links ==> !(w.links[r].active && w.links[r].problem == c.op.problem);
            var r := RecordIssue(w.links, c.op.problem, c.searches[token].matches[0], w.connection.repository, same, true, row);
            var linking := if broken || (clear && r.Refused?) then Broken else if clear then Linked else Rebound;
            && v == w.(cells := w.cells[id := Next(c, Searching(token, Conclude(linking)))], links := v.links)
            && v.links == if linking == Linked && r.Recorded? && c.op.state == Uncertain && c.op.lease == Some(token) then r.links else w.links
  {
    assert HasActive(w.links, w.cells[id].op.problem)
           <==> exists r :: r in w.links && w.links[r].active && w.links[r].problem == w.cells[id].op.problem by {
      if r :| r in w.links && w.links[r].active && w.links[r].problem == w.cells[id].op.problem {
        assert ActiveFor(w.links, r, w.cells[id].op.problem);
      }
    }
  }

  /** The steps of outsiders and of the connection change what they name. */
  lemma OutsideExactly(w: World, connection: Connection, p: Id, version: nat, issue: Id, text: Option<string>, pull: bool)
    ensures Apply(w, SetConnection(connection)) == w.(connection := connection)
    ensures Apply(w, SetVersion(p, version)) == w.(versions := w.versions[p := version])
    ensures Apply(w, Outsider(issue, text, pull))
            == w.(remotes := w.remotes[issue := Remote(text, pull, None)],
                  outside := if text.Some? then w.outside + [text.value] else w.outside)
  {
  }
}
