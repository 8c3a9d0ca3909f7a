/** The links between problems and GitHub issues, as record_created_issue changes them. */
module IssueLinks {
  import opened Common

  /** An EngineeringIssue row: `issue` is GitHub's id of the issue. */
  datatype Link = Link(problem: Id, issue: Id, repository: Id, active: bool)
  type Links = map<Id, Link>

  datatype Recording = Same | Recorded(links: Links) | Refused

  predicate ActiveFor(links: Links, r: Id, p: Id) {
    r in links && links[r].active && links[r].problem == p
  }

  ghost predicate HasActive(links: Links, p: Id) {
    exists r :: ActiveFor(links, r, p)
  }

  /** `.filter(problem=…, active=True).first()` */
  ghost function FindActive(links: Links, p: Id): (r: Option<Id>)
    ensures r.Some? ==> ActiveFor(links, r.value, p)
    ensures r.None? ==> !HasActive(links, p)
  {
    if HasActive(links, p) then
      var r :| ActiveFor(links, r, p);
      Some(r)
    else None
  }

  ghost function FindIssue(links: Links, issue: Id): (r: Option<Id>)
    ensures r.Some? ==> r.value in links && links[r.value].issue == issue
    ensures r.None? ==> forall x :: x in links ==> links[x].issue != issue
  {
    if exists x :: x in links && links[x].issue == issue then
      var x :| x in links && links[x].issue == issue;
      Some(x)
    else None
  }

  function Deactivate(links: Links, e: Option<Id>): Links
    requires e.Some? ==> e.value in links
  {
    if e.None? then links else links[e.value := links[e.value].(active := false)]
  }

  /** record_created_issue. A refusal rolls back what was deactivated before it. `row` is the
      key that a new row would get. */
  ghost function RecordIssue(links: Links, p: Id, issue: Id, repository: Id, sameRepository: bool, replace: bool, row: Id): Recording
    requires row !in links
  {
    var e := FindActive(links, p);
    if !sameRepository then Refused
    else if e.Some? && links[e.value].repository == repository && links[e.value].issue == issue then Same
    else if e.Some? && !replace then Refused
    else
      var l := Deactivate(links, e);
      var h := FindIssue(l, issue);
      if h.Some? && l[h.value].problem != p then Refused
      else if h.Some? then Recorded(l[h.value := l[h.value].(repository := repository, active := true)])
      else Recorded(l[row := Link(p, issue, repository, true)])
  }

  /** One row for each GitHub issue, and at most one active row for each problem. */
  ghost predicate LinksOk(links: Links) {
    && (forall r, s :: r in links && s in links && links[r].issue == links[s].issue ==> r == s)
    && (forall r, s, p :: ActiveFor(links, r, p) && ActiveFor(links, s, p) ==> r == s)
  }

  /** Rows are kept, each with its problem and its issue. */
  predicate RowsKept(before: Links, after: Links) {
    forall r :: r in before ==> r in after && after[r].problem == before[r].problem && after[r].issue == before[r].issue
  }

  lemma NoneActive(links: Links, p: Id)
    requires LinksOk(links)
    ensures var l := Deactivate(links, FindActive(links, p));
            && !HasActive(l, p) && l.Keys == links.Keys
            && (forall r :: r in l ==> l[r].issue == links[r].issue && l[r].problem == links[r].problem)
            && (forall r, q :: ActiveFor(l, r, q) ==> ActiveFor(links, r, q))
  {
    var e := FindActive(links, p);
    var l := Deactivate(links, e);
    forall r
      ensures !ActiveFor(l, r, p)
    {
      if ActiveFor(l, r, p) {
        assert ActiveFor(links, r, p);
      }
    }
  }

  /** One more active row, for a problem that has none. */
  lemma OneActiveEach(l: Links, after: Links, x: Id, p: Id)
    requires forall r, s, q :: ActiveFor(l, r, q) && ActiveFor(l, s, q) ==> r == s
    requires !HasActive(l, p) && after.Keys == l.Keys + {x} && after[x].problem == p
    requires forall r :: r in l && r != x ==> after[r] == l[r]
    ensures forall r, s, q :: ActiveFor(after, r, q) && ActiveFor(after, s, q) ==> r == s
  {
    forall r, s, q | ActiveFor(after, r, q) && ActiveFor(after, s, q)
      ensures r == s
    {
      assert r != x ==> ActiveFor(l, r, q);
      assert s != x ==> ActiveFor(l, s, q);
    }
  }

  /** Recording keeps the links consistent without help from the database's constraints. */
  lemma RecordKeepsLinks(links: Links, p: Id, issue: Id, repository: Id, sameRepository: bool, replace: bool, row: Id)
    requires LinksOk(links) && row !in links
    ensures var r := RecordIssue(links, p, issue, repository, sameRepository, replace, row);
            r.Recorded? ==> LinksOk(r.links) && RowsKept(links, r.links)
  {
    var r := RecordIssue(links, p, issue, repository, sameRepository, replace, row);
    if r.Recorded? {
      var l := Deactivate(links, FindActive(links, p));
      NoneActive(links, p);
      var x := if FindIssue(l, issue).Some? then FindIssue(l, issue).value else row;
      OneRowEach(links, l, r.links, x);
      OneActiveEach(l, r.links, x, p);
    }
  }

  lemma OneRowEach(links: Links, l: Links, after: Links, x: Id)
    requires LinksOk(links) && l.Keys == links.Keys && forall r :: r in l ==> l[r].issue == links[r].issue
    requires after.Keys == l.Keys + {x} && forall r :: r in l && r != x ==> after[r] == l[r]
    requires x in l ==> after[x].issue == l[x].issue
    requires x !in l ==> forall r :: r in l ==> l[r].issue != after[x].issue
    ensures forall r, s :: r in after && s in after && after[r].issue == after[s].issue ==> r == s
  {
  }

  /** After recording, the problem's one active row is the recorded issue's; every other
      problem's active rows are as before. */
  lemma RecordedIsActive(links: Links, p: Id, issue: Id, repository: Id, sameRepository: bool, replace: bool, row: Id)
    requires LinksOk(links) && row !in links
    ensures var r := RecordIssue(links, p, issue, repository, sameRepository, replace, row);
            && (r.Recorded? ==>
                  && (exists x :: ActiveFor(r.links, x, p) && r.links[x].issue == issue)
                  && (forall q, x :: q != p ==> (ActiveFor(r.links, x, q) <==> ActiveFor(links, x, q))))
            && (r.Same? ==> exists x :: ActiveFor(links, x, p) && links[x].issue == issue)
  {
    var r := RecordIssue(links, p, issue, repository, sameRepository, replace, row);
    var e := FindActive(links, p);
    if r.Recorded? {
      var l := Deactivate(links, e);
      var x := if FindIssue(l, issue).Some? then FindIssue(l, issue).value else row;
      assert ActiveFor(r.links, x, p);
    } else if r.Same? {
      assert ActiveFor(links, e.value, p);
    }
  }

  /** Recording is refused exactly when the issue is in another repository, the problem has
      another active issue that the member did not replace, or the issue has a row under
      another problem. */
  lemma RefusedExactly(links: Links, p: Id, issue: Id, repository: Id, sameRepository: bool, replace: bool, row: Id)
    requires LinksOk(links) && row !in links
    ensures RecordIssue(links, p, issue, repository, sameRepository, replace, row).Refused?
            <==> || !sameRepository
                 || (!replace && exists x :: ActiveFor(links, x, p) && !(links[x].issue == issue && links[x].repository == repository))
                 || (exists x :: x in links && links[x].issue == issue && links[x].problem != p)
  {
    var e := FindActive(links, p);
    var l := Deactivate(links, e);
    assert forall x :: x in links <==> x in l;
    assert forall x :: x in links ==> l[x].problem == links[x].problem && l[x].issue == links[x].issue;
    if e.Some? {
      assert forall x :: ActiveFor(links, x, p) ==> x == e.value;
    }
  }

  /** Nothing is recorded exactly when the issue is the problem's active one already. Otherwise
      the issue's row, or a new one, becomes active, the row that was active before no longer
      is, and no other row changes. */
  lemma RecordedExactly(links: Links, p: Id, issue: Id, repository: Id, replace: bool, row: Id)
    requires LinksOk(links) && row !in links
    ensures var r := RecordIssue(links, p, issue, repository, true, replace, row);
            && (r.Same? <==> exists x :: ActiveFor(links, x, p) && links[x].issue == issue && links[x].repository == repository)
            && (r.Recorded? ==> forall x :: x in r.links <==>
                  x in links || (x == row && forall y :: y in links ==> links[y].issue != issue))
            && (r.Recorded? ==> forall x :: x in r.links ==>
                  r.links[x] == if x !in links || links[x].issue == issue then Link(p, issue, repository, true)
                                else if ActiveFor(links, x, p) then links[x].(active := false) else links[x])
  {
    var r := RecordIssue(links, p, issue, repository, true, replace, row);
    var e := FindActive(links, p);
    var l := Deactivate(links, e);
    assert forall x :: ActiveFor(links, x, p) ==> e.Some? && x == e.value;
    assert forall x :: x in l <==> x in links;
    assert forall x :: x in l ==> l[x] == if ActiveFor(links, x, p) then links[x].(active := false) else links[x];
    if r.Recorded? {
      var h := FindIssue(l, issue);
      assert forall x :: x in links && links[x].issue == issue ==> h.Some? && x == h.value;
    }
  }

  // ----- the table as the source changes it

  class IssueTable {
    var links: Links

    constructor ()
      ensures links == map[]
    {
      links := map[];
    }

    method FindRow(p: Option<Id>, issue: Id) returns (r: Option<Id>)
      ensures r.Some? ==> r.value in links && Wanted(links[r.value], p, issue)
      ensures r.None? ==> forall x :: x in links ==> !Wanted(links[x], p, issue)
    {
      var left := links.Keys;
      while left != {}
        invariant left <= links.Keys
        invariant forall x :: x in links && x !in left ==> !Wanted(links[x], p, issue)
        decreases left
      {
        var x :| x in left;
        if Wanted(links[x], p, issue) {
          return Some(x);
        }
        left := left - {x};
      }
      return None;
    }

    /** record_created_issue inside its transaction: a refusal restores the table. */
    method RecordCreatedIssue(p: Id, issue: Id, repository: Id, sameRepository: bool, replace: bool, row: Id)
      returns (done: bool)
      requires LinksOk(links) && row !in links
      modifies this
      ensures var r := RecordIssue(old(links), p, issue, repository, sameRepository, replace, row);
              && (done <==> !r.Refused?)
              && links == if r.Recorded? then r.links else old(links)
      ensures LinksOk(links)
    {
      RecordKeepsLinks(links, p, issue, repository, sameRepository, replace, row);
      if !sameRepository {
        return false;
      }
      var saved := links;
      var existing := FindRow(Some(p), issue);
      OneFound(links, p, existing);
      if existing.Some? && links[existing.value].repository == repository && links[existing.value].issue == issue {
        return true;
      }
      if existing.Some? && !replace {
        return false;
      }
      if existing.Some? {
        links := links[existing.value := links[existing.value].(active := false)];
      }
      NoneActive(saved, p);
      var historical := FindRow(None, issue);
      OneHistorical(saved, links, issue, historical);
      if historical.Some? && links[historical.value].problem != p {
        links := saved;
        return false;
      }
      if historical.Some? {
        links := links[historical.value := links[historical.value].(repository := repository, active := true)];
      } else {
        links := links[row := Link(p, issue, repository, true)];
      }
      return true;
    }
  }

  /** The active row of problem `p`, or with no problem given the row of `issue`. */
  predicate Wanted(l: Link, p: Option<Id>, issue: Id) {
    if p.Some? then l.active && l.problem == p.value else l.issue == issue
  }

  lemma OneFound(links: Links, p: Id, found: Option<Id>)
    requires LinksOk(links)
    requires found.Some? ==> found.value in links && Wanted(links[found.value], Some(p), 0)
    requires found.None? ==> forall x :: x in links ==> !Wanted(links[x], Some(p), 0)
    ensures found == FindActive(links, p)
  {
    assert forall x :: ActiveFor(links, x, p) <==> x in links && Wanted(links[x], Some(p), 0);
    if found.Some? {
      assert ActiveFor(links, found.value, p);
    }
  }

  lemma OneHistorical(links: Links, l: Links, issue: Id, found: Option<Id>)
    requires LinksOk(links) && l.Keys == links.Keys && forall r :: r in l ==> l[r].issue == links[r].issue
    requires found.Some? ==> found.value in l && l[found.value].issue == issue
    requires found.None? ==> forall x :: x in l ==> l[x].issue != issue
    ensures found == FindIssue(l, issue)
  {
  }
}
