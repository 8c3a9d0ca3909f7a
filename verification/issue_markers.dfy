/** The operation marker in a created issue's body, and the search for it. */
module IssueMarkers {
  import opened Common
  import opened PythonStrings

  predicate UuidChar(c: char) {
    '0' <= c <= '9' || 'a' <= c <= 'f' || c == '-'
  }

  /** A UUID as Python prints it. */
  type Uuid = s: string | |s| == 36 && (forall i :: 0 <= i < |s| ==> UuidChar(s[i]))
    witness "00000000-0000-0000-0000-000000000000"

  const MARKER_PREFIX := "<!-- rescribo-operation:"
  const MARKER_END := " -->"

  function MarkerFor(id: Uuid): string {
    MARKER_PREFIX + id + MARKER_END
  }

  // ----- Python's string operations

  predicate OccursAt(s: string, t: string, i: nat) {
    i + |t| <= |s| && s[i..i + |t|] == t
  }

  /** `t in s` */
  predicate Contains(s: string, t: string) {
    exists i :: 0 <= i <= |s| && OccursAt(s, t, i)
  }

  /** `s.replace(t, "")` */
  function RemoveAll(s: string, t: string): string
    requires t != ""
    decreases |s|
  {
    if s == "" then ""
    else if OccursAt(s, t, 0) then RemoveAll(s[|t|..], t)
    else [s[0]] + RemoveAll(s[1..], t)
  }

  /** exact_body */
  function ExactBody(id: Uuid, body: string): string {
    var clean := Rstrip(RemoveAll(body, MarkerFor(id)));
    if clean == "" then MarkerFor(id) else clean + "\n\n" + MarkerFor(id)
  }

  /** What create_draft accepts. */
  predicate AcceptedBody(body: string) {
    |body| <= 10000 && !Contains(body, MARKER_PREFIX)
  }

  // ----- the marker of one operation occurs in no other's body

  lemma MarkerShape(id: Uuid)
    ensures |MarkerFor(id)| == 64
    ensures OccursAt(MarkerFor(id), MARKER_PREFIX, 0)
    ensures forall i :: 0 <= i < 64 ==> MarkerFor(id)[i] != '\n'
    ensures MarkerFor(id)[24..60] == id
  {
    assert |MARKER_PREFIX| == 24 && |MARKER_END| == 4;
    var m := MarkerFor(id);
    assert m[..24] == MARKER_PREFIX && m[60..] == MARKER_END;
    forall i | 0 <= i < 64
      ensures m[i] != '\n'
    {
      if i < 24 {
        assert m[i] == MARKER_PREFIX[i];
      } else if i < 60 {
        assert m[i] == id[i - 24];
      } else {
        assert m[i] == MARKER_END[i - 60];
      }
    }
  }

  /** An occurrence inside a part is an occurrence in the whole. */
  lemma OccursWithin(s: string, t: string, u: string, i: nat, j: nat)
    requires OccursAt(s, t, i) && OccursAt(t, u, j)
    ensures OccursAt(s, u, i + j)
  {
    forall k | 0 <= k < |u|
      ensures s[i + j + k] == u[k]
    {
      assert s[i..i + |t|][j + k] == t[j + k] == t[j..j + |u|][k];
    }
    assert s[i + j..i + j + |u|] == u;
  }

  lemma OccursInPrefix(a: string, b: string, t: string, i: nat)
    requires a <= b && i + |t| <= |a|
    ensures OccursAt(a, t, i) <==> OccursAt(b, t, i)
  {
    assert a[i..i + |t|] == b[i..i + |t|];
  }

  lemma OccursInTail(s: string, t: string, i: nat)
    requires s != "" && OccursAt(s[1..], t, i)
    ensures OccursAt(s, t, i + 1)
  {
    assert s[1..][i..i + |t|] == s[i + 1..i + 1 + |t|];
  }

  lemma NoNewlineInMarker(s: string, q: Uuid, i: nat, j: nat)
    requires OccursAt(s, MarkerFor(q), i) && i <= j < i + 64 <= |s|
    ensures s[j] != '\n'
  {
    MarkerShape(q);
    assert s[j] == s[i..i + 64][j - i];
  }

  lemma {:induction false} RemoveNothing(s: string, t: string)
    requires t != "" && !Contains(s, t)
    ensures RemoveAll(s, t) == s
    decreases |s|
  {
    if s != "" {
      assert !OccursAt(s, t, 0);
      forall i | 0 <= i <= |s| - 1
        ensures !OccursAt(s[1..], t, i)
      {
        if OccursAt(s[1..], t, i) {
          OccursInTail(s, t, i);
        }
      }
      RemoveNothing(s[1..], t);
    }
  }

  lemma NoMarkerInBody(body: string, id: Uuid)
    requires !Contains(body, MARKER_PREFIX)
    ensures !Contains(body, MarkerFor(id))
  {
    MarkerShape(id);
    forall i | 0 <= i <= |body|
      ensures !OccursAt(body, MarkerFor(id), i)
    {
      if OccursAt(body, MarkerFor(id), i) {
        OccursWithin(body, MarkerFor(id), MARKER_PREFIX, i, 0);
      }
    }
  }

  /** The clean part of an accepted body holds no marker prefix either. */
  lemma CleanPart(id: Uuid, body: string) returns (clean: string)
    requires AcceptedBody(body)
    ensures clean <= body && !Contains(clean, MARKER_PREFIX)
    ensures ExactBody(id, body) == if clean == "" then MarkerFor(id) else clean + "\n\n" + MarkerFor(id)
  {
    NoMarkerInBody(body, id);
    MarkerShape(id);
    RemoveNothing(body, MarkerFor(id));
    clean := Rstrip(body);
    forall i | 0 <= i <= |clean|
      ensures !OccursAt(clean, MARKER_PREFIX, i)
    {
      if OccursAt(clean, MARKER_PREFIX, i) {
        OccursInPrefix(clean, body, MARKER_PREFIX, i);
      }
    }
  }

  /** A marker can occur only where the body's own marker stands. */
  lemma MarkerPlace(clean: string, p: Uuid, q: Uuid, i: nat)
    requires !Contains(clean, MARKER_PREFIX)
    requires OccursAt(clean + "\n\n" + MarkerFor(p), MarkerFor(q), i)
    ensures i == |clean| + 2
  {
    var s := clean + "\n\n" + MarkerFor(p);
    MarkerShape(p);
    MarkerShape(q);
    OccursWithin(s, MarkerFor(q), MARKER_PREFIX, i, 0);
    if i + 64 <= |clean| {
      OccursInPrefix(clean, s, MARKER_PREFIX, i);
    } else if i <= |clean| + 1 {
      NoNewlineInMarker(s, q, i, if i <= |clean| then |clean| else |clean| + 1);
    }
  }

  lemma SameMarker(p: Uuid, q: Uuid)
    requires MarkerFor(p) == MarkerFor(q)
    ensures p == q
  {
    MarkerShape(p);
    MarkerShape(q);
  }

  lemma OwnMarker(s: string, m: string)
    ensures Contains(s + m, m)
  {
    assert OccursAt(s + m, m, |s|);
  }

  lemma FoundMarker(p: Uuid, q: Uuid, body: string)
    requires AcceptedBody(body) && Contains(ExactBody(p, body), MarkerFor(q))
    ensures p == q
  {
    var clean := CleanPart(p, body);
    var posted := ExactBody(p, body);
    MarkerShape(p);
    MarkerShape(q);
    var i :| 0 <= i <= |posted| && OccursAt(posted, MarkerFor(q), i);
    if clean == "" {
      assert i == 0 && posted[0..64] == posted;
    } else {
      MarkerPlace(clean, p, q, i);
      assert posted[i..i + 64] == MarkerFor(p);
    }
    SameMarker(p, q);
  }

  /** The body posted for operation `p` contains the marker of `q` exactly when they are one. */
  lemma MarkerNamesItsOperation(p: Uuid, q: Uuid, body: string)
    requires AcceptedBody(body)
    ensures Contains(ExactBody(p, body), MarkerFor(q)) <==> p == q
  {
    if p == q {
      var clean := CleanPart(p, body);
      OwnMarker(if clean == "" then "" else clean + "\n\n", MarkerFor(p));
      assert "" + MarkerFor(p) == MarkerFor(p);
    } else if Contains(ExactBody(p, body), MarkerFor(q)) {
      FoundMarker(p, q, body);
    }
  }

  // ----- searching the repository

  /** A row of GitHub's issue listing; a pull request is listed too, and a body may be null. */
  datatype Row = Row(issue: Id, pullRequest: bool, body: Option<string>)
  datatype Page = Page(rows: seq<Row>, hasNext: bool)

  predicate Carries(row: Row, id: Uuid) {
    !row.pullRequest && row.body.Some? && Contains(row.body.value, MarkerFor(id))
  }

  function Carrying(rows: seq<Row>, id: Uuid): seq<Row> {
    if rows == [] then []
    else if Carries(rows[|rows| - 1], id) then Carrying(rows[..|rows| - 1], id) + [rows[|rows| - 1]]
    else Carrying(rows[..|rows| - 1], id)
  }

  /** A row matches when it is an issue whose body has the operation's marker somewhere. */
  lemma CarriesExactly(row: Row, id: Uuid)
    ensures Carries(row, id)
            <==> !row.pullRequest && row.body.Some?
                 && exists a, b :: row.body.value == a + ("<!-- rescribo-operation:" + id + " -->") + b
  {
    var m := "<!-- rescribo-operation:" + id + " -->";
    assert MarkerFor(id) == m;
    if row.body.Some? {
      var s := row.body.value;
      if i :| 0 <= i <= |s| && OccursAt(s, m, i) {
        assert s == s[..i] + m + s[i + |m|..];
      }
      if a, b :| s == a + m + b {
        assert s[|a|..|a| + |m|] == m && OccursAt(s, m, |a|);
      }
    }
  }

  lemma {:induction false} CarryingExact(rows: seq<Row>, id: Uuid, row: Row)
    ensures row in Carrying(rows, id) <==> row in rows && Carries(row, id)
    decreases |rows|
  {
    if rows != [] {
      CarryingExact(rows[..|rows| - 1], id, row);
      assert rows == rows[..|rows| - 1] + [rows[|rows| - 1]];
    }
  }

  lemma {:induction false} CarryingConcat(a: seq<Row>, b: seq<Row>, id: Uuid)
    ensures Carrying(a + b, id) == Carrying(a, id) + Carrying(b, id)
    decreases |b|
  {
    if b == [] {
      assert a + b == a && Carrying(a, id) + [] == Carrying(a, id);
    } else {
      var n := |b| - 1;
      CarryingConcat(a, b[..n], id);
      assert (a + b)[..|a + b| - 1] == a + b[..n];
    }
  }

  const MAX_PAGES := 1000

  /** Every row of the first `n` pages. */
  function RowsUpTo(listing: nat -> Page, n: nat): seq<Row> {
    if n == 0 then [] else RowsUpTo(listing, n - 1) + listing(n).rows
  }

  /** One page's matches, added to those found so far. */
  method SearchPage(rows: seq<Row>, id: Uuid, before: seq<Row>) returns (found: seq<Row>)
    ensures found == before + Carrying(rows, id)
  {
    found := before;
    var i := 0;
    while i < |rows|
      invariant i <= |rows| && found == before + Carrying(rows[..i], id)
    {
      assert rows[..i + 1][..i] == rows[..i];
      if !rows[i].pullRequest {
        if rows[i].body.Some? && Contains(rows[i].body.value, MarkerFor(id)) {
          found := found + [rows[i]];
        }
      }
      i := i + 1;
    }
    assert rows[..i] == rows;
  }

  /** The paging loop of _recover: every matching row of the `pages` read, or an error when the
      listing has more than 1000 pages. */
  method SearchListing(listing: nat -> Page, id: Uuid) returns (matches: Option<seq<Row>>, pages: nat)
    ensures 1 <= pages <= 1000 && forall k :: 1 <= k < pages ==> listing(k).hasNext
    ensures matches.Some? <==> !listing(pages).hasNext
    ensures matches.None? ==> pages == 1000
    ensures matches.Some? ==> matches.value == Carrying(RowsUpTo(listing, pages), id)
  {
    var found: seq<Row> := [];
    var page := 1;
    while true
      invariant 1 <= page <= MAX_PAGES
      invariant forall k :: 1 <= k < page ==> listing(k).hasNext
      invariant found == Carrying(RowsUpTo(listing, page - 1), id)
      decreases MAX_PAGES - page
    {
      CarryingConcat(RowsUpTo(listing, page - 1), listing(page).rows, id);
      found := SearchPage(listing(page).rows, id, found);
      if !listing(page).hasNext {
        return Some(found), page;
      }
      page := page + 1;
      if page > MAX_PAGES {
        return None, page - 1;
      }
    }
  }
}
