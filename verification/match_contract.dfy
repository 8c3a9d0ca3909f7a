/** The check of a ranked response against the request that produced it. */
module MatchContract {
  import opened Common

  datatype Record = ProblemRecord | LinkedReportRecord

  datatype Reference = Reference(record: Record, id: Id)

  datatype Suggestion = Suggestion(problem: Id, score: real, features: set<string>, evidence: seq<Reference>)

  /** A candidate of the request, as far as the check needs it. */
  datatype Offer = Offer(id: Id, linked: set<Id>)

  datatype Complaint = NotACandidate | DuplicateSuggestion | UnknownFeature | EvidenceOutside | OutOfOrder

  // ----- rank order

  /** `(-score, id)` compared as Python compares tuples. */
  predicate NotAfter(a: Suggestion, b: Suggestion) {
    a.score > b.score || (a.score == b.score && a.problem <= b.problem)
  }

  predicate StrictlyBefore(a: Suggestion, b: Suggestion) {
    a.score > b.score || (a.score == b.score && a.problem < b.problem)
  }

  predicate Ordered(s: seq<Suggestion>) {
    forall i, j :: 0 <= i < j < |s| ==> NotAfter(s[i], s[j])
  }

  /** `sorted(...)` on the keys, which keeps equal keys in place. */
  function Sorted(s: seq<Suggestion>): seq<Suggestion> {
    if s == [] then [] else Insert(s[0], Sorted(s[1..]))
  }

  function Insert(x: Suggestion, s: seq<Suggestion>): seq<Suggestion> {
    if s == [] || NotAfter(x, s[0]) then [x] + s else [s[0]] + Insert(x, s[1..])
  }

  lemma {:induction false} InsertOrdered(x: Suggestion, s: seq<Suggestion>)
    requires Ordered(s)
    ensures Ordered(Insert(x, s)) && forall y :: y in Insert(x, s) ==> y == x || y in s
    decreases |s|
  {
    if s != [] && !NotAfter(x, s[0]) {
      InsertOrdered(x, s[1..]);
      var rest := Insert(x, s[1..]);
      forall i | 0 <= i < |rest|
        ensures NotAfter(s[0], rest[i])
      {
        assert rest[i] in rest;
        assert rest[i] == x || rest[i] in s[1..];
      }
    }
  }

  lemma {:induction false} SortedOrdered(s: seq<Suggestion>)
    ensures Ordered(Sorted(s))
    ensures Ordered(s) ==> Sorted(s) == s
    decreases |s|
  {
    if s != [] {
      SortedOrdered(s[1..]);
      InsertOrdered(s[0], Sorted(s[1..]));
      if Ordered(s) && |s| > 1 {
        assert NotAfter(s[0], s[1]);
      }
    }
  }

  function Keys(s: seq<Suggestion>): seq<(real, Id)> {
    seq(|s|, i requires 0 <= i < |s| => (s[i].score, s[i].problem))
  }

  /** The code compares the keys with the sorted keys; that is the same as being ordered. */
  lemma OrderedExactly(s: seq<Suggestion>)
    ensures Keys(s) == Keys(Sorted(s)) <==> Ordered(s)
  {
    SortedOrdered(s);
    if Keys(s) == Keys(Sorted(s)) {
      var t := Sorted(s);
      assert |Keys(s)| == |s| && |Keys(t)| == |t|;
      forall i, j | 0 <= i < j < |s|
        ensures NotAfter(s[i], s[j])
      {
        assert Keys(s)[i] == Keys(t)[i] && Keys(s)[j] == Keys(t)[j];
        assert NotAfter(t[i], t[j]);
      }
    }
  }

  // ----- the check

  predicate OffersOk(offers: seq<Offer>) {
    forall i, j :: 0 <= i < j < |offers| ==> offers[i].id != offers[j].id
  }

  predicate Backed(r: Reference, problem: Id, linked: set<Id>) {
    match r.record
    case ProblemRecord => r.id == problem
    case LinkedReportRecord => r.id in linked
  }

  ghost predicate Proper(x: Suggestion, offers: seq<Offer>, names: set<string>) {
    && x.features <= names
    && exists o :: o in offers && o.id == x.problem && forall r :: r in x.evidence ==> Backed(r, x.problem, o.linked)
  }

  /** What a ranked response must satisfy. */
  ghost predicate Acceptable(s: seq<Suggestion>, offers: seq<Offer>, names: set<string>) {
    && (forall i :: 0 <= i < |s| ==> Proper(s[i], offers, names))
    && (forall i, j :: 0 <= i < j < |s| ==> s[i].problem != s[j].problem)
    && Ordered(s)
  }

  /** Accepted ranks are 1 to n over distinct candidates, by falling score and then id. */
  lemma AcceptableIsStrict(s: seq<Suggestion>, offers: seq<Offer>, names: set<string>)
    requires Acceptable(s, offers, names)
    ensures forall i, j :: 0 <= i < j < |s| ==> StrictlyBefore(s[i], s[j])
    ensures forall x :: x in s ==> exists o :: o in offers && o.id == x.problem
  {
    forall i, j | 0 <= i < j < |s|
      ensures StrictlyBefore(s[i], s[j])
    {
      assert NotAfter(s[i], s[j]) && s[i].problem != s[j].problem;
    }
    forall x | x in s
      ensures exists o :: o in offers && o.id == x.problem
    {
      var i :| 0 <= i < |s| && s[i] == x;
      assert Proper(x, offers, names);
    }
  }

  /** Falling scores with rising ids leave no choice: two acceptable responses with the same
      scored candidates are the same ranking. */
  lemma {:induction false} RankingUnique(s: seq<Suggestion>, t: seq<Suggestion>)
    requires forall i, j :: 0 <= i < j < |s| ==> StrictlyBefore(s[i], s[j])
    requires forall i, j :: 0 <= i < j < |t| ==> StrictlyBefore(t[i], t[j])
    requires forall x :: x in s <==> x in t
    ensures s == t
    decreases |s|
  {
    assert t == [] || t[0] in t;
    if s != [] {
      assert s[0] in t && t != [] && t[0] in s;
      assert s[0] == t[0];
      forall x
        ensures x in s[1..] <==> x in t[1..]
      {
        if x in s[1..] {
          assert x in s && x in t && x != t[0];
        }
        if x in t[1..] {
          assert x in t && x in s && x != s[0];
        }
      }
      RankingUnique(s[1..], t[1..]);
    }
  }

  method FindOffer(offers: seq<Offer>, id: Id) returns (o: Option<Offer>)
    ensures o.Some? ==> o.value in offers && o.value.id == id
    ensures o.None? ==> forall x :: x in offers ==> x.id != id
  {
    for k := 0 to |offers|
      invariant forall j :: 0 <= j < k ==> offers[j].id != id
    {
      if offers[k].id == id {
        return Some(offers[k]);
      }
    }
    return None;
  }

  /** _check_suggestions: no complaint exactly when the response is acceptable. */
  method CheckSuggestions(s: seq<Suggestion>, offers: seq<Offer>, names: set<string>) returns (r: Option<Complaint>)
    requires OffersOk(offers)
    ensures r.None? <==> Acceptable(s, offers, names)
  {
    var seen: set<Id> := {};
    for k := 0 to |s|
      invariant forall i :: 0 <= i < k ==> s[i].problem in seen && Proper(s[i], offers, names)
      invariant forall p :: p in seen ==> exists i :: 0 <= i < k && s[i].problem == p
      invariant forall i, j :: 0 <= i < j < k ==> s[i].problem != s[j].problem
    {
      var x := s[k];
      var o := FindOffer(offers, x.problem);
      if o.None? {
        assert !Proper(x, offers, names);
        return Some(NotACandidate);
      }
      if x.problem in seen {
        return Some(DuplicateSuggestion);
      }
      seen := seen + {x.problem};
      if !(x.features <= names) {
        assert !Proper(x, offers, names);
        return Some(UnknownFeature);
      }
      for e := 0 to |x.evidence|
        invariant forall i :: 0 <= i < e ==> Backed(x.evidence[i], x.problem, o.value.linked)
      {
        var reference := x.evidence[e];
        var valid := if reference.record.ProblemRecord? then reference.id == x.problem else reference.id in o.value.linked;
        if !valid {
          assert reference in x.evidence && !Backed(reference, x.problem, o.value.linked);
          OnlyOffer(offers, o.value, x, names);
          return Some(EvidenceOutside);
        }
      }
      assert Proper(x, offers, names);
    }
    OrderedExactly(s);
    if Keys(s) != Keys(Sorted(s)) {
      return Some(OutOfOrder);
    }
    return None;
  }

  /** One candidate has each id, so evidence outside it is outside every candidate. */
  lemma OnlyOffer(offers: seq<Offer>, o: Offer, x: Suggestion, names: set<string>)
    requires OffersOk(offers) && o in offers && o.id == x.problem
    requires exists r :: r in x.evidence && !Backed(r, x.problem, o.linked)
    ensures !Proper(x, offers, names)
  {
  }
}
