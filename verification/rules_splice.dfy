/** Inserting pieces into a list of lines, last position first. */
module RulesSplices {
  import opened RulesBlocks

  datatype Splice = Splice(at: nat, piece: Text)

  predicate Within(s: seq<Splice>, n: nat) {
    forall i :: 0 <= i < |s| ==> s[i].at <= n
  }

  predicate Descending(s: seq<Splice>) {
    forall i, j :: 0 <= i < j < |s| ==> s[i].at >= s[j].at
  }

  /** `final_lines[position:position] = piece` for each splice in turn. */
  function ApplySplices(lines: Text, s: seq<Splice>): (r: Text)
    requires Within(s, |lines|)
    ensures |r| >= |lines|
  {
    if s == [] then lines
    else
      var before := ApplySplices(lines, s[..|s| - 1]);
      var x := s[|s| - 1];
      before[..x.at] + x.piece + before[x.at..]
  }

  /** `sorted(splices, key=position, reverse=True)`, which keeps equal positions in order. */
  function StableDesc(s: seq<Splice>): seq<Splice> {
    if s == [] then [] else InsertDesc(s[0], StableDesc(s[1..]))
  }

  function InsertDesc(x: Splice, s: seq<Splice>): seq<Splice> {
    if s == [] || s[0].at <= x.at then [x] + s else [s[0]] + InsertDesc(x, s[1..])
  }

  // ----- what ends up before each original line

  function PiecesAt(s: seq<Splice>, i: nat): Text {
    if s == [] then []
    else if s[|s| - 1].at == i then s[|s| - 1].piece + PiecesAt(s[..|s| - 1], i)
    else PiecesAt(s[..|s| - 1], i)
  }

  function Slots(s: seq<Splice>, n: nat): (r: seq<Text>)
    ensures |r| == n + 1 && forall i :: 0 <= i <= n ==> r[i] == PiecesAt(s, i)
  {
    seq(n + 1, i requires 0 <= i <= n => PiecesAt(s, i))
  }

  /** The lines with `slots[i]` inserted before line `i`, and the last slot at the end. */
  function Weave(lines: Text, slots: seq<Text>): (r: Text)
    requires |slots| == |lines| + 1
    ensures |r| >= |lines|
  {
    if lines == [] then slots[0] else slots[0] + [lines[0]] + Weave(lines[1..], slots[1..])
  }

  /** As `Weave`, without a slot after the last line. */
  function WeaveTo(lines: Text, slots: seq<Text>): Text
    requires |slots| == |lines|
  {
    if lines == [] then [] else slots[0] + [lines[0]] + WeaveTo(lines[1..], slots[1..])
  }

  /** The lines of `a` appear in `b`, in order. */
  predicate Subsequence(a: Text, b: Text) {
    || a == []
    || (b != [] && ((a[0] == b[0] && Subsequence(a[1..], b[1..])) || Subsequence(a, b[1..])))
  }

  lemma {:induction false} SubsequenceAfter(a: Text, prefix: Text, b: Text)
    requires Subsequence(a, b)
    ensures Subsequence(a, prefix + b)
    decreases |prefix|
  {
    if prefix == [] {
      assert prefix + b == b;
    } else {
      SubsequenceAfter(a, prefix[1..], b);
      assert (prefix + b)[1..] == prefix[1..] + b;
    }
  }

  lemma {:induction false} WeaveKeepsLines(lines: Text, slots: seq<Text>)
    requires |slots| == |lines| + 1
    ensures Subsequence(lines, Weave(lines, slots))
    decreases |lines|
  {
    if lines != [] {
      var rest := Weave(lines[1..], slots[1..]);
      WeaveKeepsLines(lines[1..], slots[1..]);
      assert ([lines[0]] + rest)[1..] == rest;
      SubsequenceAfter(lines, slots[0], [lines[0]] + rest);
      assert slots[0] + ([lines[0]] + rest) == slots[0] + [lines[0]] + rest;
    }
  }

  function Spliced(w: Text, p: nat, piece: Text): Text
    requires p <= |w|
  {
    w[..p] + piece + w[p..]
  }

  lemma SplicedCons(line: string, rest: Text, p: nat, q: nat, piece: Text)
    requires q <= |rest| && p == q + 1
    ensures Spliced([line] + rest, p, piece) == [line] + Spliced(rest, q, piece)
  {
    assert ([line] + rest)[..p] == [line] + rest[..q];
    assert ([line] + rest)[p..] == rest[q..];
  }

  lemma WeaveFirst(lines: Text, slots: seq<Text>, piece: Text)
    requires |slots| == |lines| + 1
    ensures Spliced(Weave(lines, slots), 0, piece) == Weave(lines, slots[0 := piece + slots[0]])
  {
    var w, gets := Weave(lines, slots), slots[0 := piece + slots[0]];
    assert Spliced(w, 0, piece) == piece + w;
    if lines != [] {
      var rest := Weave(lines[1..], slots[1..]);
      assert gets[1..] == slots[1..];
      assert piece + (slots[0] + [lines[0]] + rest) == (piece + slots[0]) + [lines[0]] + rest;
    }
  }

  lemma {:induction false} WeaveInsert(lines: Text, slots: seq<Text>, p: nat, piece: Text)
    requires |slots| == |lines| + 1 && p <= |lines|
    requires forall j :: 0 <= j < p ==> slots[j] == []
    ensures Spliced(Weave(lines, slots), p, piece) == Weave(lines, slots[p := piece + slots[p]])
    decreases |lines|
  {
    if p == 0 {
      WeaveFirst(lines, slots, piece);
    } else {
      var tail, q := slots[1..], p - 1;
      var rest, gets := Weave(lines[1..], tail), slots[p := piece + slots[p]];
      WeaveInsert(lines[1..], tail, q, piece);
      assert gets[1..] == tail[q := piece + tail[q]];
      SplicedCons(lines[0], rest, p, q, piece);
      assert slots[0] == [] && Weave(lines, slots) == [lines[0]] + rest;
    }
  }

  lemma {:induction false} ApplyIsWeave(lines: Text, s: seq<Splice>)
    requires Within(s, |lines|) && Descending(s)
    ensures ApplySplices(lines, s) == Weave(lines, Slots(s, |lines|))
    decreases |s|
  {
    var n := |lines|;
    if s == [] {
      WeaveNothing(lines, Slots(s, n));
    } else {
      var t, x := s[..|s| - 1], s[|s| - 1];
      ApplyIsWeave(lines, t);
      forall j | 0 <= j < x.at
        ensures PiecesAt(t, j) == []
      {
        NoPieces(t, j);
      }
      WeaveInsert(lines, Slots(t, n), x.at, x.piece);
      forall i | 0 <= i <= n
        ensures Slots(t, n)[x.at := x.piece + Slots(t, n)[x.at]][i] == Slots(s, n)[i]
      {
        assert Slots(s, n)[i] == PiecesAt(s, i) && Slots(t, n)[i] == PiecesAt(t, i);
      }
      assert Slots(t, n)[x.at := x.piece + Slots(t, n)[x.at]] == Slots(s, n);
    }
  }

  lemma {:induction false} NoPieces(s: seq<Splice>, i: nat)
    requires forall j :: 0 <= j < |s| ==> s[j].at != i
    ensures PiecesAt(s, i) == []
    decreases |s|
  {
    if s != [] {
      NoPieces(s[..|s| - 1], i);
    }
  }

  lemma {:induction false} WeaveNothing(lines: Text, slots: seq<Text>)
    requires |slots| == |lines| + 1 && forall j :: 0 <= j < |slots| ==> slots[j] == []
    ensures Weave(lines, slots) == lines
    decreases |lines|
  {
    if lines != [] {
      WeaveNothing(lines[1..], slots[1..]);
    }
  }

  // ----- the stable sort keeps what each line gets

  function AppendedAt(t: Text, x: Splice, i: nat): Text {
    if x.at == i then t + x.piece else t
  }

  lemma {:induction false} PiecesCons(x: Splice, s: seq<Splice>, i: nat)
    ensures PiecesAt([x] + s, i) == AppendedAt(PiecesAt(s, i), x, i)
    decreases |s|
  {
    var all := [x] + s;
    if s == [] {
      assert all[..0] == [] && PiecesAt([], i) == [];
      assert x.piece + [] == x.piece == [] + x.piece;
    } else {
      assert all[..|all| - 1] == [x] + s[..|s| - 1] && all[|all| - 1] == s[|s| - 1];
      PiecesCons(x, s[..|s| - 1], i);
      var last, rest := s[|s| - 1].piece, PiecesAt(s[..|s| - 1], i);
      assert (last + rest) + x.piece == last + (rest + x.piece);
    }
  }

  lemma {:induction false} InsertSorted(x: Splice, s: seq<Splice>, n: nat)
    requires Descending(s) && Within(s, n) && x.at <= n
    ensures Descending(InsertDesc(x, s)) && Within(InsertDesc(x, s), n)
    ensures forall y :: y in InsertDesc(x, s) ==> y == x || y in s
    decreases |s|
  {
    if s != [] && s[0].at > x.at {
      InsertSorted(x, s[1..], n);
      var rest := InsertDesc(x, s[1..]);
      forall j | 0 <= j < |rest|
        ensures rest[j].at <= s[0].at
      {
        assert rest[j] in rest;
        if rest[j] != x {
          var i :| 0 <= i < |s[1..]| && s[1..][i] == rest[j];
          assert s[i + 1] == rest[j];
        }
      }
    }
  }

  /** The sort is by falling position and keeps the pieces, those for one line in their order. */
  lemma {:induction false} SortExactly(s: seq<Splice>, n: nat, i: nat)
    requires Within(s, n)
    ensures forall j, k :: 0 <= j < k < |StableDesc(s)| ==> StableDesc(s)[j].at >= StableDesc(s)[k].at
    ensures OnLine(StableDesc(s), i) == OnLine(s, i)
    decreases |s|
  {
    if s != [] {
      SortSorts(s[1..], n);
      SortExactly(s[1..], n, i);
      InsertSorted(s[0], StableDesc(s[1..]), n);
      InsertOnLine(s[0], StableDesc(s[1..]), i);
      assert s == [s[0]] + s[1..];
    }
  }

  /** The pieces for line `i`, in order. */
  function OnLine(s: seq<Splice>, i: nat): seq<Text> {
    if s == [] then [] else (if s[0].at == i then [s[0].piece] else []) + OnLine(s[1..], i)
  }

  lemma {:induction false} InsertOnLine(x: Splice, s: seq<Splice>, i: nat)
    requires Descending(s)
    ensures OnLine(InsertDesc(x, s), i) == (if x.at == i then [x.piece] else []) + OnLine(s, i)
    decreases |s|
  {
    if s == [] || s[0].at <= x.at {
      assert ([x] + s)[1..] == s;
    } else {
      InsertOnLine(x, s[1..], i);
      var rest := InsertDesc(x, s[1..]);
      assert ([s[0]] + rest)[1..] == rest;
      if x.at == i {
        assert s[0].at != i;
        assert [] + OnLine(rest, i) == OnLine(rest, i) && [] + OnLine(s[1..], i) == OnLine(s[1..], i);
      } else {
        assert [] + OnLine(s[1..], i) == OnLine(s[1..], i);
        assert [] + OnLine(s, i) == OnLine(s, i);
      }
    }
  }

  lemma {:induction false} InsertKeeps(x: Splice, s: seq<Splice>, i: nat)
    ensures PiecesAt(InsertDesc(x, s), i) == AppendedAt(PiecesAt(s, i), x, i)
    decreases |s|
  {
    if s == [] || s[0].at <= x.at {
      PiecesCons(x, s, i);
    } else {
      InsertKeeps(x, s[1..], i);
      PiecesCons(s[0], InsertDesc(x, s[1..]), i);
      PiecesCons(s[0], s[1..], i);
      assert [s[0]] + s[1..] == s;
    }
  }

  lemma {:induction false} SortSorts(s: seq<Splice>, n: nat)
    requires Within(s, n)
    ensures Descending(StableDesc(s)) && Within(StableDesc(s), n)
    decreases |s|
  {
    if s != [] {
      SortSorts(s[1..], n);
      InsertSorted(s[0], StableDesc(s[1..]), n);
    }
  }

  lemma {:induction false} SortKeeps(s: seq<Splice>, i: nat)
    ensures PiecesAt(StableDesc(s), i) == PiecesAt(s, i)
    decreases |s|
  {
    if s != [] {
      SortKeeps(s[1..], i);
      InsertKeeps(s[0], StableDesc(s[1..]), i);
      PiecesCons(s[0], s[1..], i);
      assert [s[0]] + s[1..] == s;
    }
  }

  /** Sorting and inserting from the end puts before each line the pieces meant for it, pieces
      for the same line in reverse order. */
  lemma SortedApplyIsWeave(lines: Text, s: seq<Splice>)
    requires Within(s, |lines|)
    ensures Within(StableDesc(s), |lines|)
    ensures ApplySplices(lines, StableDesc(s)) == Weave(lines, Slots(s, |lines|))
  {
    SortSorts(s, |lines|);
    SortedSlots(s, |lines|);
    ApplyIsWeave(lines, StableDesc(s));
  }

  lemma SortedSlots(s: seq<Splice>, n: nat)
    ensures Slots(StableDesc(s), n) == Slots(s, n)
  {
    var a, b := Slots(StableDesc(s), n), Slots(s, n);
    forall i | 0 <= i <= n
      ensures a[i] == b[i]
    {
      SortKeeps(s, i);
    }
    assert a == b;
  }

  /** Slots that start empty leave the first lines alone. */
  lemma {:induction false} WeaveSkips(lines: Text, slots: seq<Text>, a: nat)
    requires |slots| == |lines| + 1 && a <= |lines|
    requires forall j :: 0 <= j < a ==> slots[j] == []
    ensures Weave(lines, slots) == lines[..a] + Weave(lines[a..], slots[a..])
    decreases a
  {
    if a == 0 {
      assert lines[0..] == lines && slots[0..] == slots;
    } else {
      WeaveSkips(lines[1..], slots[1..], a - 1);
      assert lines[1..][a - 1..] == lines[a..] && slots[1..][a - 1..] == slots[a..];
      assert lines[..a] == [lines[0]] + lines[1..][..a - 1];
    }
  }

  /** Slots that are empty after `q` leave the last lines alone. */
  lemma {:induction false} WeaveStops(lines: Text, slots: seq<Text>, q: nat)
    requires |slots| == |lines| + 1 && q <= |lines|
    requires forall j :: q < j < |slots| ==> slots[j] == []
    ensures Weave(lines, slots) == WeaveTo(lines[..q], slots[..q]) + slots[q] + lines[q..]
    decreases q
  {
    if q == 0 {
      assert lines[0..] == lines;
      if lines != [] {
        WeaveNothing(lines[1..], slots[1..]);
        assert lines == [lines[0]] + lines[1..];
      }
      assert lines[..0] == [] && slots[..0] == [];
    } else {
      WeaveStops(lines[1..], slots[1..], q - 1);
      assert lines[1..][..q - 1] == lines[..q][1..] && slots[1..][..q - 1] == slots[..q][1..];
      assert lines[1..][q - 1..] == lines[q..] && slots[1..][q - 1] == slots[q];
    }
  }

  lemma SliceOfTail<T>(s: seq<T>, a: nat, q: nat)
    requires a <= q <= |s|
    ensures s[a..][..q - a] == s[a..q] && s[a..][q - a..] == s[q..]
  {
  }

  /** Insertions only between lines `a` and `q`. */
  lemma WeaveSegment(lines: Text, slots: seq<Text>, a: nat, q: nat)
    requires |slots| == |lines| + 1 && a <= q <= |lines|
    requires forall j :: 0 <= j < |slots| && (j < a || j > q) ==> slots[j] == []
    ensures Weave(lines, slots) == lines[..a] + (WeaveTo(lines[a..q], slots[a..q]) + slots[q] + lines[q..])
  {
    WeaveSkips(lines, slots, a);
    SliceOfTail(lines, a, q);
    SliceOfTail(slots, a, q);
    var tail := slots[a..];
    assert tail[q - a] == slots[q];
    assert forall j :: q - a < j < |tail| ==> tail[j] == slots[a + j] == [];
    WeaveStops(lines[a..], tail, q - a);
  }
}
