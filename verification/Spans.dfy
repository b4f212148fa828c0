/**
 Merging the labelled spans that a detector reports for a text: low scores are dropped,
 overlapping and touching spans become one.
 */
module Spans {

  /** `kind` is the label of the span. */
  datatype Span = Span(start: int, end: int, kind: string, score: real, text: string)

  /** The sort key: by start, and longer spans first. */
  predicate Before(a: Span, b: Span) { a.start < b.start || (a.start == b.start && a.end >= b.end) }

  predicate SameShape(a: Span, b: Span) { a.start == b.start && a.end == b.end }

  predicate IsSorted(q: seq<Span>) { forall i, j | 0 <= i < j < |q| :: Before(q[i], q[j]) }

  function Kept(spans: seq<Span>, minScore: real): seq<Span> {
    if spans == [] then []
    else
      var before := Kept(spans[..|spans| - 1], minScore);
      var s := spans[|spans| - 1];
      if s.score >= minScore then before + [s] else before
  }

  /** Behind everything that does not come after it, as a stable sort does. */
  function Insert(q: seq<Span>, s: Span): seq<Span> {
    if q == [] || Before(q[|q| - 1], s) then q + [s]
    else Insert(q[..|q| - 1], s) + [q[|q| - 1]]
  }

  function Sorted(spans: seq<Span>): seq<Span> {
    if spans == [] then [] else Insert(Sorted(spans[..|spans| - 1]), spans[|spans| - 1])
  }

  function MaxInt(a: int, b: int): int { if a < b then b else a }

  function MaxReal(a: real, b: real): real { if a < b then b else a }

  /** The group after taking in another span: the label of the higher score, the earlier one on a tie. */
  function Join(last: Span, s: Span): Span {
    Span(last.start, MaxInt(last.end, s.end), if last.score >= s.score then last.kind else s.kind,
         MaxReal(last.score, s.score), "")
  }

  function Extend(out: seq<Span>, s: Span): seq<Span> {
    if out != [] && s.start <= out[|out| - 1].end
    then out[..|out| - 1] + [Join(out[|out| - 1], s)]
    else out + [s]
  }

  function Fold(q: seq<Span>): seq<Span> {
    if q == [] then [] else Extend(Fold(q[..|q| - 1]), q[|q| - 1])
  }

  function Merge(spans: seq<Span>, minScore: real): seq<Span> { Fold(Sorted(Kept(spans, minScore))) }

  /** The merging loop, which overwrites the last group in place. */
  method MergeSpans(spans: seq<Span>, minScore: real) returns (out: seq<Span>)
    ensures out == Merge(spans, minScore)
    ensures StrictGaps(out)
    ensures forall p :: Covered(out, p) <==> Covered(Kept(spans, minScore), p)
  {
    hide IsSorted;
    hide Sorted;
    hide Kept;
    hide StrictGaps;
    hide Covered;
    var kept := Sorted(Kept(spans, minScore));
    out := [];
    for i := 0 to |kept|
      invariant out == Fold(kept[..i])
    {
      var s := kept[i];
      assert kept[..i + 1][..i] == kept[..i];
      if out != [] && s.start <= out[|out| - 1].end {
        var last := out[|out| - 1];
        var kind := if last.score >= s.score then last.kind else s.kind;
        out := out[|out| - 1 := Span(last.start, MaxInt(last.end, s.end), kind, MaxReal(last.score, s.score), "")];
      } else {
        out := out + [Span(s.start, s.end, s.kind, s.score, s.text)];
      }
    }
    assert kept[..|kept|] == kept;
    SortedIsSorted(Kept(spans, minScore));
    FoldShape(kept);
    forall p
      ensures Covered(out, p) <==> Covered(Kept(spans, minScore), p)
    {
      FoldCovers(kept, p);
      SameElementsCover(kept, Kept(spans, minScore), p);
    }
  }

  // ---------- sorting ----------

  lemma AppendStaysSorted(q: seq<Span>, s: Span)
    requires IsSorted(q) && (q == [] || Before(q[|q| - 1], s))
    ensures IsSorted(q + [s])
  {
    forall i | 0 <= i < |q|
      ensures Before(q[i], s)
    {
      assert i < |q| - 1 ==> Before(q[i], q[|q| - 1]);
    }
  }

  /** Inserting puts either the new span or the old last one at the end. */
  lemma {:induction false} InsertIsSorted(q: seq<Span>, s: Span)
    requires IsSorted(q)
    ensures IsSorted(Insert(q, s)) && Insert(q, s) != []
    ensures multiset(Insert(q, s)) == multiset(q) + multiset{s}
    ensures var last := Insert(q, s)[|Insert(q, s)| - 1]; last == s || (q != [] && last == q[|q| - 1])
  {
    hide IsSorted;
    if q == [] || Before(q[|q| - 1], s) {
      AppendStaysSorted(q, s);
    } else {
      var n := |q| - 1;
      FrontIsSorted(q);
      InsertIsSorted(q[..n], s);
      assert q == q[..n] + [q[n]];
      assert n > 0 ==> Before(q[n - 1], q[n]) by {
        LastTwo(q);
      }
      AppendStaysSorted(Insert(q[..n], s), q[n]);
    }
  }

  lemma LastTwo(q: seq<Span>)
    requires IsSorted(q)
    ensures |q| > 1 ==> Before(q[|q| - 2], q[|q| - 1])
  {
  }

  lemma {:induction false} SortedIsSorted(spans: seq<Span>)
    ensures IsSorted(Sorted(spans)) && multiset(Sorted(spans)) == multiset(spans)
  {
    if spans != [] {
      var n := |spans| - 1;
      SortedIsSorted(spans[..n]);
      InsertIsSorted(Sorted(spans[..n]), spans[n]);
      assert spans == spans[..n] + [spans[n]];
    }
  }

  /** The spans with this position, in order. */
  function Ties(q: seq<Span>, s: Span): seq<Span> {
    if q == [] then []
    else Ties(q[..|q| - 1], s) + (if SameShape(q[|q| - 1], s) then [q[|q| - 1]] else [])
  }

  lemma TiesAppend(q: seq<Span>, last: Span, s: Span)
    ensures Ties(q + [last], s) == Ties(q, s) + (if SameShape(last, s) then [last] else [])
  {
    assert (q + [last])[..|q|] == q;
  }

  lemma {:induction false} InsertIsStable(q: seq<Span>, new_: Span, s: Span)
    requires IsSorted(q)
    ensures Ties(Insert(q, new_), s) == Ties(q + [new_], s)
  {
    hide IsSorted;
    hide Ties;
    TiesAppend(q, new_, s);
    if q != [] && !Before(q[|q| - 1], new_) {
      var n := |q| - 1;
      var front, last := q[..n], q[n];
      FrontIsSorted(q);
      InsertIsStable(front, new_, s);
      TiesAppend(front, new_, s);
      TiesAppend(Insert(front, new_), last, s);
      TiesAppend(front, last, s);
      assert q == front + [last];
    }
  }

  /** Spans at the same position keep the order the detector reported them in. */
  lemma {:induction false} SortIsStable(spans: seq<Span>, s: Span)
    ensures Ties(Sorted(spans), s) == Ties(spans, s)
  {
    if spans != [] {
      var n := |spans| - 1;
      SortIsStable(spans[..n], s);
      SortedIsSorted(spans[..n]);
      InsertIsStable(Sorted(spans[..n]), spans[n], s);
      TiesAppend(Sorted(spans[..n]), spans[n], s);
    }
  }

  lemma {:induction false} SortingSorted(q: seq<Span>)
    requires IsSorted(q)
    ensures Sorted(q) == q
  {
    if q != [] {
      var n := |q| - 1;
      SortingSorted(q[..n]);
      assert n > 0 ==> Before(q[n - 1], q[n]);
    }
  }

  lemma FrontIsSorted(q: seq<Span>)
    requires IsSorted(q) && q != []
    ensures IsSorted(q[..|q| - 1])
    ensures multiset(q[..|q| - 1]) == multiset(q) - multiset{q[|q| - 1]}
  {
    assert q == q[..|q| - 1] + [q[|q| - 1]];
  }

  // ---------- the shape of the result ----------

  /** Neighbours neither overlap nor touch. */
  predicate StrictGaps(out: seq<Span>) { forall i | 0 < i < |out| :: out[i - 1].end < out[i].start }

  ghost predicate Covered(spans: seq<Span>, p: int) { exists s :: s in spans && s.start <= p < s.end }

  /** The last group after some prefix of the sorted spans. */
  ghost predicate LastGroup(q: seq<Span>) {
    var out := Fold(q);
    q != [] ==>
      && out != []
      && out[|out| - 1].start <= q[|q| - 1].start && out[|out| - 1].end >= q[|q| - 1].end
      && (out[|out| - 1].end < out[|out| - 1].start ==> out[|out| - 1] == q[|q| - 1])
  }

  /** Groups come in key order with a strict gap between neighbours. */
  lemma {:induction false} FoldShape(q: seq<Span>)
    requires IsSorted(q)
    ensures LastGroup(q) && IsSorted(Fold(q)) && StrictGaps(Fold(q))
  {
    if q != [] {
      var n := |q| - 1;
      FoldShape(q[..n]);
      var out, s := Fold(q[..n]), q[n];
      if n > 0 {
        assert Before(q[n - 1], s);
        assert q[..n][n - 1] == q[n - 1];
        ExtendStaysSorted(out, q[n - 1], s);
      }
    }
  }

  lemma ExtendStaysSorted(out: seq<Span>, previous: Span, s: Span)
    requires out != [] && IsSorted(out) && StrictGaps(out) && Before(previous, s)
    requires var last := out[|out| - 1];
      last.start <= previous.start && last.end >= previous.end && (last.end < last.start ==> last == previous)
    ensures IsSorted(Extend(out, s)) && StrictGaps(Extend(out, s))
  {
    var n := |out| - 1;
    var last, after := out[n], Extend(out, s);
    if s.start <= last.end {
      forall i | 0 <= i < n
        ensures Before(out[i], Join(last, s))
      {
        assert Before(out[i], last);
        if i < n - 1 {
          assert Before(out[i], out[n - 1]);
        }
      }
    } else {
      forall i | 0 <= i <= n
        ensures Before(out[i], s)
      {
        assert i < n ==> Before(out[i], last);
      }
    }
  }

  lemma ExtendCovers(out: seq<Span>, s: Span, p: int)
    requires out != [] && s.start <= out[|out| - 1].end ==> out[|out| - 1].start <= s.start
    ensures Covered(Extend(out, s), p) <==> Covered(out, p) || s.start <= p < s.end
  {
    var after := Extend(out, s);
    if out != [] && s.start <= out[|out| - 1].end {
      var n := |out| - 1;
      var last := out[n];
      assert after == out[..n] + [Join(last, s)] && out == out[..n] + [last];
      assert forall x :: x in after <==> x in out[..n] || x == Join(last, s);
      assert forall x :: x in out <==> x in out[..n] || x == last;
    } else {
      assert forall x :: x in after <==> x in out || x == s;
    }
  }

  lemma {:induction false} FoldCovers(q: seq<Span>, p: int)
    requires IsSorted(q)
    ensures Covered(Fold(q), p) <==> Covered(q, p)
  {
    if q != [] {
      var n := |q| - 1;
      FoldCovers(q[..n], p);
      FoldShape(q[..n]);
      if n > 0 {
        assert q[..n][n - 1] == q[n - 1] && Before(q[n - 1], q[n]);
      }
      ExtendCovers(Fold(q[..n]), q[n], p);
      assert forall x :: x in q <==> x in q[..n] || x == q[n];
    }
  }

  lemma SameElementsCover(a: seq<Span>, b: seq<Span>, p: int)
    requires multiset(a) == multiset(b)
    ensures Covered(a, p) <==> Covered(b, p)
  {
    assert forall x :: x in a <==> x in multiset(a);
    assert forall x :: x in b <==> x in multiset(b);
  }

  // ---------- merging again changes nothing ----------

  lemma {:induction false} FoldOfGaps(q: seq<Span>)
    requires StrictGaps(q)
    ensures Fold(q) == q
  {
    if q != [] {
      FoldOfGaps(q[..|q| - 1]);
    }
  }

  lemma {:induction false} KeptKeepsAll(spans: seq<Span>, minScore: real)
    requires forall s | s in spans :: s.score >= minScore
    ensures Kept(spans, minScore) == spans
  {
    if spans != [] {
      KeptKeepsAll(spans[..|spans| - 1], minScore);
    }
  }

  lemma {:induction false} KeptScores(spans: seq<Span>, minScore: real)
    ensures forall s :: s in Kept(spans, minScore) <==> s in spans && s.score >= minScore
  {
    if spans != [] {
      var n := |spans| - 1;
      KeptScores(spans[..n], minScore);
      assert forall s :: s in spans <==> s in spans[..n] || s == spans[n];
    }
  }

  lemma MergeIsIdempotent(spans: seq<Span>, minScore: real)
    ensures Merge(Merge(spans, minScore), minScore) == Merge(spans, minScore)
  {
    var kept := Kept(spans, minScore);
    var q, out := Sorted(kept), Merge(spans, minScore);
    SortedIsSorted(kept);
    FoldShape(q);
    forall g | g in out
      ensures g.score >= minScore
    {
      var i :| 0 <= i < |out| && out[i] == g;
      var k := GroupMember(q, i);
      assert q[k] in multiset(q);
      KeptScores(spans, minScore);
    }
    KeptKeepsAll(out, minScore);
    SortingSorted(out);
    FoldOfGaps(out);
  }

  // ---------- which span ends up in which group ----------

  /** The number of the group that takes in the span at this index. */
  function Slot(q: seq<Span>, i: nat): nat
    requires i < |q|
    ensures Slot(q, i) < |Fold(q[..i + 1])|
  {
    assert q[..i + 1] != [];
    |Fold(q[..i + 1])| - 1
  }

  lemma SlotStep(q: seq<Span>, i: nat)
    requires 0 < i < |q|
    ensures Fold(q[..i]) != []
    ensures Slot(q, i) == Slot(q, i - 1) + (if q[i].start <= Fold(q[..i])[Slot(q, i - 1)].end then 0 else 1)
  {
    assert q[..i + 1][..i] == q[..i];
    assert q[..i] != [];
  }

  /** No member of a group scores higher than the group. */
  lemma {:induction false} GroupIsHighest(q: seq<Span>, i: nat)
    requires i < |q|
    ensures Slot(q, i) < |Fold(q)| && q[i].score <= Fold(q)[Slot(q, i)].score
    decreases |q|
  {
    hide Slot;
    hide Fold;
    LastSlot(q);
    FoldStep(q);
    if i < |q| - 1 {
      GroupIsHighest(q[..|q| - 1], i);
      SlotOfPrefix(q, i);
    }
  }

  lemma FoldOfNothing()
    ensures Fold([]) == []
  {
  }

  lemma FoldStep(q: seq<Span>)
    requires q != []
    ensures Fold(q) == Extend(Fold(q[..|q| - 1]), q[|q| - 1])
  {
  }

  lemma SlotOfPrefix(q: seq<Span>, k: nat)
    requires k < |q| - 1
    ensures Slot(q[..|q| - 1], k) == Slot(q, k)
  {
    assert q[..|q| - 1][..k + 1] == q[..k + 1];
  }

  lemma LastSlot(q: seq<Span>)
    requires q != []
    ensures Slot(q, |q| - 1) == |Fold(q)| - 1
  {
    assert q[..|q| - 1 + 1] == q;
  }

  /** A group has the score and the label of its first highest-scoring member. */
  lemma {:induction false} GroupMember(q: seq<Span>, g: nat) returns (i: nat)
    requires g < |Fold(q)|
    ensures i < |q| && Slot(q, i) == g && q[i].score == Fold(q)[g].score && q[i].kind == Fold(q)[g].kind
    ensures forall k | 0 <= k < i && Slot(q, k) == g :: q[k].score < q[i].score
  {
    hide Slot;
    FoldOfNothing();
    hide Fold;
    var n := |q| - 1;
    var before, s := Fold(q[..n]), q[n];
    LastSlot(q);
    FoldStep(q);
    if g == |Fold(q)| - 1 && (|Fold(q)| > |before| || before[g].score < s.score) {
      i := n;
      forall k | 0 <= k < n && Slot(q, k) == g
        ensures q[k].score < s.score
      {
        GroupIsHighest(q[..n], k);
        SlotOfPrefix(q, k);
      }
    } else {
      i := GroupMember(q[..n], g);
      SlotOfPrefix(q, i);
      forall k | 0 <= k < i && Slot(q, k) == g
        ensures q[k].score < q[i].score
      {
        SlotOfPrefix(q, k);
      }
    }
  }

  /** A group either is one of the spans as it was, or it has no text of its own. */
  lemma {:induction false} GroupText(q: seq<Span>, g: nat)
    requires g < |Fold(q)|
    ensures Fold(q)[g].text == "" || Fold(q)[g] in q
  {
    var n := |q| - 1;
    var before := Fold(q[..n]);
    if g < |before| {
      GroupText(q[..n], g);
      assert Fold(q)[g] == before[g] || Fold(q)[g].text == "";
      assert before[g] in q[..n] ==> before[g] in q;
    } else {
      assert Fold(q)[g] == q[n];
    }
  }
}
