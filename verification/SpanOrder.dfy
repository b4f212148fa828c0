/**
 When the order in which a detector reports its spans matters for the merged result.
 Positions never depend on it. Scores do exactly for inverted spans (end before start) that
 tie with another one and that no other span reaches.
 */
module SpanOrder {
  import opened Spans

  ghost predicate SameShapes(a: seq<Span>, b: seq<Span>) {
    |a| == |b| && forall i | 0 <= i < |a| :: SameShape(a[i], b[i])
  }

  ghost predicate SamePositionsAndScores(a: seq<Span>, b: seq<Span>) {
    SameShapes(a, b) && forall i | 0 <= i < |a| :: a[i].score == b[i].score
  }

  // ---------- positions ----------

  function Bare(s: Span): Span { Span(s.start, s.end, "", 0.0, "") }

  function Shapes(q: seq<Span>): seq<Span> { seq(|q|, i requires 0 <= i < |q| => Bare(q[i])) }

  /** Taking one span out. */
  lemma Without(q: seq<Span>, j: nat) returns (rest: seq<Span>)
    requires j < |q|
    ensures |rest| == |q| - 1
    ensures multiset(q) == multiset(rest) + multiset{q[j]}
    ensures multiset(Shapes(q)) == multiset(Shapes(rest)) + multiset{Bare(q[j])}
  {
    rest := q[..j] + q[j + 1..];
    assert q == q[..j] + [q[j]] + q[j + 1..];
    assert Shapes(q) == Shapes(q[..j]) + [Bare(q[j])] + Shapes(q[j + 1..]);
    assert Shapes(rest) == Shapes(q[..j]) + Shapes(q[j + 1..]);
  }

  lemma {:induction false} ShapesOfPermutation(a: seq<Span>, b: seq<Span>)
    requires multiset(a) == multiset(b)
    ensures multiset(Shapes(a)) == multiset(Shapes(b))
    decreases |a|
  {
    hide Shapes;
    if a != [] {
      assert a[0] in multiset(b);
      var j :| 0 <= j < |b| && b[j] == a[0];
      var c := Without(a, 0);
      var d := Without(b, j);
      assert multiset(c) == multiset(a) - multiset{a[0]} && multiset(d) == multiset(b) - multiset{a[0]};
      ShapesOfPermutation(c, d);
    } else {
      assert |b| == |multiset(b)| == 0;
      assert a == b;
    }
  }

  lemma LastAgrees(a: seq<Span>, b: seq<Span>)
    requires IsSorted(a) && IsSorted(b) && multiset(a) == multiset(b) && a != [] && b != []
    ensures SameShape(a[|a| - 1], b[|b| - 1])
  {
    var n, m := |a| - 1, |b| - 1;
    assert a[n] in multiset(b) && b[m] in multiset(a);
    var j :| 0 <= j < |b| && b[j] == a[n];
    var k :| 0 <= k < |a| && a[k] == b[m];
    assert j < m ==> Before(b[j], b[m]);
    assert k < n ==> Before(a[k], a[n]);
  }

  ghost predicate AllBare(q: seq<Span>) { forall s | s in q :: s == Bare(s) }

  /** A sorted list of positions is determined by what is in it. */
  lemma {:induction false} SortedIsUnique(a: seq<Span>, b: seq<Span>)
    requires IsSorted(a) && IsSorted(b) && multiset(a) == multiset(b) && AllBare(a)
    ensures a == b
  {
    hide AllBare;
    hide Bare;
    hide SameShape;
    hide IsSorted;
    SameLength(a, b);
    if a != [] {
      var n := |a| - 1;
      LastAgrees(a, b);
      LastBare(a, b);
      FrontIsSorted(a);
      FrontIsSorted(b);
      SortedIsUnique(a[..n], b[..n]);
      SameFrontAndLast(a, b);
    }
  }

  lemma LastBare(a: seq<Span>, b: seq<Span>)
    requires AllBare(a) && multiset(a) == multiset(b) && a != [] && b != []
    requires SameShape(a[|a| - 1], b[|b| - 1])
    ensures a[|a| - 1] == b[|b| - 1] && AllBare(a[..|a| - 1])
  {
    assert b[|b| - 1] in multiset(a);
    BareIsShape(a[|a| - 1], b[|b| - 1]);
  }

  lemma SameFrontAndLast(a: seq<Span>, b: seq<Span>)
    requires a != [] && |a| == |b| && a[..|a| - 1] == b[..|b| - 1] && a[|a| - 1] == b[|b| - 1]
    ensures a == b
  {
    assert a == a[..|a| - 1] + [a[|a| - 1]] && b == b[..|b| - 1] + [b[|b| - 1]];
  }

  lemma BareIsShape(s: Span, t: Span)
    requires s == Bare(s) && t == Bare(t) && SameShape(s, t)
    ensures s == t
  {
  }

  lemma SameLength(a: seq<Span>, b: seq<Span>)
    requires multiset(a) == multiset(b)
    ensures |a| == |b|
  {
    assert |multiset(a)| == |multiset(b)|;
  }

  lemma SortedShapesAgree(a: seq<Span>, b: seq<Span>)
    requires IsSorted(a) && IsSorted(b) && multiset(a) == multiset(b)
    ensures SameShapes(a, b)
  {
    ShapesOfPermutation(a, b);
    assert AllBare(Shapes(a)) && IsSorted(Shapes(a)) && IsSorted(Shapes(b));
    SortedIsUnique(Shapes(a), Shapes(b));
    assert |Shapes(a)| == |a| && |Shapes(b)| == |b|;
    forall i | 0 <= i < |a|
      ensures SameShape(a[i], b[i])
    {
      assert Shapes(a)[i] == Shapes(b)[i];
    }
  }

  lemma {:induction false} FoldKeepsShapes(a: seq<Span>, b: seq<Span>)
    requires SameShapes(a, b)
    ensures SameShapes(Fold(a), Fold(b))
  {
    FoldOfNothing();
    hide Fold;
    if a != [] {
      FoldKeepsShapes(a[..|a| - 1], b[..|b| - 1]);
      FoldStep(a);
      FoldStep(b);
    } else {
      assert a == [] && b == [];
    }
  }

  lemma SlotsAgree(a: seq<Span>, b: seq<Span>, i: nat)
    requires SameShapes(a, b) && i < |a|
    ensures Slot(a, i) == Slot(b, i)
  {
    FoldKeepsShapes(a[..i + 1], b[..i + 1]);
  }

  // ---------- when a span opens a new group ----------

  ghost predicate ReachesLast(q: seq<Span>, last: Span) {
    && (exists u :: 0 <= u < |q| && q[u].end == last.end)
    && forall u | 0 <= u < |q| :: q[u].end <= last.end || q[u].end < last.start
  }

  lemma ReachStep(q: seq<Span>, last: Span, s: Span, after: Span)
    requires ReachesLast(q, last) && last.start <= s.start
    requires after == if s.start <= last.end then Join(last, s) else s
    ensures ReachesLast(q + [s], after)
  {
    var all := q + [s];
    assert all[|q|] == s;
    var u :| 0 <= u < |q| && q[u].end == last.end;
    assert all[u].end == last.end;
    assert after.end == last.end || after.end == s.end;
    forall v | 0 <= v < |all|
      ensures all[v].end <= after.end || all[v].end < after.start
    {
      if v < |q| {
        assert all[v] == q[v];
      }
    }
  }

  lemma {:induction false} LastEnd(q: seq<Span>)
    requires IsSorted(q) && q != []
    ensures Fold(q) != [] && ReachesLast(q, Fold(q)[|Fold(q)| - 1])
  {
    hide ReachesLast;
    var n := |q| - 1;
    var before, s := q[..n], q[n];
    assert q == before + [s];
    if n > 0 {
      LastEnd(before);
      FoldShape(before);
      assert before[n - 1] == q[n - 1] && Before(q[n - 1], s);
      ReachStep(before, Fold(before)[|Fold(before)| - 1], s, Fold(q)[|Fold(q)| - 1]);
    } else {
      assert Fold(q) == [s];
      FirstReach(s);
    }
  }

  lemma FirstReach(s: Span)
    ensures ReachesLast([s], s)
  {
    assert [s][0].end == s.end;
  }

  /** A span joins the last group exactly when some earlier span reaches its start. */
  lemma JoinsExactly(q: seq<Span>, i: nat)
    requires IsSorted(q) && 0 < i < |q|
    ensures Slot(q, i) == Slot(q, i - 1) <==> exists u :: 0 <= u < i && q[u].end >= q[i].start
    ensures Slot(q, i - 1) <= Slot(q, i)
  {
    var before := q[..i];
    LastEnd(before);
    FoldShape(before);
    SlotStep(q, i);
    assert before[i - 1] == q[i - 1] && Before(q[i - 1], q[i]);
    var last := Fold(before)[|Fold(before)| - 1];
    assert last.start <= q[i].start;
    if q[i].start <= last.end {
      var u :| 0 <= u < i && before[u].end == last.end;
      assert q[u].end >= q[i].start;
    }
    forall u | 0 <= u < i && q[u].end >= q[i].start
      ensures q[i].start <= last.end
    {
      assert before[u] == q[u];
    }
  }

  lemma {:induction false} SlotsAscend(q: seq<Span>, i: nat, k: nat)
    requires IsSorted(q) && i <= k < |q|
    ensures Slot(q, i) <= Slot(q, k)
    decreases k
  {
    if i < k {
      SlotsAscend(q, i, k - 1);
      JoinsExactly(q, k);
    }
  }

  // ---------- scores ----------

  /** An inverted span whose start no span reaches. */
  ghost predicate Exposed(q: seq<Span>, s: Span) {
    s.end < s.start && forall u | u in q :: !(u.start <= s.start <= u.end)
  }

  /** Exposed spans at the same position have the same score. */
  ghost predicate TiesAgree(q: seq<Span>) {
    forall s, t | s in q && t in q && SameShape(s, t) && Exposed(q, s) :: s.score == t.score
  }

  lemma SandwichedShape(q: seq<Span>, i: nat, k: nat, j: nat)
    requires IsSorted(q) && i <= k <= j < |q| && SameShape(q[i], q[j])
    ensures SameShape(q[i], q[k])
  {
    assert i < k ==> Before(q[i], q[k]);
    assert k < j ==> Before(q[k], q[j]);
  }

  /** A span that reaches the start of an inverted one is sorted in front of it. */
  lemma ReacherComesFirst(q: seq<Span>, j: nat, w: nat)
    requires IsSorted(q) && j < |q| && w < |q|
    requires q[j].end < q[j].start && q[w].start <= q[j].start <= q[w].end
    ensures w < j
  {
    assert !Before(q[j], q[w]);
  }

  /** Spans at the same position end up in one group, unless they are exposed. */
  lemma {:induction false} TiesMerge(q: seq<Span>, i: nat, j: nat)
    requires IsSorted(q) && i <= j < |q| && SameShape(q[i], q[j]) && !Exposed(q, q[i])
    ensures Slot(q, i) == Slot(q, j)
    decreases j
  {
    if i < j {
      SandwichedShape(q, i, j - 1, j);
      TiesMerge(q, i, j - 1);
      JoinsExactly(q, j);
      if q[j].end < q[j].start {
        var u :| u in q && u.start <= q[i].start <= u.end;
        var w :| 0 <= w < |q| && q[w] == u;
        assert w < j by {
          ReacherComesFirst(q, j, w);
        }
      } else {
        assert q[j - 1].end >= q[j].start;
      }
    }
  }

  /** An exposed span is alone in its group. */
  lemma ExposedIsAlone(q: seq<Span>, i: nat, k: nat)
    requires IsSorted(q) && i < |q| && k < |q| && Exposed(q, q[i]) && k != i
    ensures Slot(q, k) != Slot(q, i)
  {
    if k < i {
      SlotsAscend(q, k, i - 1);
      JoinsExactly(q, i);
      forall u | 0 <= u < i
        ensures q[u].end < q[i].start
      {
        assert q[u] in q && Before(q[u], q[i]);
      }
    } else {
      SlotsAscend(q, i + 1, k);
      JoinsExactly(q, i + 1);
      assert Before(q[i], q[i + 1]);
      forall u | 0 <= u < i + 1
        ensures q[u].end < q[i + 1].start
      {
        assert q[u] in q;
        assert u < i ==> Before(q[u], q[i]);
      }
    }
  }

  lemma ExposedPermutes(a: seq<Span>, b: seq<Span>, s: Span, t: Span)
    requires multiset(a) == multiset(b) && SameShape(s, t)
    ensures Exposed(a, s) <==> Exposed(b, t)
  {
    assert forall u :: u in a <==> u in multiset(a);
    assert forall u :: u in b <==> u in multiset(b);
  }

  lemma SlotOfTie(q: seq<Span>, i: nat, j: nat)
    requires IsSorted(q) && i < |q| && j < |q| && SameShape(q[i], q[j]) && !Exposed(q, q[i])
    ensures Slot(q, i) == Slot(q, j)
  {
    hide Slot;
    hide IsSorted;
    ExposedPermutes(q, q, q[i], q[j]);
    if i <= j {
      TiesMerge(q, i, j);
    } else {
      TiesMerge(q, j, i);
    }
  }

  lemma ScoreAtMost(a: seq<Span>, b: seq<Span>, g: nat)
    requires IsSorted(a) && IsSorted(b) && multiset(a) == multiset(b) && TiesAgree(a)
    requires g < |Fold(a)|
    ensures |Fold(a)| == |Fold(b)| && Fold(a)[g].score <= Fold(b)[g].score
  {
    hide Fold;
    hide Slot;
    hide IsSorted;
    hide Exposed;
    SortedShapesAgree(a, b);
    FoldKeepsShapes(a, b);
    var i := GroupMember(a, g);
    SlotsAgree(a, b, i);
    assert a[i] in multiset(b) && b[i] in multiset(a);
    ExposedPermutes(a, b, a[i], b[i]);
    if Exposed(a, a[i]) {
      GroupIsHighest(b, i);
    } else {
      var j :| 0 <= j < |b| && b[j] == a[i];
      SlotOfTie(b, i, j);
      GroupIsHighest(b, j);
    }
  }

  lemma {:induction false} KeptCount(spans: seq<Span>, minScore: real, s: Span)
    ensures multiset(Kept(spans, minScore))[s] == if s.score >= minScore then multiset(spans)[s] else 0
  {
    if spans != [] {
      var n := |spans| - 1;
      KeptCount(spans[..n], minScore, s);
      assert spans == spans[..n] + [spans[n]];
    }
  }

  lemma KeptPermutes(a: seq<Span>, b: seq<Span>, minScore: real)
    requires multiset(a) == multiset(b)
    ensures multiset(Kept(a, minScore)) == multiset(Kept(b, minScore))
  {
    forall s
      ensures multiset(Kept(a, minScore))[s] == multiset(Kept(b, minScore))[s]
    {
      KeptCount(a, minScore, s);
      KeptCount(b, minScore, s);
    }
  }

  lemma TiesAgreePermutes(a: seq<Span>, b: seq<Span>)
    requires multiset(a) == multiset(b) && TiesAgree(a)
    ensures TiesAgree(b)
  {
    assert forall u :: u in a <==> u in multiset(a);
    assert forall u :: u in b <==> u in multiset(b);
    forall s, t | s in b && t in b && SameShape(s, t) && Exposed(b, s)
      ensures s.score == t.score
    {
      assert Exposed(a, s);
    }
  }

  /** The merged positions never depend on the order of the spans; the scores do not if exposed ties agree,
      which they do whenever no span is inverted. */
  lemma OrderDoesNotMatter(a: seq<Span>, b: seq<Span>, minScore: real)
    requires multiset(a) == multiset(b)
    ensures SameShapes(Merge(a, minScore), Merge(b, minScore))
    ensures TiesAgree(Kept(a, minScore)) ==> SamePositionsAndScores(Merge(a, minScore), Merge(b, minScore))
    ensures (forall s | s in a :: s.start <= s.end) ==> TiesAgree(Kept(a, minScore))
  {
    hide Fold;
    hide Sorted;
    var p, q := Sorted(Kept(a, minScore)), Sorted(Kept(b, minScore));
    KeptScores(a, minScore);
    KeptPermutes(a, b, minScore);
    SortedIsSorted(Kept(a, minScore));
    SortedIsSorted(Kept(b, minScore));
    SortedShapesAgree(p, q);
    FoldKeepsShapes(p, q);
    if TiesAgree(Kept(a, minScore)) {
      TiesAgreePermutes(Kept(a, minScore), p);
      TiesAgreePermutes(Kept(a, minScore), q);
      forall g | 0 <= g < |Fold(p)|
        ensures Fold(p)[g].score == Fold(q)[g].score
      {
        ScoreAtMost(p, q, g);
        ScoreAtMost(q, p, g);
      }
    }
  }

  // ---------- the condition is needed ----------

  function Dropped(spans: seq<Span>, minScore: real): seq<Span> {
    if spans == [] then []
    else
      var s := spans[|spans| - 1];
      Dropped(spans[..|spans| - 1], minScore) + (if s.score >= minScore then [] else [s])
  }

  lemma {:induction false} KeptAndDropped(spans: seq<Span>, minScore: real)
    ensures multiset(Kept(spans, minScore)) + multiset(Dropped(spans, minScore)) == multiset(spans)
    ensures forall s | s in Dropped(spans, minScore) :: s.score < minScore
  {
    if spans != [] {
      var n := |spans| - 1;
      KeptAndDropped(spans[..n], minScore);
      assert spans == spans[..n] + [spans[n]];
    }
  }

  lemma {:induction false} KeptOfConcat(high: seq<Span>, low: seq<Span>, minScore: real)
    requires forall s | s in high :: s.score >= minScore
    requires forall s | s in low :: s.score < minScore
    ensures Kept(high + low, minScore) == high
  {
    if low == [] {
      assert high + low == high;
      KeptKeepsAll(high, minScore);
    } else {
      var n := |low| - 1;
      assert (high + low)[..|high + low| - 1] == high + low[..n];
      KeptOfConcat(high, low[..n], minScore);
    }
  }

  lemma GroupOfExposed(q: seq<Span>, i: nat)
    requires IsSorted(q) && i < |q| && Exposed(q, q[i])
    ensures Slot(q, i) < |Fold(q)| && Fold(q)[Slot(q, i)].score == q[i].score
  {
    GroupIsHighest(q, i);
    var k := GroupMember(q, Slot(q, i));
    if k != i {
      ExposedIsAlone(q, i, k);
    }
  }

  lemma SwapKeepsOrder(q: seq<Span>, i: nat, j: nat)
    requires IsSorted(q) && i < |q| && j < |q| && SameShape(q[i], q[j])
    ensures var r := q[i := q[j]][j := q[i]];
      multiset(r) == multiset(q) && IsSorted(r) && SameShapes(q, r) && r[i] == q[j]
  {
    var r := q[i := q[j]][j := q[i]];
    assert SameShapes(q, r);
    forall k, l | 0 <= k < l < |r|
      ensures Before(r[k], r[l])
    {
      assert Before(q[k], q[l]) && SameShape(q[k], r[k]) && SameShape(q[l], r[l]);
    }
  }

  /** Two exposed spans at one position, swapped. */
  lemma SwapExposed(q: seq<Span>, i: nat, j: nat)
    requires IsSorted(q) && i < |q| && j < |q| && SameShape(q[i], q[j]) && Exposed(q, q[i])
    requires q[i].score != q[j].score
    ensures var r := q[i := q[j]][j := q[i]];
      multiset(r) == multiset(q) && IsSorted(r) && !SamePositionsAndScores(Fold(q), Fold(r))
  {
    hide IsSorted;
    hide Exposed;
    hide Fold;
    hide Slot;
    hide SameShapes;
    var r := q[i := q[j]][j := q[i]];
    SwapKeepsOrder(q, i, j);
    ExposedPermutes(q, r, q[i], r[i]);
    GroupOfExposed(q, i);
    GroupOfExposed(r, i);
    SlotsAgree(q, r, i);
  }

  /** The scores are the same for every order of the spans exactly when exposed ties agree. */
  lemma OrderMattersExactly(a: seq<Span>, minScore: real)
    ensures TiesAgree(Kept(a, minScore)) <==>
      forall b | multiset(b) == multiset(a) :: SamePositionsAndScores(Merge(a, minScore), Merge(b, minScore))
  {
    var kept := Kept(a, minScore);
    if TiesAgree(kept) {
      forall b | multiset(b) == multiset(a)
        ensures SamePositionsAndScores(Merge(a, minScore), Merge(b, minScore))
      {
        OrderDoesNotMatter(a, b, minScore);
      }
    } else {
      var b := Reordered(a, minScore);
    }
  }

  lemma ExposedTie(kept: seq<Span>, q: seq<Span>) returns (i: nat, j: nat)
    requires multiset(q) == multiset(kept) && !TiesAgree(kept)
    ensures i < |q| && j < |q| && SameShape(q[i], q[j]) && Exposed(q, q[i]) && q[i].score != q[j].score
  {
    var s, t :| s in kept && t in kept && SameShape(s, t) && Exposed(kept, s) && s.score != t.score;
    assert s in multiset(q) && t in multiset(q);
    i :| 0 <= i < |q| && q[i] == s;
    j :| 0 <= j < |q| && q[j] == t;
    ExposedPermutes(kept, q, s, s);
  }

  lemma Reordered(a: seq<Span>, minScore: real) returns (b: seq<Span>)
    requires !TiesAgree(Kept(a, minScore))
    ensures multiset(b) == multiset(a) && !SamePositionsAndScores(Merge(a, minScore), Merge(b, minScore))
  {
    hide Fold;
    hide IsSorted;
    hide TiesAgree;
    hide Exposed;
    hide SameShape;
    hide SamePositionsAndScores;
    hide Kept;
    hide Dropped;
    hide Sorted;
    var kept := Kept(a, minScore);
    var q, low := Sorted(kept), Dropped(a, minScore);
    SortedIsSorted(kept);
    KeptAndDropped(a, minScore);
    var i, j := ExposedTie(kept, q);
    SwapExposed(q, i, j);
    var r := q[i := q[j]][j := q[i]];
    KeptScores(a, minScore);
    forall u: Span | u in r
      ensures u.score >= minScore
    {
      assert u in multiset(r) && u in multiset(kept);
    }
    b := r + low;
    KeptOfConcat(r, low, minScore);
    SortingSorted(r);
  }

  /** Two kept spans for which the condition fails, and whose result follows the input order. */
  ghost predicate Disagree(a: Span, b: Span) {
    !TiesAgree(Kept([a, b], 0.5)) && Merge([a, b], 0.5) == [a, b] && Merge([b, a], 0.5) == [b, a]
  }

  /** Inverted spans at one position with different scores disagree. */
  lemma InvertedTiesDisagree(a: Span, b: Span)
    requires SameShape(a, b) && a.end < a.start && a.score >= 0.5 && b.score >= 0.5 && a.score != b.score
    ensures Disagree(a, b)
  {
    hide Merge;
    hide Kept;
    hide TiesAgree;
    InvertedPairStays(a, b);
    InvertedPairStays(b, a);
    PairDisagrees(a, b);
  }

  lemma PairDisagrees(a: Span, b: Span)
    requires SameShape(a, b) && a.end < a.start && a.score != b.score
    ensures !TiesAgree([a, b])
  {
    var q := [a, b];
    assert q[0] == a && q[1] == b;
    assert Exposed(q, a);
  }

  lemma InvertedPairStays(a: Span, b: Span)
    requires SameShape(a, b) && a.end < a.start && a.score >= 0.5 && b.score >= 0.5
    ensures Kept([a, b], 0.5) == [a, b] && Merge([a, b], 0.5) == [a, b]
  {
    hide Kept;
    hide Sorted;
    hide Fold;
    KeptKeepsAll([a, b], 0.5);
    SortingSorted([a, b]);
    FoldOfGaps([a, b]);
  }

  /** Such spans exist. */
  lemma TiesCanDisagree()
    ensures Disagree(Span(5, 3, "x", 0.9, ""), Span(5, 3, "y", 0.8, ""))
  {
    hide Disagree;
    InvertedTiesDisagree(Span(5, 3, "x", 0.9, ""), Span(5, 3, "y", 0.8, ""));
  }
}
