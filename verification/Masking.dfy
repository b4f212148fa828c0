/**
 Masking a text for an audience: disallowed groups are replaced from the back to the front.
 For spans inside the text this is the same as writing the text out from left to right.
 */
module Masking {
  import opened Spans

  /** `mask` is the filled-in mask format of a label. */
  datatype Policy = Policy(minScore: real, allowed: map<string, set<string>>, mask: string -> string)

  /** The policy names the audience and lets it see this label; an unknown audience sees nothing. */
  predicate MaySee(policy: Policy, audience: string, kind: string) {
    audience in policy.allowed && kind in policy.allowed[audience]
  }

  function AllowedFor(policy: Policy, audience: string): set<string> {
    if audience in policy.allowed then policy.allowed[audience] else {}
  }

  lemma AllowedExact(policy: Policy, audience: string)
    ensures forall kind :: kind in AllowedFor(policy, audience) <==> MaySee(policy, audience, kind)
  {
  }

  /** Where a Python slice bound falls in a text of length `n`. */
  function Cut(n: nat, i: int): nat {
    if i < 0 then (if n + i < 0 then 0 else n + i)
    else if i > n then n
    else i
  }

  function ReplaceGroup(text: string, g: Span, mask: string -> string): string {
    text[..Cut(|text|, g.start)] + mask(g.kind) + text[Cut(|text|, g.end)..]
  }

  /** Back to front: the later groups are replaced first. */
  function Splice(text: string, groups: seq<Span>, allowed: set<string>, mask: string -> string): string {
    if groups == [] then text
    else
      var rest := Splice(text, groups[1..], allowed, mask);
      if groups[0].kind in allowed then rest else ReplaceGroup(rest, groups[0], mask)
  }

  function Removed(groups: seq<Span>, allowed: set<string>): set<string> {
    set g | g in groups && g.kind !in allowed :: g.kind
  }

  lemma NothingLeft(text: string, groups: seq<Span>, allowed: set<string>, mask: string -> string)
    ensures Splice(text, groups[|groups|..], allowed, mask) == text && Removed(groups[|groups|..], allowed) == {}
  {
  }

  /** One more group from the back. */
  lemma SpliceStep(text: string, groups: seq<Span>, i: nat, allowed: set<string>, mask: string -> string)
    requires i < |groups|
    ensures var rest, g := Splice(text, groups[i + 1..], allowed, mask), groups[i];
      && Splice(text, groups[i..], allowed, mask) == (if g.kind in allowed then rest else ReplaceGroup(rest, g, mask))
      && Removed(groups[i..], allowed) == Removed(groups[i + 1..], allowed) + (if g.kind in allowed then {} else {g.kind})
  {
    assert groups[i..][1..] == groups[i + 1..] && groups[i..][0] == groups[i];
    assert groups[i..] == [groups[i]] + groups[i + 1..];
  }

  /** The masking loop over the reversed groups. */
  method MaskForAudience(text: string, spans: seq<Span>, audience: string, policy: Policy)
      returns (result: string, removed: set<string>)
    ensures var groups, allowed := Merge(spans, policy.minScore), AllowedFor(policy, audience);
      && result == Splice(text, groups, allowed, policy.mask)
      && (InBounds(Kept(spans, policy.minScore), |text|) ==>
            Laid(groups, 0, |text|) && result == Render(text, 0, groups, allowed, policy.mask))
      && (StartsInside(Kept(spans, policy.minScore), |text|) ==>
            var shown := ClampAll(groups, |text|);
            Laid(shown, 0, |text|) && result == Render(text, 0, shown, allowed, policy.mask))
      && (forall k :: k in removed <==> (exists g :: g in groups && g.kind == k) && !MaySee(policy, audience, k))
    ensures removed == {} ==> result == text
  {
    hide Fold;
    hide Sorted;
    hide Kept;
    hide Render;
    hide Laid;
    hide StrictGaps;
    hide Covered;
    hide InBounds;
    hide StartsInside;
    hide ClampAll;
    hide Splice;
    hide Removed;
    AllowedExact(policy, audience);
    hide AllowedFor;
    hide MaySee;
    var allowed := AllowedFor(policy, audience);
    var merged := MergeSpans(spans, policy.minScore);
    removed := {};
    result := text;
    var i := |merged|;
    NothingLeft(text, merged, allowed, policy.mask);
    while i > 0
      invariant 0 <= i <= |merged|
      invariant result == Splice(text, merged[i..], allowed, policy.mask)
      invariant removed == Removed(merged[i..], allowed)
      invariant removed == {} ==> result == text
    {
      SpliceStep(text, merged, i - 1, allowed, policy.mask);
      i := i - 1;
      var s := merged[i];
      if s.kind !in allowed {
        removed := removed + {s.kind};
        result := result[..Cut(|result|, s.start)] + policy.mask(s.kind) + result[Cut(|result|, s.end)..];
      }
    }
    assert merged[0..] == merged;
    RemovedExact(merged, allowed);
    if InBounds(Kept(spans, policy.minScore), |text|) {
      MergedIsLaid(spans, policy.minScore, |text|);
      SpliceIsRender(text, merged, allowed, policy.mask);
    }
    if StartsInside(Kept(spans, policy.minScore), |text|) {
      ClampedIsRender(text, spans, policy.minScore, allowed, policy.mask);
    }
  }

  lemma RemovedExact(groups: seq<Span>, allowed: set<string>)
    ensures forall k :: k in Removed(groups, allowed) <==> exists g :: g in groups && g.kind == k && k !in allowed
  {
  }

  // ---------- left to right ----------

  predicate InBounds(spans: seq<Span>, n: nat) { forall s | s in spans :: 0 <= s.start <= s.end <= n }

  /** The groups follow each other between `pos` and the end of the text. */
  predicate Laid(groups: seq<Span>, pos: nat, n: nat) {
    if groups == [] then pos <= n
    else pos <= groups[0].start <= groups[0].end <= n && Laid(groups[1..], groups[0].end, n)
  }

  /** The text from `pos` on: gaps and allowed groups verbatim, one mask for each disallowed group. */
  function Render(text: string, pos: nat, groups: seq<Span>, allowed: set<string>, mask: string -> string): string
    requires Laid(groups, pos, |text|)
    decreases groups
  {
    if groups == [] then text[pos..]
    else
      var g := groups[0];
      text[pos..g.start] + (if g.kind in allowed then text[g.start..g.end] else mask(g.kind))
      + Render(text, g.end, groups[1..], allowed, mask)
  }

  lemma LaidFromEarlier(groups: seq<Span>, pos: nat, earlier: nat, n: nat)
    requires Laid(groups, pos, n) && earlier <= pos
    ensures Laid(groups, earlier, n)
  {
  }

  /** The first groups of a list that reach less far than the next one. */
  lemma {:induction false} GapsAreLaid(out: seq<Span>, pos: nat, n: nat)
    requires StrictGaps(out) && InBounds(out, n) && pos <= n && (out != [] ==> pos <= out[0].start)
    ensures Laid(out, pos, n)
  {
    if out != [] {
      var rest := out[1..];
      forall i | 0 < i < |rest|
        ensures rest[i - 1].end < rest[i].start
      {
        assert out[i].end < out[i + 1].start;
      }
      assert |rest| > 0 ==> out[0].end < out[1].start;
      GapsAreLaid(rest, out[0].end, n);
    }
  }

  lemma ExtendInBounds(out: seq<Span>, s: Span, n: nat)
    requires InBounds(out, n) && 0 <= s.start <= s.end <= n
    ensures InBounds(Extend(out, s), n)
  {
    forall x | x in Extend(out, s)
      ensures 0 <= x.start <= x.end <= n
    {
      assert out != [] ==> out[|out| - 1] in out;
      assert x in out || x == s || (out != [] && x == Join(out[|out| - 1], s));
    }
  }

  lemma {:induction false} FoldInBounds(q: seq<Span>, n: nat)
    requires InBounds(q, n)
    ensures InBounds(Fold(q), n)
  {
    if q != [] {
      var m := |q| - 1;
      FoldInBounds(q[..m], n);
      assert q[m] in q;
      FoldStep(q);
      hide Fold;
      ExtendInBounds(Fold(q[..m]), q[m], n);
    }
  }

  lemma MergedIsLaid(spans: seq<Span>, minScore: real, n: nat)
    requires InBounds(Kept(spans, minScore), n)
    ensures InBounds(Merge(spans, minScore), n) && Laid(Merge(spans, minScore), 0, n)
  {
    var kept := Kept(spans, minScore);
    var q := Sorted(kept);
    SortedIsSorted(kept);
    forall s | s in q
      ensures 0 <= s.start <= s.end <= n
    {
      assert s in multiset(q) && s in multiset(kept);
    }
    FoldInBounds(q, n);
    FoldShape(q);
    GapsAreLaid(Fold(q), 0, n);
  }

  /** Whatever lies in front of the first group is there verbatim. */
  lemma RenderSplit(text: string, pos: nat, later: nat, groups: seq<Span>, allowed: set<string>, mask: string -> string)
    requires pos <= later && Laid(groups, later, |text|)
    ensures Laid(groups, pos, |text|)
    ensures Render(text, pos, groups, allowed, mask) == text[pos..later] + Render(text, later, groups, allowed, mask)
  {
    LaidFromEarlier(groups, later, pos, |text|);
    if groups == [] {
      assert text[pos..] == text[pos..later] + text[later..];
    } else {
      var g := groups[0];
      var middle := if g.kind in allowed then text[g.start..g.end] else mask(g.kind);
      var rest := Render(text, g.end, groups[1..], allowed, mask);
      RenderFirst(text, pos, groups, allowed, mask);
      RenderFirst(text, later, groups, allowed, mask);
      hide Render;
      assert text[pos..g.start] == text[pos..later] + text[later..g.start];
      Regroup(text[pos..later], text[later..g.start], middle, rest);
    }
  }

  lemma RenderFirst(text: string, pos: nat, groups: seq<Span>, allowed: set<string>, mask: string -> string)
    requires groups != [] && Laid(groups, pos, |text|)
    ensures var g := groups[0];
      Render(text, pos, groups, allowed, mask) ==
        text[pos..g.start] + (if g.kind in allowed then text[g.start..g.end] else mask(g.kind))
        + Render(text, g.end, groups[1..], allowed, mask)
  {
  }

  lemma Regroup(a: string, b: string, c: string, d: string)
    ensures a + b + c + d == a + (b + c + d)
  {
  }

  /** Replacing from the back to the front gives the text written from left to right. */
  lemma {:induction false} SpliceIsRender(text: string, groups: seq<Span>, allowed: set<string>, mask: string -> string)
    requires Laid(groups, 0, |text|)
    ensures Splice(text, groups, allowed, mask) == Render(text, 0, groups, allowed, mask)
  {
    if groups != [] {
      var g, rest := groups[0], groups[1..];
      LaidFromEarlier(rest, g.end, 0, |text|);
      SpliceIsRender(text, rest, allowed, mask);
      RenderSplit(text, 0, g.end, rest, allowed, mask);
      var later := Render(text, g.end, rest, allowed, mask);
      assert Splice(text, rest, allowed, mask) == text[..g.end] + later;
      assert (text[..g.end] + later)[..g.start] == text[..g.start];
      assert (text[..g.end] + later)[g.end..] == later;
      assert text[..g.end] == text[..g.start] + text[g.start..g.end];
    }
  }

  // ---------- spans that reach past the end ----------

  /** Every span begins inside the text; it may end behind it. */
  predicate StartsInside(spans: seq<Span>, n: nat) {
    forall s | s in spans :: 0 <= s.start <= n && s.start <= s.end
  }

  function Clamp(g: Span, n: nat): Span { if g.end > n then g.(end := n) else g }

  /** The groups as far as the text goes. */
  function ClampAll(groups: seq<Span>, n: nat): seq<Span> {
    seq(|groups|, i requires 0 <= i < |groups| => Clamp(groups[i], n))
  }

  lemma ExtendStartsInside(out: seq<Span>, s: Span, n: nat)
    requires StartsInside(out, n) && 0 <= s.start <= n && s.start <= s.end
    ensures StartsInside(Extend(out, s), n)
  {
    forall x | x in Extend(out, s)
      ensures 0 <= x.start <= n && x.start <= x.end
    {
      assert out != [] ==> out[|out| - 1] in out;
      assert x in out || x == s || (out != [] && x == Join(out[|out| - 1], s));
    }
  }

  lemma {:induction false} FoldStartsInside(q: seq<Span>, n: nat)
    requires StartsInside(q, n)
    ensures StartsInside(Fold(q), n)
  {
    if q != [] {
      var m := |q| - 1;
      FoldStartsInside(q[..m], n);
      assert q[m] in q;
      FoldStep(q);
      hide Fold;
      ExtendStartsInside(Fold(q[..m]), q[m], n);
    }
  }

  /** Only the last group can reach past the end, so replacing it first cuts nothing but text. */
  lemma {:induction false} SpliceClamps(text: string, groups: seq<Span>, allowed: set<string>, mask: string -> string)
    requires StrictGaps(groups) && StartsInside(groups, |text|)
    ensures Splice(text, groups, allowed, mask) == Splice(text, ClampAll(groups, |text|), allowed, mask)
  {
    hide StrictGaps;
    hide StartsInside;
    if groups != [] {
      var rest := groups[1..];
      TailOfGroups(groups, |text|);
      SpliceClamps(text, rest, allowed, mask);
      if groups[0].end > |text| {
        LastReachesPast(groups, |text|);
      }
    }
  }

  lemma TailOfGroups(groups: seq<Span>, n: nat)
    requires StrictGaps(groups) && StartsInside(groups, n) && groups != []
    ensures StrictGaps(groups[1..]) && StartsInside(groups[1..], n)
    ensures ClampAll(groups, n)[1..] == ClampAll(groups[1..], n)
  {
    var rest := groups[1..];
    assert forall i | 0 < i < |rest| :: rest[i - 1] == groups[i] && rest[i] == groups[i + 1];
  }

  lemma SecondStart(groups: seq<Span>, n: nat)
    requires StrictGaps(groups) && StartsInside(groups, n)
    ensures |groups| > 1 ==> groups[0].end < groups[1].start <= n
  {
    if |groups| > 1 {
      assert groups[1] in groups;
    }
  }

  lemma LastReachesPast(groups: seq<Span>, n: nat)
    requires StrictGaps(groups) && StartsInside(groups, n) && groups != [] && groups[0].end > n
    ensures |groups| == 1
  {
    SecondStart(groups, n);
  }

  lemma ClampKeepsGaps(groups: seq<Span>, n: nat)
    requires StrictGaps(groups) && StartsInside(groups, n)
    ensures StrictGaps(ClampAll(groups, n)) && InBounds(ClampAll(groups, n), n)
  {
    forall i | 0 <= i < |groups|
      ensures 0 <= Clamp(groups[i], n).start <= Clamp(groups[i], n).end <= n
    {
      assert groups[i] in groups;
    }
  }

  /** For spans that begin inside the text the result is the left-to-right rendering of what they cover of it. */
  lemma ClampedIsRender(text: string, spans: seq<Span>, minScore: real, allowed: set<string>, mask: string -> string)
    requires StartsInside(Kept(spans, minScore), |text|)
    ensures var groups := Merge(spans, minScore); var shown := ClampAll(groups, |text|);
      Laid(shown, 0, |text|) && Splice(text, groups, allowed, mask) == Render(text, 0, shown, allowed, mask)
  {
    hide Fold;
    hide Sorted;
    hide Kept;
    hide Splice;
    hide Render;
    hide IsSorted;
    hide LastGroup;
    hide StrictGaps;
    hide ClampAll;
    var kept := Kept(spans, minScore);
    var q := Sorted(kept);
    SortedIsSorted(kept);
    forall s | s in q
      ensures 0 <= s.start <= |text| && s.start <= s.end
    {
      assert s in multiset(q) && s in multiset(kept);
    }
    FoldStartsInside(q, |text|);
    FoldShape(q);
    var groups := Fold(q);
    ClampKeepsGaps(groups, |text|);
    var shown := ClampAll(groups, |text|);
    assert shown != [] ==> shown[0] in shown;
    GapsAreLaid(shown, 0, |text|);
    SpliceClamps(text, groups, allowed, mask);
    SpliceIsRender(text, shown, allowed, mask);
  }

  /** A span that begins behind the text is another matter: its mask is put at the end, and an earlier group that
      reaches past the end then cuts into that mask. */
  lemma SpanBehindTheTextIsCut()
    ensures var mask := (k: string) => "[" + k + "]";
      var groups := [Span(1, 5, "a", 0.9, ""), Span(7, 8, "b", 0.9, "")];
      && StrictGaps(groups)
      && Splice("xyz", groups[1..], {}, mask) == "xyz[b]"
      && Splice("xyz", groups, {}, mask) == "x[a]]"
  {
    var mask := (k: string) => "[" + k + "]";
    var first, second := Span(1, 5, "a", 0.9, ""), Span(7, 8, "b", 0.9, "");
    var groups := [first, second];
    assert groups[1..] == [second] && [second][1..] == [];
    assert Splice("xyz", [], {}, mask) == "xyz";
    assert "xyz"[..3] == "xyz" && "xyz"[3..] == "";
    assert Splice("xyz", [second], {}, mask) == "xyz" + "[b]" + "" == "xyz[b]";
    assert "xyz[b]"[..1] == "x" && "xyz[b]"[5..] == "]";
  }

  /** Neither is a span that begins before the text: a negative bound counts from the end, and text comes out twice. */
  lemma SpanBeforeTheTextRepeats()
    ensures Splice("xyz", [Span(-1, 1, "a", 0.9, "")], {}, (k: string) => "[" + k + "]") == "xy[a]yz"
  {
    var mask := (k: string) => "[" + k + "]";
    var g := Span(-1, 1, "a", 0.9, "");
    assert [g][1..] == [] && Splice("xyz", [], {}, mask) == "xyz";
    assert "xyz"[..2] == "xy" && "xyz"[1..] == "yz";
  }

  // ---------- what survives ----------

  ghost predicate Masked(groups: seq<Span>, allowed: set<string>, p: int) {
    exists g :: g in groups && g.kind !in allowed && g.start <= p < g.end
  }

  /** Where a position of the text is found in the rendered text. */
  function Target(pos: int, groups: seq<Span>, allowed: set<string>, mask: string -> string, p: int): int
    decreases groups
  {
    if groups == [] || p < groups[0].end then p - pos
    else
      var g := groups[0];
      g.start - pos + (if g.kind in allowed then g.end - g.start else |mask(g.kind)|)
      + Target(g.end, groups[1..], allowed, mask, p)
  }

  lemma MaskedByOne(groups: seq<Span>, allowed: set<string>, p: int)
    requires groups != []
    ensures Masked(groups, allowed, p) <==>
      (groups[0].kind !in allowed && groups[0].start <= p < groups[0].end) || Masked(groups[1..], allowed, p)
  {
    assert groups == [groups[0]] + groups[1..];
  }

  /** Everything outside the masked groups is still there. */
  lemma {:induction false} UnmaskedSurvives(text: string, pos: nat, groups: seq<Span>, allowed: set<string>,
                         mask: string -> string, p: nat)
    requires Laid(groups, pos, |text|) && pos <= p < |text| && !Masked(groups, allowed, p)
    ensures var r, t := Render(text, pos, groups, allowed, mask), Target(pos, groups, allowed, mask, p);
      0 <= t < |r| && r[t] == text[p]
    decreases groups
  {
    hide Masked;
    if groups != [] {
      var g := groups[0];
      MaskedByOne(groups, allowed, p);
      if p >= g.end {
        UnmaskedSurvives(text, g.end, groups[1..], allowed, mask, p);
      }
    }
  }

  /** ... and in the same order. */
  lemma {:induction false} OrderSurvives(pos: nat, n: nat, groups: seq<Span>, allowed: set<string>,
                      mask: string -> string, p: nat, q: nat)
    requires Laid(groups, pos, n) && pos <= p < q < n
    requires !Masked(groups, allowed, p) && !Masked(groups, allowed, q)
    ensures Target(pos, groups, allowed, mask, p) < Target(pos, groups, allowed, mask, q)
    decreases groups
  {
    if groups != [] && q >= groups[0].end {
      var g, rest := groups[0], groups[1..];
      assert forall h | h in rest :: h in groups;
      if p >= g.end {
        OrderSurvives(g.end, n, rest, allowed, mask, p, q);
      } else {
        TargetIsForward(g.end, n, rest, allowed, mask, q);
        assert g in groups;
        assert p < g.start || g.kind in allowed;
      }
    }
  }

  lemma {:induction false} TargetIsForward(pos: nat, n: nat, groups: seq<Span>, allowed: set<string>,
                        mask: string -> string, p: nat)
    requires Laid(groups, pos, n) && pos <= p
    ensures Target(pos, groups, allowed, mask, p) >= 0
    decreases groups
  {
    if groups != [] && p >= groups[0].end {
      TargetIsForward(groups[0].end, n, groups[1..], allowed, mask, p);
    }
  }

  // ---------- the fate of a single span ----------

  /** A span lies inside the group that took it in. */
  lemma {:induction false} GroupContains(q: seq<Span>, i: nat)
    requires IsSorted(q) && i < |q|
    ensures Slot(q, i) < |Fold(q)|
    ensures Fold(q)[Slot(q, i)].start <= q[i].start && q[i].end <= Fold(q)[Slot(q, i)].end
    decreases |q|
  {
    hide IsSorted;
    hide LastGroup;
    hide StrictGaps;
    hide Slot;
    var n := |q| - 1;
    FoldShape(q);
    LastSlot(q);
    LastGroupContains(q);
    if i < n {
      FrontIsSorted(q);
      GroupContains(q[..n], i);
      SlotOfPrefix(q, i);
      FoldStep(q);
      hide Fold;
      ExtendContains(Fold(q[..n]), q[n], Slot(q, i));
    }
  }

  lemma LastGroupContains(q: seq<Span>)
    requires q != [] && LastGroup(q)
    ensures Fold(q) != []
    ensures var last := Fold(q)[|Fold(q)| - 1]; last.start <= q[|q| - 1].start && q[|q| - 1].end <= last.end
  {
  }

  /** Taking in another span makes no group smaller. */
  lemma ExtendContains(out: seq<Span>, s: Span, g: nat)
    requires g < |out|
    ensures g < |Extend(out, s)|
    ensures Extend(out, s)[g].start == out[g].start && out[g].end <= Extend(out, s)[g].end
  {
  }

  lemma {:induction false} GapsApart(out: seq<Span>, n: nat, i: nat, j: nat)
    requires StrictGaps(out) && InBounds(out, n) && i < j < |out|
    ensures out[i].end < out[j].start
  {
    if i + 1 < j {
      GapsApart(out, n, i, j - 1);
      assert out[j - 1] in out;
    }
  }

  /** Every position of a kept span is masked exactly when the label of its merged group is disallowed;
      its own label does not decide. */
  lemma SpanSharesItsGroup(spans: seq<Span>, minScore: real, n: nat, s: Span) returns (g: Span)
    requires InBounds(Kept(spans, minScore), n) && s in Kept(spans, minScore)
    ensures g in Merge(spans, minScore) && g.start <= s.start && s.end <= g.end && s.score <= g.score
    ensures forall allowed, p | s.start <= p < s.end ::
      Masked(Merge(spans, minScore), allowed, p) <==> g.kind !in allowed
  {
    hide IsSorted;
    hide Fold;
    hide Sorted;
    hide Slot;
    hide Kept;
    hide InBounds;
    hide StrictGaps;
    hide LastGroup;
    var kept := Kept(spans, minScore);
    var q := Sorted(kept);
    SortedIsSorted(kept);
    assert s in multiset(q);
    var i :| 0 <= i < |q| && q[i] == s;
    GroupContains(q, i);
    GroupIsHighest(q, i);
    MergedIsLaid(spans, minScore, n);
    FoldShape(q);
    var out, k := Fold(q), Slot(q, i);
    g := out[k];
    forall allowed, p | s.start <= p < s.end
      ensures Masked(out, allowed, p) <==> g.kind !in allowed
    {
      forall h | h in out && h.start <= p < h.end
        ensures h == g
      {
        var j: nat :| j < |out| && out[j] == h;
        OnlyOneGroup(out, n, j, k, p);
      }
    }
  }

  lemma OnlyOneGroup(out: seq<Span>, n: nat, j: nat, k: nat, p: int)
    requires StrictGaps(out) && InBounds(out, n) && j < |out| && k < |out|
    requires out[j].start <= p < out[j].end && out[k].start <= p < out[k].end
    ensures j == k
  {
    if j < k {
      GapsApart(out, n, j, k);
    } else if k < j {
      GapsApart(out, n, k, j);
    }
  }

  /** So a span with a disallowed label can stay readable: an allowed label that scores higher on the same
      words wins the group. */
  lemma AllowedLabelWins(mask: string -> string)
    ensures var name, phone := Span(0, 2, "identity.person_name", 0.9, ""), Span(0, 2, "contact.phone", 0.6, "");
      && phone in Kept([name, phone], 0.5)
      && Splice("ab", Merge([name, phone], 0.5), {"identity.person_name"}, mask) == "ab"
  {
    var name, phone := Span(0, 2, "identity.person_name", 0.9, ""), Span(0, 2, "contact.phone", 0.6, "");
    var spans := [name, phone];
    KeptKeepsAll(spans, 0.5);
    SortingSorted(spans);
    assert spans[..1] == [name] && spans[..1][..0] == [];
    assert Fold([name]) == [name];
    assert Fold(spans) == [Join(name, phone)];
  }
}
