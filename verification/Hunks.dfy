/**
  Hunks of internal/diff/diff.go: context windows around the changed operations are merged
  into spans, each span becomes a hunk with 1-based headers, and a patch program that looks
  at nothing but those headers rebuilds the new side.
 */
module Hunks {
  import opened EditScript
  import opened Wrappers
  import Text

  /** contextLines in the source. */
  const CONTEXT_LINES: nat := 3

  /** The half-open range of operations one hunk shows. */
  datatype Span = Span(start: nat, end: nat)

  datatype Hunk = Hunk(aStart: nat, aCount: nat, bStart: nat, bCount: nat, ops: seq<Op>)

  // ---- which operations are shown ----

  /** The indices below n that hold a change, in order. */
  function ChangedBelow(ops: seq<Op>, n: nat): seq<nat>
    requires n <= |ops|
  {
    if n == 0 then [] else ChangedBelow(ops, n - 1) + if ops[n - 1].Keep? then [] else [n - 1]
  }

  function WindowStart(idx: nat): nat {
    if idx < CONTEXT_LINES then 0 else idx - CONTEXT_LINES
  }

  function WindowEnd(idx: nat, len: nat): nat {
    if idx + CONTEXT_LINES + 1 > len then len else idx + CONTEXT_LINES + 1
  }

  /** One round of the merging loop: widen the last span or open a new one. */
  function AddWindow(spans: seq<Span>, idx: nat, len: nat): seq<Span> {
    var start, end := WindowStart(idx), WindowEnd(idx, len);
    if |spans| > 0 && start <= spans[|spans| - 1].end then
      if end > spans[|spans| - 1].end then spans[|spans| - 1 := spans[|spans| - 1].(end := end)] else spans
    else spans + [Span(start, end)]
  }

  function MergeWindows(changed: seq<nat>, len: nat): seq<Span> {
    if changed == [] then []
    else AddWindow(MergeWindows(changed[..|changed| - 1], len), changed[|changed| - 1], len)
  }

  function SpansOf(ops: seq<Op>): seq<Span> {
    MergeWindows(ChangedBelow(ops, |ops|), |ops|)
  }

  predicate InSpan(sp: Span, i: int) {
    sp.start <= i < sp.end
  }

  predicate Covered(spans: seq<Span>, i: int) {
    exists k :: 0 <= k < |spans| && InSpan(spans[k], i)
  }

  predicate Near(c: int, i: int) {
    c - 3 <= i <= c + 3
  }

  predicate NearSome(changed: seq<nat>, i: int) {
    exists k :: 0 <= k < |changed| && Near(changed[k], i)
  }

  /** An operation is to be shown when it is within three operations of a change. */
  predicate Shown(ops: seq<Op>, i: int) {
    0 <= i < |ops| && exists c :: 0 <= c < |ops| && !ops[c].Keep? && Near(c, i)
  }

  /** Nonempty ranges in order, with at least one operation between any two of them. */
  predicate Apart(spans: seq<Span>) {
    && (forall k :: 0 <= k < |spans| ==> spans[k].start < spans[k].end)
    && (forall k :: 0 < k < |spans| ==> spans[k - 1].end < spans[k].start)
  }

  predicate Ascending(changed: seq<nat>, len: nat) {
    && (forall k :: 0 <= k < |changed| ==> changed[k] < len)
    && (forall j, k :: 0 <= j < k < |changed| ==> changed[j] < changed[k])
  }

  lemma {:induction false} ChangedBelowExact(ops: seq<Op>, n: nat)
    requires n <= |ops|
    ensures Ascending(ChangedBelow(ops, n), n)
    ensures forall c :: c in ChangedBelow(ops, n) <==> 0 <= c < n && !ops[c].Keep?
  {
    if n > 0 {
      ChangedBelowExact(ops, n - 1);
    }
  }

  lemma {:induction false} ApartOrder(spans: seq<Span>, j: nat, k: nat)
    requires Apart(spans) && j < k < |spans|
    ensures spans[j].end < spans[k].start
    decreases k
  {
    if j < k - 1 {
      ApartOrder(spans, j, k - 1);
    }
  }

  /** A window that opens at or after the start of the last span and ends at or after its end. */
  predicate Follows(spans: seq<Span>, idx: nat, len: nat) {
    && idx < len
    && (spans != [] ==> spans[|spans| - 1].start <= WindowStart(idx) && spans[|spans| - 1].end <= WindowEnd(idx, len))
  }

  lemma AddWindowShape(spans: seq<Span>, idx: nat, len: nat)
    requires Apart(spans) && Follows(spans, idx, len)
    ensures var r := AddWindow(spans, idx, len);
            Apart(r) && r != [] && r[|r| - 1].end == WindowEnd(idx, len) && r[|r| - 1].start <= WindowStart(idx)
  {
  }

  lemma AddWindowCovers(spans: seq<Span>, idx: nat, len: nat, i: int)
    requires Follows(spans, idx, len)
    requires Covered(spans, i) || WindowStart(idx) <= i < WindowEnd(idx, len)
    ensures Covered(AddWindow(spans, idx, len), i)
  {
    var r := AddWindow(spans, idx, len);
    if Covered(spans, i) {
      var k :| 0 <= k < |spans| && InSpan(spans[k], i);
      assert InSpan(r[k], i);
    } else {
      assert InSpan(r[|r| - 1], i);
    }
  }

  lemma AddWindowCoversOnly(spans: seq<Span>, idx: nat, len: nat, i: int)
    requires Follows(spans, idx, len) && Covered(AddWindow(spans, idx, len), i)
    ensures Covered(spans, i) || WindowStart(idx) <= i < WindowEnd(idx, len)
  {
    var r := AddWindow(spans, idx, len);
    var k :| 0 <= k < |r| && InSpan(r[k], i);
    if k < |spans| && i < spans[k].end {
      assert InSpan(spans[k], i);
    }
  }

  /** One round keeps the spans apart and covers exactly the new window besides. */
  lemma AddWindowExact(spans: seq<Span>, idx: nat, len: nat)
    requires Apart(spans) && Follows(spans, idx, len)
    ensures var r := AddWindow(spans, idx, len);
            && Apart(r) && r != [] && r[|r| - 1].end == WindowEnd(idx, len) && r[|r| - 1].start <= WindowStart(idx)
            && forall i :: Covered(r, i) <==> Covered(spans, i) || WindowStart(idx) <= i < WindowEnd(idx, len)
  {
    AddWindowShape(spans, idx, len);
    forall i
      ensures Covered(AddWindow(spans, idx, len), i) <==>
              Covered(spans, i) || WindowStart(idx) <= i < WindowEnd(idx, len)
    {
      if Covered(spans, i) || WindowStart(idx) <= i < WindowEnd(idx, len) {
        AddWindowCovers(spans, idx, len, i);
      }
      if Covered(AddWindow(spans, idx, len), i) {
        AddWindowCoversOnly(spans, idx, len, i);
      }
    }
  }

  lemma NearSomeSnoc(init: seq<nat>, idx: nat, i: int)
    ensures NearSome(init + [idx], i) <==> NearSome(init, i) || Near(idx, i)
  {
    var changed := init + [idx];
    if NearSome(init, i) {
      var k :| 0 <= k < |init| && Near(init[k], i);
      assert Near(changed[k], i);
    }
    if Near(idx, i) {
      assert Near(changed[|init|], i);
    }
    if NearSome(changed, i) {
      var k :| 0 <= k < |changed| && Near(changed[k], i);
      if k < |init| {
        assert Near(init[k], i);
      }
    }
  }

  ghost predicate MergeExact(spans: seq<Span>, changed: seq<nat>, len: nat) {
    && Apart(spans)
    && (changed == [] <==> spans == [])
    && (changed != [] ==> spans[|spans| - 1].end == WindowEnd(changed[|changed| - 1], len)
                          && spans[|spans| - 1].start <= WindowStart(changed[|changed| - 1]))
    && forall i :: Covered(spans, i) <==> 0 <= i < len && NearSome(changed, i)
  }

  /** One round of the merging loop, from the changes in init to one more. */
  lemma MergeOne(before: seq<Span>, init: seq<nat>, idx: nat, len: nat)
    requires MergeExact(before, init, len) && idx < len && forall k :: 0 <= k < |init| ==> init[k] < idx
    ensures MergeExact(AddWindow(before, idx, len), init + [idx], len)
  {
    AddWindowExact(before, idx, len);
    forall i ensures Covered(AddWindow(before, idx, len), i) <==> 0 <= i < len && NearSome(init + [idx], i) {
      NearSomeSnoc(init, idx, i);
    }
  }

  lemma {:induction false} MergeWindowsExact(changed: seq<nat>, len: nat)
    requires Ascending(changed, len)
    ensures MergeExact(MergeWindows(changed, len), changed, len)
  {
    if changed != [] {
      var n := |changed| - 1;
      MergeWindowsExact(changed[..n], len);
      MergeOne(MergeWindows(changed[..n], len), changed[..n], changed[n], len);
      assert changed == changed[..n] + [changed[n]];
    }
  }

  /** The merged spans are apart and show exactly the operations near a change. */
  lemma SpansExact(ops: seq<Op>)
    ensures Apart(SpansOf(ops))
    ensures forall i :: Covered(SpansOf(ops), i) <==> Shown(ops, i)
  {
    var changed := ChangedBelow(ops, |ops|);
    ChangedBelowExact(ops, |ops|);
    MergeWindowsExact(changed, |ops|);
    forall i | 0 <= i < |ops| ensures NearSome(changed, i) <==> Shown(ops, i) {
      if NearSome(changed, i) {
        var k :| 0 <= k < |changed| && Near(changed[k], i);
        assert changed[k] in changed;
      }
      if Shown(ops, i) {
        var c :| 0 <= c < |ops| && !ops[c].Keep? && Near(c, i);
        assert c in changed;
        var k :| 0 <= k < |changed| && changed[k] == c;
        assert Near(changed[k], i);
      }
    }
  }

  /** Every changed operation lies in exactly one span. */
  lemma ChangeInOneSpan(ops: seq<Op>, c: nat)
    requires c < |ops| && !ops[c].Keep?
    ensures exists k :: 0 <= k < |SpansOf(ops)| && InSpan(SpansOf(ops)[k], c)
    ensures forall j, k | 0 <= j < |SpansOf(ops)| && 0 <= k < |SpansOf(ops)| ::
              InSpan(SpansOf(ops)[j], c) && InSpan(SpansOf(ops)[k], c) ==> j == k
  {
    SpansExact(ops);
    assert Near(c, c) && Shown(ops, c);
    assert Covered(SpansOf(ops), c);
    var spans := SpansOf(ops);
    forall j, k | 0 <= j < k < |spans| ensures spans[j].end < spans[k].start {
      ApartOrder(spans, j, k);
    }
  }

  /** The first span starts at the least covered index and ends at the first gap. */
  lemma FirstSpan(s: seq<Span>)
    requires Apart(s) && s != []
    ensures Covered(s, s[0].start) && !Covered(s, s[0].end)
    ensures forall i :: Covered(s, i) ==> s[0].start <= i
  {
    assert InSpan(s[0], s[0].start);
    forall k | 0 < k < |s| ensures s[0].end < s[k].start {
      ApartOrder(s, 0, k);
    }
  }

  lemma SameFirstSpan(s: seq<Span>, t: seq<Span>)
    requires Apart(s) && Apart(t) && s != [] && t != []
    requires forall i :: Covered(s, i) <==> Covered(t, i)
    ensures s[0] == t[0]
  {
    FirstSpan(s);
    FirstSpan(t);
    assert s[0].start == t[0].start;
    assert s[0].end < t[0].end ==> InSpan(t[0], s[0].end);
    assert t[0].end < s[0].end ==> InSpan(s[0], t[0].end);
  }

  /** Spans that are apart are determined by what they cover. */
  lemma {:induction false} ApartUnique(s: seq<Span>, t: seq<Span>)
    requires Apart(s) && Apart(t)
    requires forall i :: Covered(s, i) <==> Covered(t, i)
    ensures s == t
  {
    if s != [] && t != [] {
      SameFirstSpan(s, t);
      forall i ensures Covered(s[1..], i) <==> Covered(t[1..], i) {
        CoveredTail(s, i);
        CoveredTail(t, i);
      }
      ApartUnique(s[1..], t[1..]);
      assert s == [s[0]] + s[1..] && t == [t[0]] + t[1..];
    } else if s != [] {
      FirstSpan(s);
    } else if t != [] {
      FirstSpan(t);
    }
  }

  lemma CoveredTail(s: seq<Span>, i: int)
    requires Apart(s) && s != []
    ensures Covered(s[1..], i) <==> Covered(s, i) && i >= s[0].end
  {
    forall k | 0 < k < |s| ensures s[0].end < s[k].start {
      ApartOrder(s, 0, k);
    }
    if Covered(s[1..], i) {
      var k :| 0 <= k < |s[1..]| && InSpan(s[1..][k], i);
      assert InSpan(s[k + 1], i);
    }
    if Covered(s, i) && i >= s[0].end {
      var k :| 0 <= k < |s| && InSpan(s[k], i);
      assert InSpan(s[1..][k - 1], i);
    }
  }

  // ---- the lines a range of operations covers on each side ----

  /** The old lines of operations i up to j. */
  function Old(ops: seq<Op>, i: nat, j: nat): seq<string>
    requires i <= j <= |ops|
    decreases j - i
  {
    if i == j then [] else Old(ops, i, j - 1) + if ops[j - 1].Add? then [] else [ops[j - 1].text]
  }

  /** The new lines of operations i up to j. */
  function New(ops: seq<Op>, i: nat, j: nat): seq<string>
    requires i <= j <= |ops|
    decreases j - i
  {
    if i == j then [] else New(ops, i, j - 1) + if ops[j - 1].Del? then [] else [ops[j - 1].text]
  }

  lemma {:induction false} Join(ops: seq<Op>, i: nat, j: nat, k: nat)
    requires i <= j <= k <= |ops|
    ensures Old(ops, i, k) == Old(ops, i, j) + Old(ops, j, k)
    ensures New(ops, i, k) == New(ops, i, j) + New(ops, j, k)
    decreases k
  {
    if j < k {
      Join(ops, i, j, k - 1);
    }
  }

  lemma {:induction false} SlicePrefix(ops: seq<Op>, s: seq<Op>, i: nat, n: nat)
    requires n <= |s| && i + n <= |ops|
    requires forall k :: 0 <= k < n ==> s[k] == ops[i + k]
    ensures Old(s, 0, n) == Old(ops, i, i + n) && New(s, 0, n) == New(ops, i, i + n)
  {
    if n > 0 {
      SlicePrefix(ops, s, i, n - 1);
    }
  }

  function AllOld(ops: seq<Op>): seq<string> {
    Old(ops, 0, |ops|)
  }

  function AllNew(ops: seq<Op>): seq<string> {
    New(ops, 0, |ops|)
  }

  /** The sides of a slice of the script are the lines its range covers. */
  lemma {:induction false} SliceSides(ops: seq<Op>, i: nat, j: nat)
    requires i <= j <= |ops|
    ensures AllOld(ops[i..j]) == Old(ops, i, j) && AllNew(ops[i..j]) == New(ops, i, j)
  {
    CopySides(ops, ops[i..j], i, j);
  }

  lemma {:induction false} CopySides(ops: seq<Op>, s: seq<Op>, i: nat, j: nat)
    requires i <= j <= |ops| && |s| == j - i && forall k :: 0 <= k < |s| ==> s[k] == ops[i + k]
    ensures AllOld(s) == Old(ops, i, j) && AllNew(s) == New(ops, i, j)
  {
    SlicePrefix(ops, s, i, |s|);
  }

  lemma FirstOp(ops: seq<Op>)
    requires ops != []
    ensures AllOld(ops) == (if ops[0].Add? then [] else [ops[0].text]) + AllOld(ops[1..])
    ensures AllNew(ops) == (if ops[0].Del? then [] else [ops[0].text]) + AllNew(ops[1..])
  {
    Join(ops, 0, 1, |ops|);
    SlicePrefix(ops, ops[1..], 1, |ops| - 1);
    assert Old(ops, 0, 0) == [] && New(ops, 0, 0) == [];
  }

  lemma {:induction false} WholeSides(ops: seq<Op>)
    ensures AllOld(ops) == OldSide(ops) && AllNew(ops) == NewSide(ops)
  {
    if ops != [] {
      WholeSides(ops[1..]);
      FirstOp(ops);
    }
  }

  lemma {:induction false} KeptSidesEqual(ops: seq<Op>, i: nat, j: nat)
    requires i <= j <= |ops| && forall k :: i <= k < j ==> ops[k].Keep?
    ensures Old(ops, i, j) == New(ops, i, j)
    decreases j
  {
    if i < j {
      KeptSidesEqual(ops, i, j - 1);
    }
  }

  /** How many old lines the first n operations consume. */
  function OldCount(ops: seq<Op>, n: nat): nat
    requires n <= |ops|
  {
    |Old(ops, 0, n)|
  }

  /** How many new lines the first n operations produce. */
  function NewCount(ops: seq<Op>, n: nat): nat
    requires n <= |ops|
  {
    |New(ops, 0, n)|
  }

  lemma Middle<T>(x: seq<T>, y: seq<T>, z: seq<T>)
    ensures (x + y + z)[|x|..|x| + |y|] == y
  {
  }

  /** The old lines of a range sit between the counts at its two ends. */
  lemma {:induction false} OldLocated(ops: seq<Op>, i: nat, j: nat)
    requires i <= j <= |ops|
    ensures OldCount(ops, i) + |Old(ops, i, j)| == OldCount(ops, j) <= |AllOld(ops)|
    ensures NewCount(ops, i) + |New(ops, i, j)| == NewCount(ops, j)
    ensures AllOld(ops)[OldCount(ops, i)..OldCount(ops, j)] == Old(ops, i, j)
  {
    Join(ops, 0, i, j);
    Join(ops, 0, j, |ops|);
    Middle(Old(ops, 0, i), Old(ops, i, j), Old(ops, j, |ops|));
  }

  // ---- hunks ----

  /** The hunk for one span: its counts, and on each side the first line shown, or the line before when none is. */
  function HunkAt(ops: seq<Op>, sp: Span): Hunk
    requires sp.start <= sp.end <= |ops|
  {
    var aCount, bCount := |Old(ops, sp.start, sp.end)|, |New(ops, sp.start, sp.end)|;
    Hunk(if aCount == 0 then OldCount(ops, sp.start) else OldCount(ops, sp.start) + 1, aCount,
         if bCount == 0 then NewCount(ops, sp.start) else NewCount(ops, sp.start) + 1, bCount,
         ops[sp.start..sp.end])
  }

  predicate Within(spans: seq<Span>, len: nat) {
    forall k :: 0 <= k < |spans| ==> spans[k].start <= spans[k].end <= len
  }

  function HunksAt(ops: seq<Op>, spans: seq<Span>): seq<Hunk>
    requires Within(spans, |ops|)
  {
    if spans == [] then [] else [HunkAt(ops, spans[0])] + HunksAt(ops, spans[1..])
  }

  lemma SpansWithin(ops: seq<Op>)
    ensures Apart(SpansOf(ops)) && Within(SpansOf(ops), |ops|)
  {
    SpansExact(ops);
    var spans := SpansOf(ops);
    forall k | 0 <= k < |spans| ensures spans[k].start <= spans[k].end <= |ops| {
      assert InSpan(spans[k], spans[k].end - 1) && Covered(spans, spans[k].end - 1);
    }
  }

  function HunksOf(ops: seq<Op>): seq<Hunk> {
    SpansWithin(ops);
    HunksAt(ops, SpansOf(ops))
  }

  // ---- a patch program that trusts only the headers ----

  /** The 0-based position a header names: a hunk with no line on a side sits after line start. */
  function Position(start: nat, count: nat): int {
    if count == 0 then start else start - 1
  }

  /** Both positions, both counts and the old lines are as the header of h says. */
  predicate Fits(a: seq<string>, h: Hunk, cursor: nat, written: nat) {
    var at := Position(h.aStart, h.aCount);
    && cursor <= at && at + h.aCount <= |a|
    && AllOld(h.ops) == a[at..at + h.aCount]
    && |AllNew(h.ops)| == h.bCount
    && Position(h.bStart, h.bCount) == written + (at - cursor)
  }

  /**
    Applies the hunks to the lines of a from cursor on, having written that many lines: copies up to
    the position in the hunk's header and replaces the old lines there, or fails when it does not fit.
   */
  function Patch(a: seq<string>, hs: seq<Hunk>, cursor: nat, written: nat): Option<seq<string>> {
    if hs == [] then
      if cursor <= |a| then Some(a[cursor..]) else None
    else if !Fits(a, hs[0], cursor, written) then None
    else
      var h := hs[0];
      var at := Position(h.aStart, h.aCount);
      match Patch(a, hs[1..], at + h.aCount, written + (at - cursor) + h.bCount)
      case None => None
      case Some(rest) => Some(a[cursor..at] + AllNew(h.ops) + rest)
  }

  ghost predicate Pending(ops: seq<Op>, spans: seq<Span>, c: nat) {
    && c <= |ops| && Apart(spans) && Within(spans, |ops|)
    && (spans != [] ==> c <= spans[0].start)
    && forall i :: c <= i < |ops| && !ops[i].Keep? ==> Covered(spans, i)
  }

  lemma PendingTail(ops: seq<Op>, spans: seq<Span>, c: nat)
    requires Pending(ops, spans, c) && spans != []
    ensures forall i :: c <= i < spans[0].start ==> ops[i].Keep?
    ensures Pending(ops, spans[1..], spans[0].end)
  {
    FirstSpan(spans);
    forall i | spans[0].end <= i < |ops| && !ops[i].Keep? ensures Covered(spans[1..], i) {
      CoveredTail(spans, i);
    }
  }

  lemma PendingAtStart(ops: seq<Op>)
    ensures Pending(ops, SpansOf(ops), 0)
  {
    SpansExact(ops);
    SpansWithin(ops);
    forall i | 0 <= i < |ops| && !ops[i].Keep? ensures Covered(SpansOf(ops), i) {
      assert Near(i, i) && Shown(ops, i);
    }
  }

  lemma SpanFits(ops: seq<Op>, c: nat, sp: Span)
    requires c <= sp.start <= sp.end <= |ops|
    requires forall i :: c <= i < sp.start ==> ops[i].Keep?
    ensures Fits(AllOld(ops), HunkAt(ops, sp), OldCount(ops, c), NewCount(ops, c))
  {
    SliceSides(ops, sp.start, sp.end);
    OldLocated(ops, c, sp.start);
    OldLocated(ops, sp.start, sp.end);
    KeptSidesEqual(ops, c, sp.start);
  }

  /** What is left to output at c: the kept lines copied from the old side, the span, and the rest. */
  lemma {:induction false} SpanOutput(ops: seq<Op>, c: nat, sp: Span)
    requires c <= sp.start <= sp.end <= |ops|
    requires forall i :: c <= i < sp.start ==> ops[i].Keep?
    ensures OldCount(ops, c) <= OldCount(ops, sp.start) <= |AllOld(ops)|
    ensures New(ops, c, |ops|) == AllOld(ops)[OldCount(ops, c)..OldCount(ops, sp.start)]
                                  + New(ops, sp.start, sp.end) + New(ops, sp.end, |ops|)
  {
    OldLocated(ops, c, sp.start);
    KeptSidesEqual(ops, c, sp.start);
    Join(ops, c, sp.start, |ops|);
    Join(ops, sp.start, sp.end, |ops|);
  }

  lemma {:induction false} PatchSpan(ops: seq<Op>, c: nat, sp: Span, hs: seq<Hunk>)
    requires c <= sp.start <= sp.end <= |ops|
    requires forall i :: c <= i < sp.start ==> ops[i].Keep?
    requires Patch(AllOld(ops), hs, OldCount(ops, sp.end), NewCount(ops, sp.end))
             == Some(New(ops, sp.end, |ops|))
    ensures Patch(AllOld(ops), [HunkAt(ops, sp)] + hs, OldCount(ops, c), NewCount(ops, c))
            == Some(New(ops, c, |ops|))
  {
    SpanFits(ops, c, sp);
    SpanPosition(ops, sp);
    OldLocated(ops, c, sp.start);
    PatchOne(AllOld(ops), HunkAt(ops, sp), hs, OldCount(ops, c), NewCount(ops, c), New(ops, sp.end, |ops|));
    SpanOutput(ops, c, sp);
  }

  /** One fitting hunk in front of the others. */
  lemma {:induction false} PatchOne(a: seq<string>, h: Hunk, hs: seq<Hunk>, cursor: nat, written: nat,
                                    rest: seq<string>)
    requires Fits(a, h, cursor, written)
    requires var at := Position(h.aStart, h.aCount);
             Patch(a, hs, at + h.aCount, written + (at - cursor) + h.bCount) == Some(rest)
    ensures Patch(a, [h] + hs, cursor, written) ==
            Some(a[cursor..Position(h.aStart, h.aCount)] + AllNew(h.ops) + rest)
  {
    assert ([h] + hs)[1..] == hs;
  }

  lemma {:induction false} SpanPosition(ops: seq<Op>, sp: Span)
    requires sp.start <= sp.end <= |ops|
    ensures var h := HunkAt(ops, sp);
            && Position(h.aStart, h.aCount) == OldCount(ops, sp.start) && AllNew(h.ops) == New(ops, sp.start, sp.end)
            && OldCount(ops, sp.start) + h.aCount == OldCount(ops, sp.end)
            && NewCount(ops, sp.start) + h.bCount == NewCount(ops, sp.end)
  {
    SliceSides(ops, sp.start, sp.end);
    OldLocated(ops, sp.start, sp.end);
  }

  /** From operation c on, the remaining hunks rebuild the remaining new lines. */
  lemma {:induction false} PatchFrom(ops: seq<Op>, spans: seq<Span>, c: nat)
    requires Pending(ops, spans, c)
    ensures Patch(AllOld(ops), HunksAt(ops, spans), OldCount(ops, c), NewCount(ops, c))
            == Some(New(ops, c, |ops|))
    decreases |spans|
  {
    if spans == [] {
      KeptSidesEqual(ops, c, |ops|);
      OldLocated(ops, c, |ops|);
      assert AllOld(ops)[OldCount(ops, c)..] == AllOld(ops)[OldCount(ops, c)..|AllOld(ops)|];
    } else {
      PendingTail(ops, spans, c);
      PatchFrom(ops, spans[1..], spans[0].end);
      PatchSpan(ops, c, spans[0], HunksAt(ops, spans[1..]));
    }
  }

  /** Patch correctness: the hunks of any script from a to b, located by their headers alone, turn a into b. */
  lemma {:induction false} PatchRebuilds(ops: seq<Op>, a: seq<string>, b: seq<string>)
    requires Turns(ops, a, b)
    ensures Patch(a, HunksOf(ops), 0, 0) == Some(b)
  {
    PendingAtStart(ops);
    PatchFrom(ops, SpansOf(ops), 0);
    WholeSides(ops);
  }

  // ---- the reverse patch ----

  function FlipOp(o: Op): Op {
    match o
    case Keep(t) => Keep(t)
    case Del(t) => Add(t)
    case Add(t) => Del(t)
  }

  /** Exchanges the two sides. */
  function Flip(ops: seq<Op>): (r: seq<Op>)
    ensures |r| == |ops| && forall i :: 0 <= i < |ops| ==> r[i] == FlipOp(ops[i])
  {
    seq(|ops|, i requires 0 <= i < |ops| => FlipOp(ops[i]))
  }

  function Reverse(h: Hunk): Hunk {
    Hunk(h.bStart, h.bCount, h.aStart, h.aCount, Flip(h.ops))
  }

  function ReverseAll(hs: seq<Hunk>): (r: seq<Hunk>)
    ensures |r| == |hs| && forall i :: 0 <= i < |hs| ==> r[i] == Reverse(hs[i])
  {
    seq(|hs|, i requires 0 <= i < |hs| => Reverse(hs[i]))
  }

  lemma {:induction false} FlipSides(ops: seq<Op>, i: nat, j: nat)
    requires i <= j <= |ops|
    ensures Old(Flip(ops), i, j) == New(ops, i, j) && New(Flip(ops), i, j) == Old(ops, i, j)
    decreases j
  {
    if i < j {
      FlipSides(ops, i, j - 1);
    }
  }

  lemma {:induction false} FlipChanged(ops: seq<Op>, n: nat)
    requires n <= |ops|
    ensures ChangedBelow(Flip(ops), n) == ChangedBelow(ops, n)
  {
    if n > 0 {
      FlipChanged(ops, n - 1);
    }
  }

  lemma FlipHunk(ops: seq<Op>, sp: Span)
    requires sp.start <= sp.end <= |ops|
    ensures HunkAt(Flip(ops), sp) == Reverse(HunkAt(ops, sp))
  {
    FlipSides(ops, 0, sp.start);
    FlipSides(ops, sp.start, sp.end);
    assert Flip(ops)[sp.start..sp.end] == Flip(ops[sp.start..sp.end]);
  }

  lemma {:induction false} FlipHunks(ops: seq<Op>, spans: seq<Span>)
    requires Within(spans, |ops|)
    ensures HunksAt(Flip(ops), spans) == ReverseAll(HunksAt(ops, spans))
  {
    if spans != [] {
      FlipHunk(ops, spans[0]);
      FlipHunks(ops, spans[1..]);
    }
  }

  /** Swapping the two sides of every hunk undoes the patch. */
  lemma {:induction false} ReversePatchRestores(ops: seq<Op>, a: seq<string>, b: seq<string>)
    requires Turns(ops, a, b)
    ensures Patch(b, ReverseAll(HunksOf(ops)), 0, 0) == Some(a)
  {
    FlipSides(ops, 0, |ops|);
    WholeSides(ops);
    WholeSides(Flip(ops));
    FlipChanged(ops, |ops|);
    SpansWithin(ops);
    FlipHunks(ops, SpansOf(ops));
    PatchRebuilds(Flip(ops), b, a);
  }

  // ---- the loops of hunks ----

  lemma {:induction false} MergeNext(changed: seq<nat>, k: nat, len: nat)
    requires k < |changed|
    ensures MergeWindows(changed[..k + 1], len) == AddWindow(MergeWindows(changed[..k], len), changed[k], len)
  {
    assert changed[..k + 1][..k] == changed[..k];
  }

  /** The first loop of hunks. */
  method Changed(ops: seq<Op>) returns (changed: seq<nat>)
    ensures changed == ChangedBelow(ops, |ops|)
  {
    changed := [];
    for i := 0 to |ops|
      invariant changed == ChangedBelow(ops, i)
    {
      if !ops[i].Keep? {
        changed := changed + [i];
      }
    }
  }

  /** The second loop of hunks. */
  method MergedSpans(changed: seq<nat>, len: nat) returns (spans: seq<Span>)
    ensures spans == MergeWindows(changed, len)
  {
    spans := [];
    for k := 0 to |changed|
      invariant spans == MergeWindows(changed[..k], len)
    {
      MergeNext(changed, k, len);
      var idx := changed[k];
      var start := if idx < CONTEXT_LINES then 0 else idx - CONTEXT_LINES;
      var end := idx + CONTEXT_LINES + 1;
      if end > len {
        end := len;
      }
      if |spans| > 0 && start <= spans[|spans| - 1].end {
        if end > spans[|spans| - 1].end {
          spans := spans[|spans| - 1 := spans[|spans| - 1].(end := end)];
        }
      } else {
        spans := spans + [Span(start, end)];
      }
    }
    assert changed[..|changed|] == changed;
  }

  /** The inner loop that moves the cursor over operations no hunk shows. */
  method Advance(ops: seq<Op>, from: nat, to: nat, aStart: nat, bStart: nat) returns (aLine: nat, bLine: nat)
    requires from <= to <= |ops|
    requires aStart == OldCount(ops, from) + 1 && bStart == NewCount(ops, from) + 1
    ensures aLine == OldCount(ops, to) + 1 && bLine == NewCount(ops, to) + 1
  {
    aLine, bLine := aStart, bStart;
    var cursor := from;
    while cursor < to
      invariant from <= cursor <= to
      invariant aLine == OldCount(ops, cursor) + 1 && bLine == NewCount(ops, cursor) + 1
    {
      match ops[cursor] {
        case Keep(_) => aLine, bLine := aLine + 1, bLine + 1;
        case Del(_) => aLine := aLine + 1;
        case Add(_) => bLine := bLine + 1;
      }
      cursor := cursor + 1;
    }
  }

  /** The inner loop that fills one hunk while the cursor crosses its span. */
  method ShowSpan(ops: seq<Op>, sp: Span, aStart: nat, bStart: nat) returns (h: Hunk, aLine: nat, bLine: nat)
    requires sp.start <= sp.end <= |ops|
    requires aStart == OldCount(ops, sp.start) + 1 && bStart == NewCount(ops, sp.start) + 1
    ensures h == HunkAt(ops, sp)
    ensures aLine == OldCount(ops, sp.end) + 1 && bLine == NewCount(ops, sp.end) + 1
  {
    aLine, bLine := aStart, bStart;
    h := Hunk(aLine, 0, bLine, 0, []);
    var cursor := sp.start;
    while cursor < sp.end
      invariant sp.start <= cursor <= sp.end
      invariant h.ops == ops[sp.start..cursor] && h.aStart == aStart && h.bStart == bStart
      invariant aLine == OldCount(ops, cursor) + 1 && bLine == NewCount(ops, cursor) + 1
      invariant h.aCount == |Old(ops, sp.start, cursor)| && h.bCount == |New(ops, sp.start, cursor)|
    {
      var o := ops[cursor];
      h := h.(ops := h.ops + [o]);
      match o {
        case Keep(_) =>
          h := h.(aCount := h.aCount + 1, bCount := h.bCount + 1);
          aLine, bLine := aLine + 1, bLine + 1;
        case Del(_) =>
          h := h.(aCount := h.aCount + 1);
          aLine := aLine + 1;
        case Add(_) =>
          h := h.(bCount := h.bCount + 1);
          bLine := bLine + 1;
      }
      cursor := cursor + 1;
    }
    if h.aCount == 0 {
      h := h.(aStart := h.aStart - 1);
    }
    if h.bCount == 0 {
      h := h.(bStart := h.bStart - 1);
    }
  }

  lemma {:induction false} HunksFrom(ops: seq<Op>, spans: seq<Span>, k: nat)
    requires Within(spans, |ops|) && k < |spans|
    ensures HunksAt(ops, spans[k..]) == [HunkAt(ops, spans[k])] + HunksAt(ops, spans[k + 1..])
  {
    assert spans[k..][1..] == spans[k + 1..];
  }

  /** hunks: merges the windows, then numbers the lines with one cursor that never goes back. */
  method MakeHunks(ops: seq<Op>) returns (hs: seq<Hunk>)
    ensures hs == HunksOf(ops)
  {
    var changed := Changed(ops);
    var spans := MergedSpans(changed, |ops|);
    SpansWithin(ops);
    hs := [];
    var aLine: nat, bLine: nat, cursor: nat := 1, 1, 0;
    for k := 0 to |spans|
      invariant cursor <= |ops| && (k < |spans| ==> cursor <= spans[k].start)
      invariant aLine == OldCount(ops, cursor) + 1 && bLine == NewCount(ops, cursor) + 1
      invariant HunksAt(ops, spans) == hs + HunksAt(ops, spans[k..])
    {
      var sp := spans[k];
      aLine, bLine := Advance(ops, cursor, sp.start, aLine, bLine);
      var h;
      h, aLine, bLine := ShowSpan(ops, sp, aLine, bLine);
      cursor := sp.end;
      HunksFrom(ops, spans, k);
      Text.Regrouped(hs, [h], HunksAt(ops, spans[k + 1..]));
      hs := hs + [h];
    }
  }
}
