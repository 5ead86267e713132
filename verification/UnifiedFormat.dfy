/**
  The text of a unified diff: Unified and render of internal/diff/diff.go print it, parseUnified
  of web/src/lib/diff.ts and a count-driven patch reader take it apart again.
 */
module UnifiedFormat {
  import opened EditScript
  import opened Hunks
  import opened Text
  import opened Wrappers

  /** maxDPCells in the source. */
  const MAX_DP_CELLS: nat := 4_000_000

  // ---- printing ----

  function KindChar(o: Op): char {
    match o
    case Keep(_) => ' '
    case Del(_) => '-'
    case Add(_) => '+'
  }

  function BodyLine(o: Op): string {
    [KindChar(o)] + o.text
  }

  function BodyLines(ops: seq<Op>): seq<string> {
    if ops == [] then [] else [BodyLine(ops[0])] + BodyLines(ops[1..])
  }

  function HeaderLine(h: Hunk): string {
    "@@ -" + ShowNat(h.aStart) + "," + ShowNat(h.aCount) + " +" + ShowNat(h.bStart) + "," + ShowNat(h.bCount) + " @@"
  }

  function HunkBlock(h: Hunk): seq<string> {
    [HeaderLine(h)] + BodyLines(h.ops)
  }

  function FlatMap<T>(f: T -> seq<string>, xs: seq<T>): seq<string> {
    if xs == [] then [] else f(xs[0]) + FlatMap(f, xs[1..])
  }

  function HunkLines(hs: seq<Hunk>): seq<string> {
    FlatMap(HunkBlock, hs)
  }

  function DocumentLines(hs: seq<Hunk>): seq<string> {
    ["--- a", "+++ b"] + HunkLines(hs)
  }

  function Printed(hs: seq<Hunk>): string {
    Unlines(DocumentLines(hs))
  }

  predicate HasChange(ops: seq<Op>) {
    exists i :: 0 <= i < |ops| && !ops[i].Keep?
  }

  /** The script Unified prints: the walk over the table, or one block replacement above the cell limit. */
  function ScriptFor(a: seq<string>, b: seq<string>): seq<Op> {
    if |a| * |b| > MAX_DP_CELLS then Dels(a) + Adds(b) else Script(a, b)
  }

  function UnifiedText(a: string, b: string): string {
    var ops := ScriptFor(SplitLines(a), SplitLines(b));
    if HasChange(ops) then Printed(HunksOf(ops)) else ""
  }

  lemma {:induction false} UnlinesConcat(x: seq<string>, y: seq<string>)
    ensures Unlines(x + y) == Unlines(x) + Unlines(y)
  {
    if x == [] {
      assert x + y == y;
    } else {
      UnlinesConcat(x[1..], y);
      assert (x + y)[1..] == x[1..] + y;
    }
  }

  lemma {:induction false} UnlinesSnoc(x: seq<string>, line: string)
    ensures Unlines(x + [line]) == Unlines(x) + line + "\n"
  {
    UnlinesConcat(x, [line]);
    assert [line][1..] == [];
    assert Unlines([line]) == line + "\n" + Unlines([]);
  }

  lemma {:induction false} BodyLinesSnoc(ops: seq<Op>, o: Op)
    ensures BodyLines(ops + [o]) == BodyLines(ops) + [BodyLine(o)]
  {
    if ops != [] {
      BodyLinesSnoc(ops[1..], o);
      assert (ops + [o])[1..] == ops[1..] + [o];
    }
  }

  lemma {:induction false} FlatMapSnoc<T>(f: T -> seq<string>, xs: seq<T>, x: T)
    ensures FlatMap(f, xs + [x]) == FlatMap(f, xs) + f(x)
  {
    if xs == [] {
      assert (xs + [x])[1..] == [];
    } else {
      FlatMapSnoc(f, xs[1..], x);
      assert (xs + [x])[1..] == xs[1..] + [x];
    }
  }

  /** The inner loop of render: one line per operation. */
  method RenderBody(ops: seq<Op>) returns (text: string)
    ensures text == Unlines(BodyLines(ops))
  {
    text := "";
    for i := 0 to |ops|
      invariant text == Unlines(BodyLines(ops[..i]))
    {
      assert ops[..i + 1] == ops[..i] + [ops[i]];
      BodyLinesSnoc(ops[..i], ops[i]);
      UnlinesSnoc(BodyLines(ops[..i]), BodyLine(ops[i]));
      text := text + ([KindChar(ops[i])] + ops[i].text) + "\n";
    }
    assert ops[..|ops|] == ops;
  }

  lemma PrintedSnoc(hs: seq<Hunk>, h: Hunk)
    ensures Printed(hs + [h]) == Printed(hs) + HeaderLine(h) + "\n" + Unlines(BodyLines(h.ops))
  {
    var front, header, body := DocumentLines(hs), HeaderLine(h), BodyLines(h.ops);
    FlatMapSnoc(HunkBlock, hs, h);
    UnlinesConcat(front + [header], body);
    UnlinesSnoc(front, header);
    assert DocumentLines(hs + [h]) == front + [header] + body;
  }

  lemma PrintedEmpty()
    ensures Printed([]) == "--- a\n+++ b\n"
  {
    UnlinesSnoc(["--- a"], "+++ b");
    UnlinesSnoc([], "--- a");
    assert ["--- a"] + ["+++ b"] == ["--- a", "+++ b"] && [] + ["--- a"] == ["--- a"];
    assert DocumentLines([]) == ["--- a", "+++ b"];
  }

  /** render: the file headers, then every hunk under its header. */
  method Render(ops: seq<Op>) returns (text: string)
    ensures text == Printed(HunksOf(ops))
  {
    var hs := MakeHunks(ops);
    text := "--- a\n+++ b\n";
    PrintedEmpty();
    for k := 0 to |hs|
      invariant text == Printed(hs[..k])
    {
      assert hs[..k + 1] == hs[..k] + [hs[k]];
      PrintedSnoc(hs[..k], hs[k]);
      text := text + HeaderLine(hs[k]) + "\n";
      var rendered := RenderBody(hs[k].ops);
      text := text + rendered;
    }
    assert hs[..|hs|] == hs;
  }

  lemma {:induction false} TurnsCons(o: Op, rest: seq<Op>)
    ensures OldSide([o] + rest) == (if o.Add? then [] else [o.text]) + OldSide(rest)
    ensures NewSide([o] + rest) == (if o.Del? then [] else [o.text]) + NewSide(rest)
  {
    assert ([o] + rest)[1..] == rest;
  }

  lemma {:induction false} DelsAddsTurn(a: seq<string>, b: seq<string>)
    ensures Turns(Dels(a) + Adds(b), a, b)
  {
    if a == [] {
      AddsTurn(b);
      assert Dels(a) + Adds(b) == Adds(b);
    } else {
      DelsAddsTurn(a[1..], b);
      var rest := Dels(a[1..]) + Adds(b);
      Regrouped([Del(a[0])], Dels(a[1..]), Adds(b));
      TurnsCons(Del(a[0]), rest);
    }
  }

  lemma ScriptForTurns(a: seq<string>, b: seq<string>)
    ensures Turns(ScriptFor(a, b), a, b)
  {
    DelsAddsTurn(a, b);
    ScriptCorrect(a, b);
  }

  method HasChangeLoop(ops: seq<Op>) returns (r: bool)
    ensures r == HasChange(ops)
  {
    for i := 0 to |ops|
      invariant forall k :: 0 <= k < i ==> ops[k].Keep?
    {
      if !ops[i].Keep? {
        return true;
      }
    }
    return false;
  }

  /** The fallback above the cell limit: every old line out, every new line in. */
  method ReplaceWhole(al: seq<string>, bl: seq<string>) returns (ops: seq<Op>)
    ensures ops == Dels(al) + Adds(bl)
  {
    DelsShape(al);
    AddsShape(bl);
    ops := [];
    for i := 0 to |al|
      invariant ops == Dels(al)[..i]
    {
      ops := ops + [Del(al[i])];
    }
    for j := 0 to |bl|
      invariant ops == Dels(al) + Adds(bl)[..j]
    {
      ops := ops + [Add(bl[j])];
    }
  }

  /** Unified: splits both texts, picks the script, prints it when it changes anything. */
  method Unified(a: string, b: string) returns (text: string)
    ensures text == UnifiedText(a, b)
  {
    var al, bl := SplitLines(a), SplitLines(b);
    if |al| == 0 && |bl| == 0 {
      return "";
    }
    var ops: seq<Op>;
    if |al| * |bl| > MAX_DP_CELLS {
      ops := ReplaceWhole(al, bl);
    } else {
      ops := LcsOps(al, bl);
    }
    var changed := HasChangeLoop(ops);
    if !changed {
      return "";
    }
    text := Render(ops);
  }

  // ---- when the diff is empty ----

  lemma {:induction false} ScriptOfEqual(a: seq<string>)
    ensures !HasChange(Script(a, a))
  {
    if a != [] {
      ScriptOfEqual(a[1..]);
    }
  }

  lemma {:induction false} KeptScriptSides(ops: seq<Op>)
    requires forall i :: 0 <= i < |ops| ==> ops[i].Keep?
    ensures OldSide(ops) == NewSide(ops)
  {
    if ops != [] {
      KeptScriptSides(ops[1..]);
    }
  }

  /** The script changes nothing exactly when the lines are equal and within the cell limit. */
  lemma NoChangeIff(al: seq<string>, bl: seq<string>)
    ensures !HasChange(ScriptFor(al, bl)) <==> al == bl && |al| * |bl| <= MAX_DP_CELLS
  {
    var ops := ScriptFor(al, bl);
    ScriptForTurns(al, bl);
    if |al| * |bl| > MAX_DP_CELLS {
      DelsShape(al);
      assert |al| > 0;
      assert ops[0] == Del(al[0]);
    } else if al == bl {
      ScriptOfEqual(al);
    }
    if !HasChange(ops) {
      KeptScriptSides(ops);
    }
  }

  /** The diff is empty exactly when the texts have the same lines and the table is within its cell limit. */
  lemma {:induction false} EmptyIff(a: string, b: string)
    ensures UnifiedText(a, b) == "" <==>
            Terminated(Normalize(a)) == Terminated(Normalize(b)) && |SplitLines(a)| * |SplitLines(b)| <= 4_000_000
  {
    SameLinesIff(a, b);
    NoChangeIff(SplitLines(a), SplitLines(b));
  }

  /** With one line ending written as CRLF the diff is still empty, unless that ending follows another '\r'. */
  lemma CrlfCopyIff(x: string, y: string)
    requires |SplitLines(x + "\r\n" + y)| * |SplitLines(x + "\n" + y)| <= 4_000_000
    ensures UnifiedText(x + "\r\n" + y, x + "\n" + y) == "" <==> x == "" || x[|x| - 1] != '\r'
  {
    CrlfUnseenIff(x, y);
    NoChangeIff(SplitLines(x + "\r\n" + y), SplitLines(x + "\n" + y));
  }

  /** A text of n blank lines. */
  function Newlines(n: nat): (s: string)
    ensures |s| == n && forall i :: 0 <= i < n ==> s[i] == '\n'
  {
    if n == 0 then "" else "\n" + Newlines(n - 1)
  }

  lemma {:induction false} NewlinesNormal(n: nat)
    ensures Normalize(Newlines(n)) == Newlines(n)
  {
    if n > 0 {
      NewlinesNormal(n - 1);
      assert Newlines(n)[1..] == Newlines(n - 1);
    }
  }

  lemma {:induction false} NewlinesSplit(n: nat)
    ensures |Split(Newlines(n))| == n + 1
  {
    if n > 0 {
      NewlinesSplit(n - 1);
      assert Newlines(n)[1..] == Newlines(n - 1);
    }
  }

  lemma {:induction false} NewlinesPrefix(n: nat)
    requires n > 0
    ensures TrimNewline(Newlines(n)) == Newlines(n - 1)
  {
    var s, t := Newlines(n), Newlines(n - 1);
    assert forall i :: 0 <= i < n - 1 ==> s[i] == t[i];
    assert s[..n - 1] == t;
  }

  lemma {:induction false} BlankLines(n: nat)
    ensures |SplitLines(Newlines(n))| == n
  {
    NewlinesNormal(n);
    if n > 0 {
      NewlinesPrefix(n);
      NewlinesSplit(n - 1);
    }
  }

  /** Above the cell limit a text differs from itself: enough blank lines do. */
  lemma {:induction false} LargeTextDiffersFromItself(n: nat)
    requires n * n > MAX_DP_CELLS
    ensures UnifiedText(Newlines(n), Newlines(n)) != ""
  {
    BlankLines(n);
    EmptyIff(Newlines(n), Newlines(n));
  }

  // ---- a patch reader that follows the counts (POSIX.1-2017 diff, "Diff -u or -U Output Format") ----

  /** Reads "start,count" and hands back what follows. */
  function ReadRange(s: string): Option<(nat, nat, string)> {
    var (start, rest) := ReadDigits(s, 0);
    if |rest| < |s| && rest != "" && rest[0] == ',' then
      var (count, rest') := ReadDigits(rest[1..], 0);
      if |rest'| < |rest[1..]| then Some((start, count, rest')) else None
    else None
  }

  function StripPrefix(p: string, s: string): Option<string> {
    if p <= s then Some(s[|p|..]) else None
  }

  function ReadHeader(line: string): Option<(nat, nat, nat, nat)> {
    match StripPrefix("@@ -", line)
    case None => None
    case Some(s) =>
      match ReadRange(s)
      case None => None
      case Some((aStart, aCount, s')) =>
        match StripPrefix(" +", s')
        case None => None
        case Some(t) =>
          match ReadRange(t)
          case None => None
          case Some((bStart, bCount, t')) =>
            if t' == " @@" then Some((aStart, aCount, bStart, bCount)) else None
  }

  /** A body line: its first character is the kind, the rest is the text. */
  function ReadOp(line: string): Option<Op> {
    if line == "" then None
    else if line[0] == ' ' then Some(Keep(line[1..]))
    else if line[0] == '-' then Some(Del(line[1..]))
    else if line[0] == '+' then Some(Add(line[1..]))
    else None
  }

  function OldLinesOf(o: Op): nat {
    if o.Add? then 0 else 1
  }

  function NewLinesOf(o: Op): nat {
    if o.Del? then 0 else 1
  }

  /** Reads body lines until both counts are used up. */
  function ReadBody(lines: seq<string>, aCount: nat, bCount: nat): (r: Option<(seq<Op>, seq<string>)>)
    ensures r.Some? ==> |r.value.1| <= |lines|
  {
    if aCount == 0 && bCount == 0 then Some(([], lines))
    else if lines == [] then None
    else
      match ReadOp(lines[0])
      case None => None
      case Some(o) =>
        if OldLinesOf(o) > aCount || NewLinesOf(o) > bCount then None
        else
          match ReadBody(lines[1..], aCount - OldLinesOf(o), bCount - NewLinesOf(o))
          case None => None
          case Some((ops, rest)) => Some(([o] + ops, rest))
  }

  function ReadHunks(lines: seq<string>): Option<seq<Hunk>>
    decreases |lines|
  {
    if lines == [] then Some([])
    else
      match ReadHeader(lines[0])
      case None => None
      case Some((aStart, aCount, bStart, bCount)) =>
        match ReadBody(lines[1..], aCount, bCount)
        case None => None
        case Some((ops, rest)) =>
          match ReadHunks(rest)
          case None => None
          case Some(hs) => Some([Hunk(aStart, aCount, bStart, bCount, ops)] + hs)
  }

  function ReadPatch(text: string): Option<seq<Hunk>> {
    var lines := Split(text);
    if |lines| >= 3 && lines[..2] == ["--- a", "+++ b"] && lines[|lines| - 1] == ""
    then ReadHunks(lines[2..|lines| - 1])
    else None
  }

  /** What a patch program makes of the printed text; an empty text changes nothing. */
  function ApplyText(a: seq<string>, text: string): Option<seq<string>> {
    if text == "" then Some(a)
    else
      match ReadPatch(text)
      case None => None
      case Some(hs) => Patch(a, hs, 0, 0)
  }

  lemma {:induction false} ReadNumber(n: nat, rest: string)
    requires rest != "" && !IsDigit(rest[0])
    ensures ReadDigits(ShowNat(n) + rest, 0) == (n, rest) && |ShowNat(n)| >= 1
  {
    ReadShown(n, rest);
    ShowNatDigits(n);
  }

  lemma Regroup(w: string, x: string, y: string, z: string)
    ensures w + x + y + z == w + (x + (y + z))
  {
  }

  lemma {:induction false} ReadRangeShown(start: nat, count: nat, rest: string)
    requires rest != "" && !IsDigit(rest[0])
    ensures ReadRange(ShowNat(start) + "," + ShowNat(count) + rest) == Some((start, count, rest))
  {
    var tail := ShowNat(count) + rest;
    ReadNumber(start, "," + tail);
    ReadNumber(count, rest);
    Regroup(ShowNat(start), ",", ShowNat(count), rest);
    assert ("," + tail)[1..] == tail;
  }

  lemma ReadHeaderShown(h: Hunk)
    ensures ReadHeader(HeaderLine(h)) == Some((h.aStart, h.aCount, h.bStart, h.bCount))
  {
    var t := ShowNat(h.bStart) + "," + ShowNat(h.bCount) + " @@";
    var s := ShowNat(h.aStart) + "," + ShowNat(h.aCount) + (" +" + t);
    assert HeaderLine(h) == "@@ -" + s;
    assert ("@@ -" + s)[4..] == s;
    assert (" +" + t)[2..] == t;
    ReadRangeShown(h.aStart, h.aCount, " +" + t);
    ReadRangeShown(h.bStart, h.bCount, " @@");
  }

  lemma ReadOpShown(o: Op)
    ensures ReadOp(BodyLine(o)) == Some(o)
  {
    assert BodyLine(o)[1..] == o.text;
  }

  lemma {:induction false} ReadBodyCons(lines: seq<string>, o: Op, ops: seq<Op>, rest: seq<string>)
    requires lines != [] && ReadOp(lines[0]) == Some(o)
    requires ReadBody(lines[1..], |AllOld(ops)|, |AllNew(ops)|) == Some((ops, rest))
    ensures ReadBody(lines, |AllOld([o] + ops)|, |AllNew([o] + ops)|) == Some(([o] + ops, rest))
  {
    FirstOp([o] + ops);
    assert ([o] + ops)[1..] == ops;
    assert |AllOld([o] + ops)| == OldLinesOf(o) + |AllOld(ops)| && |AllNew([o] + ops)| == NewLinesOf(o) + |AllNew(ops)|;
  }

  lemma {:induction false} ReadBodyShown(ops: seq<Op>, rest: seq<string>)
    ensures ReadBody(BodyLines(ops) + rest, |AllOld(ops)|, |AllNew(ops)|) == Some((ops, rest))
  {
    var lines := BodyLines(ops) + rest;
    if ops == [] {
      assert lines == rest;
    } else {
      ReadBodyShown(ops[1..], rest);
      assert lines[0] == BodyLine(ops[0]) && lines[1..] == BodyLines(ops[1..]) + rest;
      ReadOpShown(ops[0]);
      ReadBodyCons(lines, ops[0], ops[1..], rest);
      assert [ops[0]] + ops[1..] == ops;
    }
  }

  predicate Counted(h: Hunk) {
    h.aCount == |AllOld(h.ops)| && h.bCount == |AllNew(h.ops)|
  }

  lemma {:induction false} ReadHunksCons(lines: seq<string>, h: Hunk, rest: seq<string>, hs: seq<Hunk>)
    requires lines != [] && ReadHeader(lines[0]) == Some((h.aStart, h.aCount, h.bStart, h.bCount))
    requires ReadBody(lines[1..], h.aCount, h.bCount) == Some((h.ops, rest))
    requires ReadHunks(rest) == Some(hs)
    ensures ReadHunks(lines) == Some([h] + hs)
  {
  }

  lemma {:induction false} ReadHunkShown(h: Hunk, rest: seq<string>, hs: seq<Hunk>)
    requires Counted(h) && ReadHunks(rest) == Some(hs)
    ensures ReadHunks(HunkBlock(h) + rest) == Some([h] + hs)
  {
    var header := HeaderLine(h);
    ReadHeaderShown(h);
    ReadBodyShown(h.ops, rest);
    var lines := [header] + BodyLines(h.ops) + rest;
    Regrouped([header], BodyLines(h.ops), rest);
    ReadHunksCons(lines, h, rest, hs);
  }

  lemma {:induction false} ReadHunksShown(hs: seq<Hunk>)
    requires forall k :: 0 <= k < |hs| ==> Counted(hs[k])
    ensures ReadHunks(HunkLines(hs)) == Some(hs)
  {
    if hs != [] {
      assert Counted(hs[0]);
      ReadHunksShown(hs[1..]);
      ReadHunkShown(hs[0], HunkLines(hs[1..]), hs[1..]);
      assert [hs[0]] + hs[1..] == hs;
    }
  }

  predicate OpsOneLine(ops: seq<Op>) {
    forall i :: 0 <= i < |ops| ==> OneLine(ops[i].text)
  }

  lemma {:induction false} BodyOneLine(ops: seq<Op>)
    requires OpsOneLine(ops)
    ensures AllOneLine(BodyLines(ops))
  {
    if ops != [] {
      BodyOneLine(ops[1..]);
    }
  }

  lemma HeaderOneLine(h: Hunk)
    ensures OneLine(HeaderLine(h))
  {
    ShowNatDigits(h.aStart);
    ShowNatDigits(h.aCount);
    ShowNatDigits(h.bStart);
    ShowNatDigits(h.bCount);
  }

  lemma {:induction false} HunkLinesOneLine(hs: seq<Hunk>)
    requires forall k :: 0 <= k < |hs| ==> OpsOneLine(hs[k].ops)
    ensures AllOneLine(HunkLines(hs))
  {
    if hs != [] {
      HunkLinesOneLine(hs[1..]);
      HeaderOneLine(hs[0]);
      assert OpsOneLine(hs[0].ops);
      BodyOneLine(hs[0].ops);
    }
  }

  /** Splitting the printed text gives its lines back. */
  lemma SplitPrinted(hs: seq<Hunk>)
    requires forall k :: 0 <= k < |hs| ==> OpsOneLine(hs[k].ops)
    ensures Split(Printed(hs)) == DocumentLines(hs) + [""]
  {
    HunkLinesOneLine(hs);
    SplitUnlines(DocumentLines(hs));
  }

  lemma {:induction false} ReadDocument(text: string, body: seq<string>)
    requires Split(text) == ["--- a", "+++ b"] + body + [""]
    ensures ReadPatch(text) == ReadHunks(body)
  {
    var lines := Split(text);
    assert lines[..2] == ["--- a", "+++ b"];
    assert lines[2..|lines| - 1] == body;
  }

  /** Printing loses nothing: the reader gets back every hunk, headers and operations alike. */
  lemma ReadPrinted(hs: seq<Hunk>)
    requires forall k :: 0 <= k < |hs| ==> Counted(hs[k]) && OpsOneLine(hs[k].ops)
    ensures ReadPatch(Printed(hs)) == Some(hs)
  {
    SplitPrinted(hs);
    ReadDocument(Printed(hs), HunkLines(hs));
    ReadHunksShown(hs);
  }

  lemma {:induction false} HunksCounted(ops: seq<Op>, spans: seq<Span>)
    requires Within(spans, |ops|) && OpsOneLine(ops)
    ensures forall k :: 0 <= k < |HunksAt(ops, spans)| ==>
              Counted(HunksAt(ops, spans)[k]) && OpsOneLine(HunksAt(ops, spans)[k].ops)
  {
    if spans != [] {
      HunksCounted(ops, spans[1..]);
      SliceSides(ops, spans[0].start, spans[0].end);
    }
  }

  lemma {:induction false} TurnsOneLine(ops: seq<Op>)
    requires AllOneLine(OldSide(ops)) && AllOneLine(NewSide(ops))
    ensures OpsOneLine(ops)
  {
    if ops != [] {
      var o, n := OldSide(ops), NewSide(ops);
      assert !ops[0].Add? ==> o[0] == ops[0].text && o[1..] == OldSide(ops[1..]);
      assert ops[0].Add? ==> n[0] == ops[0].text && o == OldSide(ops[1..]);
      assert !ops[0].Del? ==> n[1..] == NewSide(ops[1..]);
      assert ops[0].Del? ==> n == NewSide(ops[1..]);
      TurnsOneLine(ops[1..]);
    }
  }

  lemma ScriptForOneLine(a: string, b: string)
    ensures OpsOneLine(ScriptFor(SplitLines(a), SplitLines(b)))
  {
    SplitLinesOneLine(a);
    SplitLinesOneLine(b);
    ScriptForTurns(SplitLines(a), SplitLines(b));
    TurnsOneLine(ScriptFor(SplitLines(a), SplitLines(b)));
  }

  lemma PrintedIsAPatch(ops: seq<Op>, a: seq<string>, b: seq<string>)
    requires Turns(ops, a, b) && OpsOneLine(ops)
    ensures ApplyText(a, Printed(HunksOf(ops))) == Some(b)
  {
    SpansWithin(ops);
    HunksCounted(ops, SpansOf(ops));
    ReadPrinted(HunksOf(ops));
    PatchRebuilds(ops, a, b);
  }

  /** The text Unified returns, read back and applied to the lines of a, yields the lines of b, for all texts. */
  lemma UnifiedIsAPatch(a: string, b: string)
    ensures ApplyText(SplitLines(a), UnifiedText(a, b)) == Some(SplitLines(b))
  {
    var al, bl := SplitLines(a), SplitLines(b);
    var ops := ScriptFor(al, bl);
    ScriptForTurns(al, bl);
    if HasChange(ops) {
      ScriptForOneLine(a, b);
      PrintedIsAPatch(ops, al, bl);
    } else {
      KeptScriptSides(ops);
    }
  }

  // ---- parseUnified, which goes by prefixes alone ----

  datatype DiffResult = DiffResult(lines: seq<Op>, added: nat, removed: nat, changed: bool)

  /** The raw lines parseUnified skips: blanks, file headers and hunk headers, by prefix. */
  predicate Skipped(raw: string) {
    raw == "" || "--- " <= raw || "+++ " <= raw || "@@" <= raw
  }

  function ParsedOf(raw: string): seq<Op> {
    if Skipped(raw) || ReadOp(raw).None? then [] else [ReadOp(raw).value]
  }

  /** What f gives for the first n of xs, in order. */
  function Gather<S, T>(f: S -> seq<T>, xs: seq<S>, n: nat): seq<T>
    requires n <= |xs|
  {
    if n == 0 then [] else Gather(f, xs, n - 1) + f(xs[n - 1])
  }

  function ParsedLines(raws: seq<string>): seq<Op> {
    Gather(ParsedOf, raws, |raws|)
  }

  lemma {:induction false} GatherPrefix<S, T>(f: S -> seq<T>, x: seq<S>, y: seq<S>, n: nat)
    requires n <= |x| && n <= |y| && forall i :: 0 <= i < n ==> x[i] == y[i]
    ensures Gather(f, x, n) == Gather(f, y, n)
  {
    if n > 0 {
      GatherPrefix(f, x, y, n - 1);
    }
  }

  lemma {:induction false} GatherConcat<S, T>(f: S -> seq<T>, x: seq<S>, y: seq<S>, n: nat)
    requires n <= |y|
    ensures Gather(f, x + y, |x| + n) == Gather(f, x, |x|) + Gather(f, y, n)
  {
    if n == 0 {
      GatherPrefix(f, x + y, x, |x|);
    } else {
      GatherConcat(f, x, y, n - 1);
      assert (x + y)[|x| + n - 1] == y[n - 1];
      Regrouped(Gather(f, x, |x|), Gather(f, y, n - 1), f(y[n - 1]));
    }
  }

  function AddsBelow(ops: seq<Op>, n: nat): nat
    requires n <= |ops|
  {
    if n == 0 then 0 else AddsBelow(ops, n - 1) + if ops[n - 1].Add? then 1 else 0
  }

  function DelsBelow(ops: seq<Op>, n: nat): nat
    requires n <= |ops|
  {
    if n == 0 then 0 else DelsBelow(ops, n - 1) + if ops[n - 1].Del? then 1 else 0
  }

  function Additions(ops: seq<Op>): nat {
    AddsBelow(ops, |ops|)
  }

  function Deletions(ops: seq<Op>): nat {
    DelsBelow(ops, |ops|)
  }

  lemma {:induction false} CountPrefix(x: seq<Op>, y: seq<Op>, n: nat)
    requires n <= |x| && n <= |y| && forall i :: 0 <= i < n ==> x[i] == y[i]
    ensures AddsBelow(x, n) == AddsBelow(y, n) && DelsBelow(x, n) == DelsBelow(y, n)
  {
    if n > 0 {
      CountPrefix(x, y, n - 1);
    }
  }

  lemma CountSnoc(x: seq<Op>, o: Op)
    ensures Additions(x + [o]) == Additions(x) + if o.Add? then 1 else 0
    ensures Deletions(x + [o]) == Deletions(x) + if o.Del? then 1 else 0
  {
    CountPrefix(x + [o], x, |x|);
  }

  /** parseUnified: one pass over the raw lines with two counters. */
  method ParseUnified(unified: string) returns (r: DiffResult)
    ensures r.lines == ParsedLines(Split(unified))
    ensures r.added == Additions(r.lines) && r.removed == Deletions(r.lines)
    ensures r.changed <==> r.added > 0 || r.removed > 0
  {
    var raws := Split(unified);
    var lines: seq<Op>, added, removed := [], 0, 0;
    for i := 0 to |raws|
      invariant lines == Gather(ParsedOf, raws, i)
      invariant added == Additions(lines) && removed == Deletions(lines)
    {
      var raw := raws[i];
      if Skipped(raw) {
        continue;
      }
      var prefix, text := raw[0], raw[1..];
      if prefix == '+' {
        CountSnoc(lines, Add(text));
        added := added + 1;
        lines := lines + [Add(text)];
      } else if prefix == '-' {
        CountSnoc(lines, Del(text));
        removed := removed + 1;
        lines := lines + [Del(text)];
      } else if prefix == ' ' {
        CountSnoc(lines, Keep(text));
        lines := lines + [Keep(text)];
      }
    }
    r := DiffResult(lines, added, removed, added > 0 || removed > 0);
  }

  /** A change whose printed line is mistaken for a file header. */
  predicate LooksLikeHeader(o: Op) {
    (o.Del? && "-- " <= o.text) || (o.Add? && "++ " <= o.text)
  }

  lemma SkippedBody(o: Op)
    ensures Skipped(BodyLine(o)) <==> LooksLikeHeader(o)
  {
    var line, text := BodyLine(o), o.text;
    assert line == [KindChar(o)] + text;
    PrefixTail('-', "-- ", KindChar(o), text);
    PrefixTail('+', "++ ", KindChar(o), text);
    assert ['-'] + "-- " == "--- " && ['+'] + "++ " == "+++ ";
    PrefixTail('@', "@", KindChar(o), text);
    assert ['@'] + "@" == "@@";
  }

  lemma PrefixTail(c: char, p: string, d: char, s: string)
    ensures [c] + p <= [d] + s <==> c == d && p <= s
  {
    if [c] + p <= [d] + s {
      assert ([c] + p)[0] == ([d] + s)[0];
      assert forall i :: 0 <= i < |p| ==> p[i] == ([c] + p)[i + 1] == ([d] + s)[i + 1] == s[i];
    }
  }

  /** The operations that survive printing and parsing. */
  function Survivors(ops: seq<Op>): seq<Op> {
    Gather(SurvivorOf, ops, |ops|)
  }

  function SurvivorOf(o: Op): seq<Op> {
    if LooksLikeHeader(o) then [] else [o]
  }

  /** The operations all hunks show, one hunk after the other. */
  function ShownOps(hs: seq<Hunk>): seq<Op> {
    if hs == [] then [] else hs[0].ops + ShownOps(hs[1..])
  }

  lemma ParsedConcat(x: seq<string>, y: seq<string>)
    ensures ParsedLines(x + y) == ParsedLines(x) + ParsedLines(y)
  {
    GatherConcat(ParsedOf, x, y, |y|);
  }

  lemma SurvivorsConcat(x: seq<Op>, y: seq<Op>)
    ensures Survivors(x + y) == Survivors(x) + Survivors(y)
  {
    GatherConcat(SurvivorOf, x, y, |y|);
  }

  lemma ParsedOne(raw: string)
    ensures ParsedLines([raw]) == ParsedOf(raw)
  {
    assert Gather(ParsedOf, [raw], 0) == [];
  }

  lemma {:induction false} BodyLinesShape(ops: seq<Op>)
    ensures |BodyLines(ops)| == |ops| && forall i :: 0 <= i < |ops| ==> BodyLines(ops)[i] == BodyLine(ops[i])
  {
    if ops != [] {
      BodyLinesShape(ops[1..]);
    }
  }

  lemma {:induction false} ParsedBodyBelow(ops: seq<Op>, lines: seq<string>, n: nat)
    requires |lines| == |ops| && n <= |ops| && forall i :: 0 <= i < |ops| ==> lines[i] == BodyLine(ops[i])
    ensures Gather(ParsedOf, lines, n) == Gather(SurvivorOf, ops, n)
  {
    if n > 0 {
      ParsedBodyBelow(ops, lines, n - 1);
      SkippedBody(ops[n - 1]);
      ReadOpShown(ops[n - 1]);
    }
  }

  lemma {:induction false} ParsedBody(ops: seq<Op>)
    ensures ParsedLines(BodyLines(ops)) == Survivors(ops)
  {
    BodyLinesShape(ops);
    ParsedBodyBelow(ops, BodyLines(ops), |ops|);
  }

  lemma HeaderSkipped(h: Hunk)
    ensures Skipped(HeaderLine(h))
  {
    assert HeaderLine(h)[..2] == "@@";
  }

  lemma ParsedHunk(h: Hunk)
    ensures ParsedLines(HunkBlock(h)) == Survivors(h.ops)
  {
    ParsedConcat([HeaderLine(h)], BodyLines(h.ops));
    ParsedOne(HeaderLine(h));
    HeaderSkipped(h);
    ParsedBody(h.ops);
  }

  lemma {:induction false} ParsedHunks(hs: seq<Hunk>)
    ensures ParsedLines(HunkLines(hs)) == Survivors(ShownOps(hs))
  {
    if hs != [] {
      ParsedHunks(hs[1..]);
      ParsedConcat(HunkBlock(hs[0]), HunkLines(hs[1..]));
      ParsedHunk(hs[0]);
      SurvivorsConcat(hs[0].ops, ShownOps(hs[1..]));
    }
  }

  lemma ParsedFileHeaders()
    ensures ParsedLines(["--- a", "+++ b"]) == []
  {
    ParsedConcat(["--- a"], ["+++ b"]);
    ParsedOne("--- a");
    ParsedOne("+++ b");
    assert ["--- a"] + ["+++ b"] == ["--- a", "+++ b"];
  }

  /** parseUnified returns the shown operations except those that look like file headers. */
  lemma {:induction false} ParsePrinted(hs: seq<Hunk>)
    requires forall k :: 0 <= k < |hs| ==> OpsOneLine(hs[k].ops)
    ensures ParsedLines(Split(Printed(hs))) == Survivors(ShownOps(hs))
  {
    SplitPrinted(hs);
    ParsedHunks(hs);
    ParsedFileHeaders();
    ParsedBetween(["--- a", "+++ b"], HunkLines(hs));
  }

  lemma ParsedBetween(files: seq<string>, lines: seq<string>)
    requires ParsedLines(files) == []
    ensures ParsedLines(files + lines + [""]) == ParsedLines(lines)
  {
    ParsedConcat(files + lines, [""]);
    ParsedConcat(files, lines);
    ParsedOne("");
  }

  // ---- every change is shown once, in order ----

  function ChangesIn(ops: seq<Op>, i: nat, j: nat): seq<Op>
    requires i <= j <= |ops|
    decreases j - i
  {
    if i == j then [] else ChangesIn(ops, i, j - 1) + if ops[j - 1].Keep? then [] else [ops[j - 1]]
  }

  /** The additions and deletions of a script, in order. */
  function AllChanges(ops: seq<Op>): seq<Op> {
    ChangesIn(ops, 0, |ops|)
  }

  lemma {:induction false} ChangesJoin(ops: seq<Op>, i: nat, j: nat, k: nat)
    requires i <= j <= k <= |ops|
    ensures ChangesIn(ops, i, k) == ChangesIn(ops, i, j) + ChangesIn(ops, j, k)
    decreases k
  {
    if j < k {
      ChangesJoin(ops, i, j, k - 1);
    }
  }

  lemma {:induction false} ChangesSlice(ops: seq<Op>, s: seq<Op>, i: nat, n: nat)
    requires n <= |s| && i + n <= |ops|
    requires forall k :: 0 <= k < n ==> s[k] == ops[i + k]
    ensures ChangesIn(s, 0, n) == ChangesIn(ops, i, i + n)
  {
    if n > 0 {
      ChangesSlice(ops, s, i, n - 1);
    }
  }

  lemma ChangesConcat(x: seq<Op>, y: seq<Op>)
    ensures AllChanges(x + y) == AllChanges(x) + AllChanges(y)
  {
    ChangesJoin(x + y, 0, |x|, |x + y|);
    ChangesSlice(x + y, x, 0, |x|);
    ChangesSlice(x + y, y, |x|, |y|);
  }

  lemma {:induction false} NoChangesInGap(ops: seq<Op>, i: nat, j: nat)
    requires i <= j <= |ops| && forall k :: i <= k < j ==> ops[k].Keep?
    ensures ChangesIn(ops, i, j) == []
    decreases j
  {
    if i < j {
      NoChangesInGap(ops, i, j - 1);
    }
  }

  lemma {:induction false} SpanChanges(ops: seq<Op>, sp: Span, c: nat, rest: seq<Op>)
    requires c <= sp.start <= sp.end <= |ops|
    requires forall i :: c <= i < sp.start ==> ops[i].Keep?
    requires AllChanges(rest) == ChangesIn(ops, sp.end, |ops|)
    ensures AllChanges(ops[sp.start..sp.end] + rest) == ChangesIn(ops, c, |ops|)
  {
    var shown := ops[sp.start..sp.end];
    ChangesConcat(shown, rest);
    ChangesSlice(ops, shown, sp.start, |shown|);
    NoChangesInGap(ops, c, sp.start);
    ChangesJoin(ops, c, sp.start, |ops|);
    ChangesJoin(ops, sp.start, sp.end, |ops|);
  }

  lemma {:induction false} ShownChangesFrom(ops: seq<Op>, spans: seq<Span>, c: nat)
    requires Pending(ops, spans, c)
    ensures AllChanges(ShownOps(HunksAt(ops, spans))) == ChangesIn(ops, c, |ops|)
    decreases |spans|
  {
    if spans == [] {
      NoChangesInGap(ops, c, |ops|);
    } else {
      PendingTail(ops, spans, c);
      ShownChangesFrom(ops, spans[1..], spans[0].end);
      SpanChanges(ops, spans[0], c, ShownOps(HunksAt(ops, spans[1..])));
    }
  }

  /** The hunks together hold every change of the script exactly once and in order. */
  lemma HunksShowChanges(ops: seq<Op>)
    ensures AllChanges(ShownOps(HunksOf(ops))) == AllChanges(ops)
  {
    PendingAtStart(ops);
    ShownChangesFrom(ops, SpansOf(ops), 0);
  }

  lemma {:induction false} CountsOfChanges(ops: seq<Op>, n: nat)
    requires n <= |ops|
    ensures Additions(ChangesIn(ops, 0, n)) == AddsBelow(ops, n)
    ensures Deletions(ChangesIn(ops, 0, n)) == DelsBelow(ops, n)
  {
    if n > 0 {
      CountsOfChanges(ops, n - 1);
      var o, changes := ops[n - 1], ChangesIn(ops, 0, n - 1);
      CountSnoc(changes, o);
      assert ChangesIn(ops, 0, n) == if o.Keep? then changes else changes + [o];
    }
  }

  lemma {:induction false} ChangesMembers(ops: seq<Op>, n: nat, o: Op)
    requires n <= |ops|
    ensures o in ChangesIn(ops, 0, n) <==> !o.Keep? && exists k :: 0 <= k < n && ops[k] == o
  {
    if n > 0 {
      ChangesMembers(ops, n - 1, o);
    }
  }

  lemma SameChanges(x: seq<Op>, y: seq<Op>)
    requires AllChanges(x) == AllChanges(y)
    ensures Additions(x) == Additions(y) && Deletions(x) == Deletions(y)
    ensures forall o: Op :: !o.Keep? ==> (o in x <==> o in y)
  {
    CountsOfChanges(x, |x|);
    CountsOfChanges(y, |y|);
    forall o: Op | !o.Keep? ensures o in x <==> o in y {
      ChangesMembers(x, |x|, o);
      ChangesMembers(y, |y|, o);
    }
  }

  lemma {:induction false} SurvivorsBelowIff(ops: seq<Op>, n: nat)
    requires n <= |ops|
    ensures var kept := Gather(SurvivorOf, ops, n);
            && |kept| <= n
            && (|kept| == n <==> forall i :: 0 <= i < n ==> !LooksLikeHeader(ops[i]))
            && (|kept| == n ==> forall i :: 0 <= i < n ==> kept[i] == ops[i])
  {
    if n > 0 {
      SurvivorsBelowIff(ops, n - 1);
    }
  }

  lemma SurvivorsIff(ops: seq<Op>)
    ensures |Survivors(ops)| <= |ops|
    ensures Survivors(ops) == ops <==> forall o :: o in ops ==> !LooksLikeHeader(o)
    ensures |Survivors(ops)| == |ops| <==> Survivors(ops) == ops
  {
    SurvivorsBelowIff(ops, |ops|);
    if forall o :: o in ops ==> !LooksLikeHeader(o) {
      assert forall i :: 0 <= i < |ops| ==> ops[i] in ops;
    }
  }

  /**
    The round trip through parseUnified gives back every shown operation exactly when no deleted line
    starts with "-- " and no added line starts with "++ "; then the counters are the script's.
   */
  lemma RoundTripIff(a: string, b: string)
    ensures var ops := ScriptFor(SplitLines(a), SplitLines(b));
            var lines := ParsedLines(Split(UnifiedText(a, b)));
            && (lines == ShownOps(HunksOf(ops)) <==> forall o :: o in ops ==> !LooksLikeHeader(o))
            && ((forall o :: o in ops ==> !LooksLikeHeader(o)) ==>
                  Additions(lines) == Additions(ops) && Deletions(lines) == Deletions(ops))
  {
    var ops := ScriptFor(SplitLines(a), SplitLines(b));
    var shown := ShownOps(HunksOf(ops));
    HunksShowChanges(ops);
    SameChanges(shown, ops);
    SurvivorsIff(shown);
    if HasChange(ops) {
      ScriptForOneLine(a, b);
      SpansWithin(ops);
      HunksCounted(ops, SpansOf(ops));
      ParsePrinted(HunksOf(ops));
    } else {
      NoHunks(ops);
      ParsedOne("");
      assert Split("") == [""];
    }
  }

  lemma NoHunks(ops: seq<Op>)
    requires !HasChange(ops)
    ensures HunksOf(ops) == []
  {
    SpansWithin(ops);
    SpansExact(ops);
    var spans := SpansOf(ops);
    if spans != [] {
      FirstSpan(spans);
    }
  }
}
