/**
  The line edit script of internal/diff/diff.go: the longest-common-subsequence table that
  lcsOps fills in place, and the walk over it that emits the operations.
 */
module EditScript {

  /** One line operation; the constructors are the source's kind bytes ' ', '-' and '+'. */
  datatype Op = Keep(text: string) | Del(text: string) | Add(text: string)

  function Max(x: nat, y: nat): nat {
    if x >= y then x else y
  }

  // ---- what a script does ----

  /** The lines a script consumes from the old side. */
  function OldSide(ops: seq<Op>): seq<string> {
    if ops == [] then [] else (if ops[0].Add? then [] else [ops[0].text]) + OldSide(ops[1..])
  }

  /** The lines a script produces on the new side. */
  function NewSide(ops: seq<Op>): seq<string> {
    if ops == [] then [] else (if ops[0].Del? then [] else [ops[0].text]) + NewSide(ops[1..])
  }

  function KeptLines(ops: seq<Op>): seq<string> {
    if ops == [] then [] else (if ops[0].Keep? then [ops[0].text] else []) + KeptLines(ops[1..])
  }

  /** How many '-' and '+' operations a script has. */
  function Changes(ops: seq<Op>): nat {
    if ops == [] then 0 else (if ops[0].Keep? then 0 else 1) + Changes(ops[1..])
  }

  predicate Turns(ops: seq<Op>, a: seq<string>, b: seq<string>) {
    OldSide(ops) == a && NewSide(ops) == b
  }

  // ---- longest common subsequences ----

  predicate IsSubseq(c: seq<string>, s: seq<string>) {
    c == [] || (s != [] && ((c[0] == s[0] && IsSubseq(c[1..], s[1..])) || IsSubseq(c, s[1..])))
  }

  ghost predicate IsCommon(c: seq<string>, a: seq<string>, b: seq<string>) {
    IsSubseq(c, a) && IsSubseq(c, b)
  }

  /** The recurrence the table obeys. */
  function Lcs(a: seq<string>, b: seq<string>): nat
    decreases |a| + |b|
  {
    if a == [] || b == [] then 0
    else if a[0] == b[0] then Lcs(a[1..], b[1..]) + 1
    else Max(Lcs(a[1..], b), Lcs(a, b[1..]))
  }

  lemma {:induction false} SubseqTail(c: seq<string>, s: seq<string>)
    requires c != [] && IsSubseq(c, s)
    ensures s != [] && IsSubseq(c[1..], s[1..])
  {
    if !(c[0] == s[0] && IsSubseq(c[1..], s[1..])) {
      SubseqTail(c, s[1..]);
      SubseqSkip(c[1..], s[1..]);
    }
  }

  lemma {:induction false} SubseqSkip(c: seq<string>, s: seq<string>)
    requires s != [] && IsSubseq(c, s[1..])
    ensures IsSubseq(c, s)
  {
  }

  lemma {:induction false} CommonAtMostLcs(c: seq<string>, a: seq<string>, b: seq<string>)
    requires IsCommon(c, a, b)
    ensures |c| <= Lcs(a, b)
    decreases |a| + |b|
  {
    if c != [] {
      if a[0] == b[0] {
        SubseqTail(c, a);
        SubseqTail(c, b);
        CommonAtMostLcs(c[1..], a[1..], b[1..]);
      } else if IsSubseq(c, a[1..]) {
        CommonAtMostLcs(c, a[1..], b);
      } else {
        assert c[0] == a[0];
        CommonAtMostLcs(c, a, b[1..]);
      }
    }
  }

  lemma {:induction false} LcsWitness(a: seq<string>, b: seq<string>) returns (c: seq<string>)
    ensures IsCommon(c, a, b) && |c| == Lcs(a, b)
    decreases |a| + |b|
  {
    if a == [] || b == [] {
      c := [];
    } else if a[0] == b[0] {
      var d := LcsWitness(a[1..], b[1..]);
      c := [a[0]] + d;
      assert c[1..] == d;
    } else if Lcs(a[1..], b) >= Lcs(a, b[1..]) {
      c := LcsWitness(a[1..], b);
      SubseqSkip(c, a);
    } else {
      c := LcsWitness(a, b[1..]);
      SubseqSkip(c, b);
    }
  }

  /** The recurrence computes the greatest length of a common subsequence. */
  lemma {:induction false} LcsIsMaximum(a: seq<string>, b: seq<string>)
    ensures exists c :: IsCommon(c, a, b) && |c| == Lcs(a, b)
    ensures forall c :: IsCommon(c, a, b) ==> |c| <= Lcs(a, b)
  {
    var c := LcsWitness(a, b);
    forall d | IsCommon(d, a, b) ensures |d| <= Lcs(a, b) {
      CommonAtMostLcs(d, a, b);
    }
  }

  // ---- the script lcsOps emits ----

  function Dels(a: seq<string>): seq<Op> {
    if a == [] then [] else [Del(a[0])] + Dels(a[1..])
  }

  function Adds(b: seq<string>): seq<Op> {
    if b == [] then [] else [Add(b[0])] + Adds(b[1..])
  }

  /** The walk over the table from (0, 0): equal lines are kept, ties delete first. */
  function Script(a: seq<string>, b: seq<string>): seq<Op>
    decreases |a| + |b|
  {
    if a == [] then Adds(b)
    else if b == [] then Dels(a)
    else if a[0] == b[0] then [Keep(a[0])] + Script(a[1..], b[1..])
    else if Lcs(a[1..], b) >= Lcs(a, b[1..]) then [Del(a[0])] + Script(a[1..], b)
    else [Add(b[0])] + Script(a, b[1..])
  }

  lemma {:induction false} DelsTurn(a: seq<string>)
    ensures Turns(Dels(a), a, []) && KeptLines(Dels(a)) == []
  {
    if a != [] {
      DelsTurn(a[1..]);
      assert Dels(a)[1..] == Dels(a[1..]);
    }
  }

  lemma {:induction false} AddsTurn(b: seq<string>)
    ensures Turns(Adds(b), [], b) && KeptLines(Adds(b)) == []
  {
    if b != [] {
      AddsTurn(b[1..]);
      assert Adds(b)[1..] == Adds(b[1..]);
    }
  }

  /** The script turns a into b and keeps exactly as many lines as the table promises. */
  lemma {:induction false} ScriptCorrect(a: seq<string>, b: seq<string>)
    ensures Turns(Script(a, b), a, b)
    ensures |KeptLines(Script(a, b))| == Lcs(a, b)
    decreases |a| + |b|
  {
    var ops := Script(a, b);
    if a == [] {
      AddsTurn(b);
    } else if b == [] {
      DelsTurn(a);
    } else if a[0] == b[0] {
      ScriptCorrect(a[1..], b[1..]);
      assert ops[1..] == Script(a[1..], b[1..]);
    } else if Lcs(a[1..], b) >= Lcs(a, b[1..]) {
      ScriptCorrect(a[1..], b);
      assert ops[1..] == Script(a[1..], b);
    } else {
      ScriptCorrect(a, b[1..]);
      assert ops[1..] == Script(a, b[1..]);
    }
  }

  lemma {:induction false} KeptIsCommon(ops: seq<Op>)
    ensures IsCommon(KeptLines(ops), OldSide(ops), NewSide(ops))
    ensures |OldSide(ops)| + |NewSide(ops)| == 2 * |KeptLines(ops)| + Changes(ops)
  {
    if ops != [] {
      KeptIsCommon(ops[1..]);
      var k, o, n := KeptLines(ops), OldSide(ops), NewSide(ops);
      assert !ops[0].Keep? ==> k == KeptLines(ops[1..]);
      match ops[0]
      case Keep(t) =>
        assert k[1..] == KeptLines(ops[1..]) && o[1..] == OldSide(ops[1..]) && n[1..] == NewSide(ops[1..]);
      case Del(t) =>
        assert o[1..] == OldSide(ops[1..]) && n == NewSide(ops[1..]);
        SubseqSkip(k, o);
      case Add(t) =>
        assert n[1..] == NewSide(ops[1..]) && o == OldSide(ops[1..]);
        SubseqSkip(k, n);
    }
  }

  /** No edit script from a to b has fewer deletions plus additions. */
  lemma {:induction false} ScriptIsMinimal(a: seq<string>, b: seq<string>, ops: seq<Op>)
    requires Turns(ops, a, b)
    ensures Changes(Script(a, b)) <= Changes(ops)
    ensures Changes(Script(a, b)) == |a| + |b| - 2 * Lcs(a, b)
  {
    ScriptCorrect(a, b);
    KeptIsCommon(Script(a, b));
    KeptIsCommon(ops);
    CommonAtMostLcs(KeptLines(ops), a, b);
  }

  lemma {:induction false} LcsMonotone(a: seq<string>, b: seq<string>)
    ensures a != [] ==> Lcs(a[1..], b) <= Lcs(a, b) <= Lcs(a[1..], b) + 1
    ensures b != [] ==> Lcs(a, b[1..]) <= Lcs(a, b) <= Lcs(a, b[1..]) + 1
    decreases |a| + |b|
  {
    if a != [] && b != [] {
      LcsMonotone(a[1..], b);
      LcsMonotone(a, b[1..]);
      LcsMonotone(a[1..], b[1..]);
    }
  }

  /** Inside a block of changes the deletions come first: no addition is followed by a deletion. */
  predicate DeletionsFirst(ops: seq<Op>) {
    forall i :: 0 < i < |ops| ==> !(ops[i - 1].Add? && ops[i].Del?)
  }

  lemma {:induction false} DelsShape(a: seq<string>)
    ensures |Dels(a)| == |a| && forall i :: 0 <= i < |a| ==> Dels(a)[i] == Del(a[i])
  {
    if a != [] {
      DelsShape(a[1..]);
    }
  }

  lemma {:induction false} AddsShape(b: seq<string>)
    ensures |Adds(b)| == |b| && forall i :: 0 <= i < |b| ==> Adds(b)[i] == Add(b[i])
  {
    if b != [] {
      AddsShape(b[1..]);
    }
  }

  /** After an addition the walk can only keep or add, because ties delete. */
  lemma {:induction false} ScriptDeletionsFirst(a: seq<string>, b: seq<string>)
    ensures DeletionsFirst(Script(a, b))
    decreases |a| + |b|
  {
    DelsShape(a);
    AddsShape(b);
    if a != [] && b != [] {
      if a[0] == b[0] {
        ScriptDeletionsFirst(a[1..], b[1..]);
      } else if Lcs(a[1..], b) >= Lcs(a, b[1..]) {
        ScriptDeletionsFirst(a[1..], b);
      } else {
        ScriptDeletionsFirst(a, b[1..]);
        var rest := Script(a, b[1..]);
        if rest != [] && rest[0].Del? {
          assert b[1..] != [] && Lcs(a, b[1..]) == Lcs(a[1..], b[1..]);
          LcsMonotone(a[1..], b);
          assert false;
        }
      }
    }
  }

  /** The table entry for the suffixes of a and b that start at x and y. */
  function Entry(a: seq<string>, b: seq<string>, x: nat, y: nat): nat
    requires x <= |a| && y <= |b|
  {
    Lcs(a[x..], b[y..])
  }

  lemma EntryStep(a: seq<string>, b: seq<string>, x: nat, y: nat)
    requires x < |a| && y < |b|
    ensures Entry(a, b, x, y) ==
            if a[x] == b[y] then Entry(a, b, x + 1, y + 1) + 1
            else Max(Entry(a, b, x + 1, y), Entry(a, b, x, y + 1))
  {
    assert a[x..][1..] == a[x + 1..] && b[y..][1..] == b[y + 1..];
  }

  /** What the walk still has to emit from position (x, y). */
  function Rest(a: seq<string>, b: seq<string>, x: nat, y: nat): seq<Op>
    requires x <= |a| && y <= |b|
  {
    Script(a[x..], b[y..])
  }

  /** The operation the walk emits at (x, y), and where it goes next. */
  lemma RestStep(a: seq<string>, b: seq<string>, x: nat, y: nat)
    requires x <= |a| && y <= |b|
    ensures x < |a| && y < |b| ==>
            Rest(a, b, x, y) ==
            if a[x] == b[y] then [Keep(a[x])] + Rest(a, b, x + 1, y + 1)
            else if Entry(a, b, x + 1, y) >= Entry(a, b, x, y + 1) then [Del(a[x])] + Rest(a, b, x + 1, y)
            else [Add(b[y])] + Rest(a, b, x, y + 1)
    ensures x < |a| && y == |b| ==> Rest(a, b, x, y) == [Del(a[x])] + Rest(a, b, x + 1, y)
    ensures x == |a| && y < |b| ==> Rest(a, b, x, y) == [Add(b[y])] + Rest(a, b, x, y + 1)
    ensures x == |a| && y == |b| ==> Rest(a, b, x, y) == []
  {
    if x < |a| {
      assert a[x..][1..] == a[x + 1..];
    }
    if y < |b| {
      assert b[y..][1..] == b[y + 1..];
    }
  }

  lemma Shift(whole: seq<Op>, done: seq<Op>, o: Op, rest: seq<Op>)
    requires whole == done + ([o] + rest)
    ensures whole == (done + [o]) + rest
  {
  }

  /** The first half of lcsOps: fills the table in place from the bottom right corner. */
  method FillTable(a: seq<string>, b: seq<string>) returns (dp: array2<nat>)
    ensures fresh(dp) && dp.Length0 == |a| + 1 && dp.Length1 == |b| + 1
    ensures forall x, y :: 0 <= x <= |a| && 0 <= y <= |b| ==> dp[x, y] == Entry(a, b, x, y)
  {
    var n, m := |a|, |b|;
    dp := new nat[n + 1, m + 1]((_, _) => 0);
    for i := n downto 0
      invariant fresh(dp)
      invariant forall x, y :: i <= x <= n && 0 <= y <= m ==> dp[x, y] == Entry(a, b, x, y)
      invariant forall x, y :: 0 <= x < i && 0 <= y <= m ==> dp[x, y] == 0
    {
      for j := m downto 0
        invariant forall x, y :: i < x <= n && 0 <= y <= m ==> dp[x, y] == Entry(a, b, x, y)
        invariant forall y :: j <= y <= m ==> dp[i, y] == Entry(a, b, i, y)
        invariant forall x, y :: 0 <= x < i && 0 <= y <= m ==> dp[x, y] == 0
      {
        EntryStep(a, b, i, j);
        if a[i] == b[j] {
          dp[i, j] := dp[i + 1, j + 1] + 1;
        } else if dp[i + 1, j] >= dp[i, j + 1] {
          dp[i, j] := dp[i + 1, j];
        } else {
          dp[i, j] := dp[i, j + 1];
        }
      }
    }
  }

  /** The walk from the top left until one side runs out. */
  method Walk(a: seq<string>, b: seq<string>, dp: array2<nat>) returns (ops: seq<Op>, i: nat, j: nat)
    requires dp.Length0 == |a| + 1 && dp.Length1 == |b| + 1
    requires forall x, y :: 0 <= x <= |a| && 0 <= y <= |b| ==> dp[x, y] == Entry(a, b, x, y)
    ensures i <= |a| && j <= |b| && (i == |a| || j == |b|)
    ensures Rest(a, b, 0, 0) == ops + Rest(a, b, i, j)
  {
    ghost var all := Rest(a, b, 0, 0);
    ops := [];
    i, j := 0, 0;
    while i < |a| && j < |b|
      invariant 0 <= i <= |a| && 0 <= j <= |b|
      invariant all == ops + Rest(a, b, i, j)
    {
      RestStep(a, b, i, j);
      if a[i] == b[j] {
        Shift(all, ops, Keep(a[i]), Rest(a, b, i + 1, j + 1));
        ops := ops + [Keep(a[i])];
        i, j := i + 1, j + 1;
      } else if dp[i + 1, j] >= dp[i, j + 1] {
        Shift(all, ops, Del(a[i]), Rest(a, b, i + 1, j));
        ops := ops + [Del(a[i])];
        i := i + 1;
      } else {
        Shift(all, ops, Add(b[j]), Rest(a, b, i, j + 1));
        ops := ops + [Add(b[j])];
        j := j + 1;
      }
    }
  }

  /** lcsOps: fills the table, walks it from the top left, then flushes what is left of a or b. */
  method LcsOps(a: seq<string>, b: seq<string>) returns (ops: seq<Op>)
    ensures ops == Script(a, b)
  {
    var n, m := |a|, |b|;
    var dp := FillTable(a, b);
    var i, j;
    ops, i, j := Walk(a, b, dp);
    ghost var all := Rest(a, b, 0, 0);
    while i < n
      invariant 0 <= i <= n && 0 <= j <= m
      invariant i == n || j == m
      invariant all == ops + Rest(a, b, i, j)
    {
      RestStep(a, b, i, j);
      Shift(all, ops, Del(a[i]), Rest(a, b, i + 1, j));
      ops := ops + [Del(a[i])];
      i := i + 1;
    }
    while j < m
      invariant 0 <= j <= m
      invariant all == ops + Rest(a, b, n, j)
    {
      RestStep(a, b, n, j);
      Shift(all, ops, Add(b[j]), Rest(a, b, n, j + 1));
      ops := ops + [Add(b[j])];
      j := j + 1;
    }
    RestStep(a, b, n, m);
    assert a[0..] == a && b[0..] == b;
  }
}
