/** ListMessages of internal/store/sqlstore.go: keyset pages of a session's messages. */
module MessageLog {

  datatype Message = Message(id: nat, session: string, content: string)

  /** The table in the order its rows were inserted, which is the order of their ids. */
  predicate Ascending(table: seq<Message>) {
    && (forall i :: 0 <= i < |table| ==> table[i].id > 0)
    && (forall i, j :: 0 <= i < j < |table| ==> table[i].id < table[j].id)
  }

  /** The WHERE clause; a positive cursor after takes precedence over before. */
  predicate Selected(m: Message, session: string, before: int, after: int) {
    m.session == session && (if after > 0 then m.id > after else before > 0 ==> m.id < before)
  }

  function Where(table: seq<Message>, n: nat, session: string, before: int, after: int): seq<Message>
    requires n <= |table|
  {
    if n == 0 then []
    else Where(table, n - 1, session, before, after)
         + if Selected(table[n - 1], session, before, after) then [table[n - 1]] else []
  }

  function Rows(table: seq<Message>, session: string, before: int, after: int): seq<Message> {
    Where(table, |table|, session, before, after)
  }

  /** All messages of a session. */
  function Of(table: seq<Message>, session: string): seq<Message> {
    Rows(table, session, 0, 0)
  }

  function Limit(limit: int): nat {
    if limit <= 0 then 50 else limit
  }

  function Last(s: seq<Message>, k: nat): seq<Message> {
    if |s| <= k then s else s[|s| - k..]
  }

  function First(s: seq<Message>, k: nat): seq<Message> {
    if |s| <= k then s else s[..k]
  }

  /** The page in ascending order: the first rows after a cursor, otherwise the last rows. */
  function Page(table: seq<Message>, session: string, before: int, after: int, limit: int): seq<Message> {
    var rows := Rows(table, session, before, after);
    if after > 0 then First(rows, Limit(limit)) else Last(rows, Limit(limit))
  }

  function Backwards(s: seq<Message>): (r: seq<Message>)
    ensures |r| == |s| && forall i :: 0 <= i < |s| ==> r[i] == s[|s| - 1 - i]
  {
    if s == [] then [] else Backwards(s[1..]) + [s[0]]
  }

  /** What the database returns: ORDER BY id with LIMIT, descending unless the cursor is after. */
  function Query(table: seq<Message>, session: string, before: int, after: int, limit: nat): seq<Message> {
    var rows := Rows(table, session, before, after);
    if after > 0 then First(rows, limit) else First(Backwards(rows), limit)
  }

  lemma {:induction false} BackwardsWindow(rows: seq<Message>, limit: nat)
    ensures Backwards(First(Backwards(rows), limit)) == Last(rows, limit)
  {
    var window := First(Backwards(rows), limit);
    forall i | 0 <= i < |window| ensures Backwards(window)[i] == rows[|rows| - |window| + i] {
      assert Backwards(window)[i] == window[|window| - 1 - i];
    }
  }

  /** The loop at the end of ListMessages: turns the window around in place. */
  method TurnAround(out: array<Message>)
    modifies out
    ensures out[..] == Backwards(old(out[..]))
  {
    ghost var rows := out[..];
    var i, j := 0, out.Length - 1;
    while i < j
      invariant 0 <= i <= j + 1 <= out.Length && i + j == out.Length - 1
      invariant forall k :: 0 <= k < i || j < k < out.Length ==> out[k] == rows[|rows| - 1 - k]
      invariant forall k :: i <= k <= j ==> out[k] == rows[k]
    {
      out[i], out[j] := out[j], out[i];
      i, j := i + 1, j - 1;
    }
  }

  /** ListMessages: runs the query, then turns a descending result around. */
  method ListMessages(table: seq<Message>, session: string, before: int, after: int, limit: int)
    returns (page: seq<Message>, total: nat)
    ensures page == Page(table, session, before, after, limit)
    ensures total == |Of(table, session)|
  {
    var lim: nat := if limit <= 0 then 50 else limit;
    total := |Of(table, session)|;
    var rows := Query(table, session, before, after, lim);
    var out := new Message[|rows|](i requires 0 <= i < |rows| => rows[i]);
    assert out[..] == rows;
    if after <= 0 {
      TurnAround(out);
      BackwardsWindow(Rows(table, session, before, after), lim);
    }
    page := out[..];
  }

  /**
    A page has as many messages as were asked for, 50 if no number was given, or all there are. They are the
    first ones after a cursor, and otherwise the last ones.
   */
  lemma PageSize(table: seq<Message>, session: string, before: int, after: int, limit: int)
    ensures var rows, page := Rows(table, session, before, after), Page(table, session, before, after, limit);
            var asked := if limit <= 0 then 50 else limit;
            && |page| == (if |rows| < asked then |rows| else asked)
            && page == if after > 0 then rows[..|page|] else rows[|rows| - |page|..]
  {
  }

  // ---- walking back through the history ----

  /** Only appends happen between the calls. */
  predicate Growing(tables: seq<seq<Message>>) {
    && (forall i :: 0 <= i < |tables| ==> Ascending(tables[i]))
    && (forall i :: 0 <= i < |tables| ==> tables[0] <= tables[i])
  }

  /** Call i asks for the page before the oldest id seen so far (0 at first), until a page is empty. */
  function WalkBack(tables: seq<seq<Message>>, session: string, limit: int, i: nat, before: int): seq<Message>
    decreases |tables| - i
  {
    if i >= |tables| then []
    else
      var page := Page(tables[i], session, before, 0, limit);
      if page == [] then [] else WalkBack(tables, session, limit, i + 1, page[0].id) + page
  }

  lemma {:induction false} WhereAscending(table: seq<Message>, n: nat, session: string, before: int, after: int)
    requires Ascending(table) && n <= |table|
    ensures Ascending(Where(table, n, session, before, after))
    ensures forall i :: 0 <= i < |Where(table, n, session, before, after)| ==>
              && Selected(Where(table, n, session, before, after)[i], session, before, after)
              && Where(table, n, session, before, after)[i] in table[..n]
    ensures n > 0 ==> forall i :: 0 <= i < |Where(table, n, session, before, after)| ==>
              Where(table, n, session, before, after)[i].id <= table[n - 1].id
  {
    if n > 0 {
      WhereAscending(table, n - 1, session, before, after);
      assert table[..n] == table[..n - 1] + [table[n - 1]];
    }
  }

  /** Rows before a cursor that the first table already reached are the same in every later table. */
  lemma {:induction false} OldRowsStay(small: seq<Message>, big: seq<Message>, n: nat, session: string, before: int)
    requires Ascending(big) && small <= big && |small| <= n <= |big| && before > 0
    requires forall i :: |small| <= i < |big| ==> big[i].id >= before
    ensures Where(big, n, session, before, 0) == Rows(small, session, before, 0)
    decreases n
  {
    if n > |small| {
      OldRowsStay(small, big, n - 1, session, before);
    } else {
      SamePrefix(small, big, n, session, before);
    }
  }

  lemma {:induction false} SamePrefix(small: seq<Message>, big: seq<Message>, n: nat, session: string, before: int)
    requires n <= |small| && small <= big
    ensures Where(big, n, session, before, 0) == Where(small, n, session, before, 0)
  {
    if n > 0 {
      SamePrefix(small, big, n - 1, session, before);
    }
  }

  /** Lowering the cursor to the id of row k keeps exactly the rows in front of it. */
  lemma {:induction false} CursorCuts(table: seq<Message>, n: nat, session: string, before: int, cursor: nat, k: nat)
    requires Ascending(table) && n <= |table| && 0 < cursor && (before > 0 ==> cursor <= before)
    requires k <= |Where(table, n, session, before, 0)|
    requires forall i :: 0 <= i < |Where(table, n, session, before, 0)| ==>
               (Where(table, n, session, before, 0)[i].id < cursor <==> i < k)
    ensures Where(table, n, session, cursor, 0) == Where(table, n, session, before, 0)[..k]
  {
    if n > 0 {
      var m, init, rows := table[n - 1], Where(table, n - 1, session, before, 0), Where(table, n, session, before, 0);
      assert forall i :: 0 <= i < |init| ==> rows[i] == init[i];
      var kept := if k <= |init| then k else |init|;
      CursorCuts(table, n - 1, session, before, cursor, kept);
      if Selected(m, session, before, 0) {
        assert rows[|init|] == m;
        assert init[..kept] + (if m.id < cursor then [m] else []) == rows[..k];
      }
    }
  }

  /** A page splits the rows: what is left lies below its oldest id. */
  lemma PageSplits(table: seq<Message>, session: string, before: int, limit: nat)
    requires Ascending(table) && Last(Rows(table, session, before, 0), limit) != []
    ensures var rows := Rows(table, session, before, 0);
            var page := Last(rows, limit);
            && page[0] in table && page[0].id > 0 && (before > 0 ==> page[0].id < before)
            && |Rows(table, session, page[0].id, 0)| < |rows|
            && rows == Rows(table, session, page[0].id, 0) + page
  {
    var rows := Rows(table, session, before, 0);
    var page := Last(rows, limit);
    WhereAscending(table, |table|, session, before, 0);
    assert page[0] in rows;
    CursorCuts(table, |table|, session, before, page[0].id, |rows| - |page|);
  }

  /** The messages appended after the first call all have ids at or above the cursor. */
  ghost predicate NewOnesAbove(tables: seq<seq<Message>>, cursor: int)
    requires |tables| > 0
  {
    forall t, k :: 0 <= t < |tables| && |tables[0]| <= k < |tables[t]| ==> tables[t][k].id >= cursor
  }

  lemma OldIdsAreCursors(tables: seq<seq<Message>>, m: Message)
    requires |tables| > 0 && Growing(tables) && m in tables[0]
    ensures NewOnesAbove(tables, m.id)
  {
    var y :| 0 <= y < |tables[0]| && tables[0][y] == m;
    forall t, k | 0 <= t < |tables| && |tables[0]| <= k < |tables[t]| ensures tables[t][k].id >= m.id {
      assert tables[t][y] == m;
    }
  }

  /** From a cursor within the first table on, the walk returns exactly the rows below it. */
  lemma {:induction false} WalkFrom(tables: seq<seq<Message>>, session: string, limit: int, i: nat, before: int)
    requires i < |tables| && Growing(tables) && before > 0 && NewOnesAbove(tables, before)
    requires |tables| - i > |Rows(tables[0], session, before, 0)|
    ensures WalkBack(tables, session, limit, i, before) == Rows(tables[0], session, before, 0)
    decreases |tables| - i
  {
    OldRowsStay(tables[0], tables[i], |tables[i]|, session, before);
    var page := Last(Rows(tables[0], session, before, 0), Limit(limit));
    if page != [] {
      PageSplits(tables[0], session, before, Limit(limit));
      OldIdsAreCursors(tables, page[0]);
      WalkFrom(tables, session, limit, i + 1, page[0].id);
    }
  }

  /**
    Walking back from the tail returns every message that was present at the first call exactly once and
    in order, however many are appended between the calls.
   */
  lemma {:induction false} WalkReturnsAll(tables: seq<seq<Message>>, session: string, limit: int)
    requires |tables| > 0 && Growing(tables) && |tables| > |Of(tables[0], session)|
    ensures WalkBack(tables, session, limit, 0, 0) == Of(tables[0], session)
  {
    var page := Last(Of(tables[0], session), Limit(limit));
    if page != [] {
      PageSplits(tables[0], session, 0, Limit(limit));
      OldIdsAreCursors(tables, page[0]);
      WalkFrom(tables, session, limit, 1, page[0].id);
    }
  }

  // ---- incremental refresh ----

  lemma {:induction false} NewRows(small: seq<Message>, big: seq<Message>, n: nat, session: string, after: nat)
    requires Ascending(big) && small <= big && |small| <= n <= |big| && after > 0
    requires forall i :: 0 <= i < |small| && small[i].session == session ==> small[i].id <= after
    requires forall i :: |small| <= i < |big| ==> big[i].id > after
    ensures Where(big, n, session, 0, 0) == Of(small, session) + Where(big, n, session, 0, after)
    decreases n
  {
    if n > |small| {
      NewRows(small, big, n - 1, session, after);
    } else {
      SamePrefix(small, big, n, session, 0);
      NoneAfter(small, big, n, session, after);
    }
  }

  lemma {:induction false} NoneAfter(small: seq<Message>, big: seq<Message>, n: nat, session: string, after: nat)
    requires n <= |small| && small <= big && after > 0
    requires forall i :: 0 <= i < |small| && small[i].session == session ==> small[i].id <= after
    ensures Where(big, n, session, 0, after) == []
  {
    if n > 0 {
      NoneAfter(small, big, n - 1, session, after);
    }
  }

  /** Asking for what comes after the last id seen extends what was seen without gap or repeat. */
  lemma RefreshExtends(small: seq<Message>, big: seq<Message>, session: string, limit: int)
    requires Ascending(small) && Ascending(big) && small <= big && Of(small, session) != []
    ensures var seen := Of(small, session);
            var page := Page(big, session, 0, seen[|seen| - 1].id, limit);
            && seen + page <= Of(big, session)
            && (|Of(big, session)| - |seen| <= Limit(limit) ==> seen + page == Of(big, session))
  {
    var seen := Of(small, session);
    var after := seen[|seen| - 1].id;
    LastIsGreatest(small, |small|, session);
    WhereAscending(small, |small|, session, 0, 0);
    assert seen[|seen| - 1] in small;
    forall i | |small| <= i < |big| ensures big[i].id > after {
      var y :| 0 <= y < |small| && small[y] == seen[|seen| - 1];
      assert big[y] == small[y];
    }
    NewRows(small, big, |big|, session, after);
  }

  lemma {:induction false} LastIsGreatest(table: seq<Message>, n: nat, session: string)
    requires Ascending(table) && n <= |table|
    ensures var rows := Where(table, n, session, 0, 0);
            forall i :: 0 <= i < n && table[i].session == session ==> rows != [] && table[i].id <= rows[|rows| - 1].id
  {
    if n > 0 {
      LastIsGreatest(table, n - 1, session);
      WhereAscending(table, n - 1, session, 0, 0);
    }
  }
}
