/**
 * What the users and the jobs rollback routines share: the effect of one
 * rollback statement, the write loop over one read page (which keeps only
 * the count of the last statement it runs), and the `DATETIME` bounds of
 * the log query.
 */
module RollbackBatching {
  import opened Seqs
  import opened Text
  import opened RoleTable

  /**
   * One `UPDATE IGNORE ... SET cargo_id = 0 WHERE key IN (ids)` statement:
   * executed when `enabled` (the `ROLLBACK_NORM_ROLE` flag), only logged
   * otherwise. The count is the number of records it changes (`ZeroCount`).
   */
  function Rolled(t: Table, ids: seq<int>, enabled: bool): (Table, nat)
  {
    if enabled then Zero(t, ids) else (t, 0)
  }

  /**
   * The write loop over one read page, cut into `chunks`: each chunk's ids
   * are rolled back in order, and the count kept is the one of the last
   * statement only, because the loop assigns the batch count instead of
   * adding to it.
   */
  function PageRollback<R>(t: Table, chunks: seq<seq<R>>, id: R -> int, enabled: bool): (Table, nat)
  {
    if chunks == [] then (t, 0)
    else
      var prev := PageRollback(t, chunks[..|chunks| - 1], id, enabled);
      Rolled(prev.0, Map(chunks[|chunks| - 1], id), enabled)
  }

  /** A page's statements leave the table one statement over all of its ids would leave. */
  lemma {:induction false} PageRollbackTable<R>(t: Table, chunks: seq<seq<R>>, id: R -> int, enabled: bool)
    ensures PageRollback(t, chunks, id, enabled).0 == if enabled then Zero(t, Map(Flatten(chunks), id)).0 else t
  {
    if chunks != [] {
      var front := chunks[..|chunks| - 1];
      var last := chunks[|chunks| - 1];
      PageRollbackTable(t, front, id, enabled);
      assert chunks == front + [last];
      FlattenSnoc(front, last);
      MapAppend(Flatten(front), last, id);
      ZeroAppend(t, Map(Flatten(front), id), Map(last, id));
    }
  }

  /**
   * The count a page reports is at most what one statement over all of its
   * ids would report (the number of records it changes, `ZeroCount`), is 0
   * when the statements are only logged, and is that full count when the
   * page fits in one statement.
   */
  lemma PageRollbackCount<R>(t: Table, chunks: seq<seq<R>>, id: R -> int, enabled: bool)
    ensures PageRollback(t, chunks, id, enabled).1 <= Zero(t, Map(Flatten(chunks), id)).1
    ensures !enabled ==> PageRollback(t, chunks, id, enabled).1 == 0
    ensures |chunks| == 1 ==> PageRollback(t, chunks, id, enabled) == Rolled(t, Map(chunks[0], id), enabled)
  {
    if chunks != [] {
      var front := chunks[..|chunks| - 1];
      var last := chunks[|chunks| - 1];
      var a := Map(Flatten(front), id);
      var b := Map(last, id);
      PageRollbackTable(t, front, id, enabled);
      assert chunks == front + [last];
      FlattenSnoc(front, last);
      MapAppend(Flatten(front), last, id);
      if enabled {
        ZeroCountAppend(t, a, b);
      }
      if |chunks| == 1 {
        assert front == [];
        assert a == [];
      }
    }
  }

  /**
   * The reported count can fall short of what the page changed: two full
   * single-record statements that each change a record report 1, not 2.
   */
  lemma PageRollbackKeepsLastCount()
    ensures var t := map[1 := 5, 2 := 7];
      && PageRollback(t, [[1], [2]], (k: int) => k, true).1 == 1
      && |ZeroedKeys(t, [1, 2])| == 2
  {
    var t := map[1 := 5, 2 := 7];
    var id := (k: int) => k;
    assert [[1], [2]][..1] == [[1]];
    assert [[1]][..0] == [];
    assert Map([1], id) == [1];
    assert Map([2], id) == [2];
    var t1 := Zero(t, [1]).0;
    assert [1][..0] == [];
    assert t1 == t[1 := 0];
    assert [2][..0] == [];
    assert Zero(t1, [2]).1 == 1;
    assert ZeroedKeys(t, [1, 2]) == {1, 2};
  }

  /** Running a page's statements again on the table they left changes nothing and reports 0. */
  lemma PageRollbackIdempotent<R>(t: Table, chunks: seq<seq<R>>, id: R -> int, enabled: bool)
    ensures var t2 := PageRollback(t, chunks, id, enabled).0;
      PageRollback(t2, chunks, id, enabled) == (t2, 0)
  {
    var ids := Map(Flatten(chunks), id);
    var t2 := PageRollback(t, chunks, id, enabled).0;
    PageRollbackTable(t, chunks, id, enabled);
    PageRollbackTable(t2, chunks, id, enabled);
    PageRollbackCount(t2, chunks, id, enabled);
    if enabled {
      ZeroIdempotent(t, ids);
      ZeroCount(t2, ids);
    }
  }

  /**
   * One more page of a rollback run: after the statements over ids `a`, a
   * page whose chunks list the ids that follow leaves the table, and the
   * counts so far, as the statements over all ids read would.
   */
  lemma PagesStep<R>(t0: Table, a: seq<int>, chunks: seq<seq<R>>, id: R -> int, enabled: bool, total: nat)
    requires total <= Zero(t0, a).1
    requires !enabled ==> total == 0
    ensures var b := Map(Flatten(chunks), id);
      var p := PageRollback(Rolled(t0, a, enabled).0, chunks, id, enabled);
      && p.0 == Rolled(t0, a + b, enabled).0
      && total + p.1 <= Zero(t0, a + b).1
      && (!enabled ==> total + p.1 == 0)
  {
    var b := Map(Flatten(chunks), id);
    var before := Rolled(t0, a, enabled).0;
    PageRollbackTable(before, chunks, id, enabled);
    PageRollbackCount(before, chunks, id, enabled);
    if enabled {
      ZeroAppend(t0, a, b);
      ZeroCountAppend(t0, a, b);
    }
  }

  /**
   * The state of a rollback run over the rows `rows0` after the first `k`
   * of them: the rows not yet read are the rest of `rows0`, and `table` and
   * `total` are what the statements over the keys of the rows read leave
   * and report.
   */
  ghost predicate SoFar<R>(rows0: seq<R>, key: R -> int, enabled: bool, t0: Table, k: nat, total: nat,
                           table: Table, pending: seq<R>)
  {
    && k <= |rows0|
    && pending == rows0[k..]
    && table == Rolled(t0, Map(rows0[..k], key), enabled).0
    && total <= Zero(t0, Map(rows0[..k], key)).1
    && (!enabled ==> total == 0)
  }

  // ------------------------------------------------------------ timestamps

  /** A well-formed `hh:mm:ss` time of day. */
  predicate IsTime(s: string)
  {
    && |s| == 8 && s[2] == ':' && s[5] == ':'
    && '0' <= s[0] <= '2' && '0' <= s[1] <= '9' && (s[0] == '2' ==> s[1] <= '3')
    && '0' <= s[3] <= '5' && '0' <= s[4] <= '9'
    && '0' <= s[6] <= '5' && '0' <= s[7] <= '9'
  }

  const Midnight: string := "00:00:00"
  const LastSecond: string := "23:59:59"

  /** A `DATETIME` value as MySQL writes it: `YYYY-MM-DD hh:mm:ss`. */
  function At(day: string, time: string): string
  {
    day + " " + time
  }

  /** `at BETWEEN lo AND hi` on `DATETIME` values: both bounds included. */
  predicate Between(lo: string, at: string, hi: string)
  {
    LexLe(lo, at) && LexLe(at, hi)
  }

  /** Midnight is the first time of a day: no other time is at or before it. */
  lemma MidnightFirst(s: string)
    requires IsTime(s)
    ensures LexLe(Midnight, s)
    ensures LexLe(s, Midnight) <==> s == Midnight
  {
    LexLeFloor(s, Midnight);
    if s == Midnight {
      LexLeReflexive(s);
    }
  }

  /** `23:59:59` is the last time of a day. */
  lemma LastSecondLast(s: string)
    requires IsTime(s)
    ensures LexLe(s, LastSecond)
  {
    var l := LastSecond;
    LexLeSuffixes(s, l, 2);
    if s[0] == '2' {
      assert LexLe(s[1..], l[1..]) by {
        assert s[1..][1..] == s[2..] && l[1..][1..] == l[2..];
      }
      assert s[1..] == s[1..] && s == [s[0]] + s[1..];
    }
  }

  /** Two strings of one length, pointwise ordered from position `k` on, are ordered from `k` on. */
  lemma {:induction false} LexLeSuffixes(a: string, b: string, k: nat)
    requires |a| == |b| && k <= |a|
    requires forall i :: k <= i < |a| ==> a[i] <= b[i]
    ensures LexLe(a[k..], b[k..])
    decreases |a| - k
  {
    if k < |a| {
      LexLeSuffixes(a, b, k + 1);
      assert a[k..][1..] == a[k + 1..] && b[k..][1..] == b[k + 1..];
    }
  }

  /** On one day, a time is at or before that day's midnight only when it is midnight. */
  lemma SameDayAtMidnight(day: string, time: string)
    requires IsTime(time)
    ensures LexLe(At(day, time), At(day, Midnight)) <==> time == Midnight
  {
    LexLePrefix(day + " ", time, Midnight);
    MidnightFirst(time);
  }

  /** Every time of a day lies between that day's `00:00:00` and `23:59:59`. */
  lemma WholeDay(day: string, time: string)
    requires IsTime(time)
    ensures Between(At(day, Midnight), At(day, time), At(day, LastSecond))
  {
    LexLePrefix(day + " ", Midnight, time);
    LexLePrefix(day + " ", time, LastSecond);
    MidnightFirst(time);
    LastSecondLast(time);
  }
}
