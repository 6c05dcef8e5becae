/**
 * The date-window read cursor shared by the batch normalization routines.
 *
 * A routine reads the records to normalize one date window at a time: it
 * runs the read query with the current window's date filter, pages through
 * the result with `fetchmany`, and on the first empty page moves to the next
 * window (or, after the last one, back to the first with the "done" flag
 * set). Module-level globals hold the window index, the "re-run query" flag,
 * the "done" flag and the open connection and cursor; `WindowReader` holds
 * the same state.
 */
module DateWindows {

  /** The unit of a `SUBDATE(NOW(), INTERVAL n UNIT)` bound. */
  datatype Unit = Week | Month

  /** The instant `SUBDATE(NOW(), INTERVAL n unit)`. */
  datatype Ago = Ago(n: nat, unit: Unit)

  /** The filter `AND <date column> BETWEEN SUBDATE(NOW(), older) AND SUBDATE(NOW(), newer)`. */
  datatype Window = Window(older: Ago, newer: Ago)

  /** One window per week, newest first: week `w` spans `w + 1` to `w` weeks ago. */
  function WeeklyWindows(weeks: nat): (ws: seq<Window>)
    ensures |ws| == weeks
    ensures forall w :: 0 <= w < weeks ==> ws[w] == Window(Ago(w + 1, Week), Ago(w, Week))
  {
    if weeks == 0 then [] else WeeklyWindows(weeks - 1) + [Window(Ago(weeks, Week), Ago(weeks - 1, Week))]
  }

  /** One window per month for `count` months starting `from` months ago, newest first. */
  function MonthlyWindows(from: nat, count: nat): (ws: seq<Window>)
    ensures |ws| == count
    ensures forall k :: 0 <= k < count ==> ws[k] == Window(Ago(from + k + 1, Month), Ago(from + k, Month))
  {
    if count == 0 then [] else MonthlyWindows(from, count - 1) + [Window(Ago(from + count, Month), Ago(from + count - 1, Month))]
  }

  /** Consecutive windows share a bound: together they cover one span without gaps. */
  predicate Contiguous(ws: seq<Window>)
  {
    forall k :: 0 <= k < |ws| - 1 ==> ws[k + 1].newer == ws[k].older
  }

  lemma WeeklyContiguous(weeks: nat)
    ensures Contiguous(WeeklyWindows(weeks))
  {
    var ws := WeeklyWindows(weeks);
    forall k | 0 <= k < |ws| - 1
      ensures ws[k + 1].newer == ws[k].older
    {
      assert ws[k] == Window(Ago(k + 1, Week), Ago(k, Week));
      assert ws[k + 1] == Window(Ago(k + 2, Week), Ago(k + 1, Week));
    }
  }

  lemma MonthlyContiguous(from: nat, count: nat)
    ensures Contiguous(MonthlyWindows(from, count))
  {
    var ws := MonthlyWindows(from, count);
    forall k | 0 <= k < |ws| - 1
      ensures ws[k + 1].newer == ws[k].older
    {
      assert ws[k] == Window(Ago(from + k + 1, Month), Ago(from + k, Month));
      assert ws[k + 1] == Window(Ago(from + k + 2, Month), Ago(from + k + 1, Month));
    }
  }

  /** Two contiguous window lists joined where the first ends and the second begins. */
  lemma ContiguousAppend(a: seq<Window>, b: seq<Window>)
    requires Contiguous(a) && Contiguous(b)
    requires a != [] && b != [] ==> b[0].newer == a[|a| - 1].older
    ensures Contiguous(a + b)
  {
    var ws := a + b;
    forall k | 0 <= k < |ws| - 1
      ensures ws[k + 1].newer == ws[k].older
    {
      if k + 1 < |a| {
        assert ws[k] == a[k] && ws[k + 1] == a[k + 1];
      } else if k + 1 == |a| {
        assert ws[k] == a[k] && ws[k + 1] == b[0];
      } else {
        assert ws[k] == b[k - |a|] && ws[k + 1] == b[k + 1 - |a|];
      }
    }
  }

  function Sum(lengths: seq<nat>): nat
  {
    if lengths == [] then 0 else lengths[0] + Sum(lengths[1..])
  }

  lemma {:induction false} SumAppend(a: seq<nat>, b: seq<nat>)
    ensures Sum(a + b) == Sum(a) + Sum(b)
  {
    if a != [] {
      assert (a + b)[1..] == a[1..] + b;
      SumAppend(a[1..], b);
    } else {
      assert a + b == b;
    }
  }

  /** The number of rows in each window's result. */
  function Sizes<Row>(results: seq<seq<Row>>): (ns: seq<nat>)
    ensures |ns| == |results|
    ensures forall k :: 0 <= k < |results| ==> ns[k] == |results[k]|
  {
    if results == [] then [] else [|results[0]|] + Sizes(results[1..])
  }

  /** Rows of the windows `from` onwards. */
  function RowsFrom<Row>(results: seq<seq<Row>>, from: nat): nat
    requires from <= |results|
  {
    Sum(Sizes(results[from..]))
  }

  /** Rows of the windows before `upto`. */
  function RowsBefore<Row>(results: seq<seq<Row>>, upto: nat): nat
    requires upto <= |results|
  {
    Sum(Sizes(results[..upto]))
  }

  lemma RowsSplit<Row>(results: seq<seq<Row>>, k: nat)
    requires k < |results|
    ensures RowsFrom(results, k) == |results[k]| + RowsFrom(results, k + 1)
    ensures RowsBefore(results, k + 1) == RowsBefore(results, k) + |results[k]|
  {
    assert results[k..] == [results[k]] + results[k + 1..];
    assert Sizes(results[k..]) == [|results[k]|] + Sizes(results[k + 1..]);
    assert results[..k + 1] == results[..k] + [results[k]];
    assert Sizes(results[..k + 1]) == Sizes(results[..k]) + [|results[k]|];
    SumAppend(Sizes(results[..k]), [|results[k]|]);
  }

  class WindowReader<Row> {
    /** The number of date windows of the routine. */
    const windowCount: nat
    /** `_DB_CURRENT_DATE_FILTER_INDEX` */
    var index: nat
    /** `_DB_RERUN_READ_QUERY` */
    var rerun: bool
    /** `_DB_DATE_FILTERING_DONE` */
    var done: bool
    /** Whether `_DB_READ_CONNECTION` and `_DB_READ_CURSOR` are set. */
    var connected: bool
    /** The result set of the query the cursor last executed. */
    var current: seq<Row>
    /** How many of its rows `fetchmany` has returned so far. */
    var pos: nat

    ghost predicate Valid()
      reads this
    {
      windowCount > 0 && index < windowCount && pos <= |current|
    }

    /** The module's initial state: first window, query still to run, not done. */
    constructor (windowCount: nat)
      requires windowCount > 0
      ensures Valid()
      ensures this.windowCount == windowCount
      ensures index == 0 && rerun && !done && !connected && current == [] && pos == 0
    {
      this.windowCount := windowCount;
      index := 0;
      rerun := true;
      done := false;
      connected := false;
      current := [];
      pos := 0;
    }

    /**
     * One call of the read function with a positive batch size: connect if
     * needed, run the read query for the current window if the re-run flag is
     * set, then fetch up to `size` rows. `results[k]` is what the read query
     * returns under window `k`'s date filter. An empty fetch moves to the
     * next window, or after the last window back to the first with `done`
     * set, and asks for the query to be run again.
     */
    method FetchMany(results: seq<seq<Row>>, size: nat) returns (batch: seq<Row>)
      requires Reading(results) && size > 0
      modifies this
      ensures Reading(results) && connected
      ensures !old(done) ==> RowsRead(results) == old(RowsRead(results)) + |batch|
      ensures !old(done) ==> Progress(results) < old(Progress(results))
      ensures var q := if old(rerun) then results[old(index)] else old(current);
        var p := if old(rerun) then 0 else old(pos);
        && current == q
        && batch == q[p..if p + size <= |q| then p + size else |q|]
        && pos == p + |batch|
      ensures batch != [] ==> index == old(index) && !rerun && done == old(done)
      ensures batch == [] ==> rerun
      ensures batch == [] && old(index) + 1 < windowCount ==> index == old(index) + 1 && done == old(done)
      ensures batch == [] && old(index) + 1 >= windowCount ==> index == 0 && done
    {
      connected := true;
      RunQuery(results);
      batch := Fetch(results, size);
      if batch == [] {
        NextWindow(results);
      }
    }

    /** Run the read query for the current window when the re-run flag is set. */
    method RunQuery(results: seq<seq<Row>>)
      requires Reading(results)
      modifies this
      ensures Reading(results) && !rerun
      ensures current == (if old(rerun) then results[old(index)] else old(current))
      ensures pos == (if old(rerun) then 0 else old(pos))
      ensures index == old(index) && done == old(done) && connected == old(connected)
      ensures !done ==> RowsRead(results) == old(RowsRead(results))
      ensures !done ==> Progress(results) <= old(Progress(results))
      ensures !done && old(rerun) ==> Progress(results) < old(Progress(results))
    {
      RowsSplit(results, index);
      if rerun {
        current := results[index];
        pos := 0;
        rerun := false;
      }
    }

    /** `fetchmany(size)` on the open result: the next rows, at most `size` of them. */
    method Fetch(results: seq<seq<Row>>, size: nat) returns (batch: seq<Row>)
      requires Reading(results) && !rerun && size > 0
      modifies this
      ensures Reading(results) && !rerun
      ensures batch == old(current)[old(pos)..if old(pos) + size <= |old(current)| then old(pos) + size else |old(current)|]
      ensures pos == old(pos) + |batch| && current == old(current)
      ensures index == old(index) && done == old(done) && connected == old(connected)
      ensures batch == [] <==> old(pos) == |current|
      ensures !done ==> RowsRead(results) == old(RowsRead(results)) + |batch|
      ensures !done ==> Progress(results) == old(Progress(results)) - |batch|
    {
      var end := if pos + size <= |current| then pos + size else |current|;
      batch := current[pos..end];
      pos := end;
    }

    /** An empty fetch: move to the next window, or after the last one back to the first with `done` set. */
    method NextWindow(results: seq<seq<Row>>)
      requires Reading(results) && !rerun && pos == |current|
      modifies this
      ensures Reading(results) && rerun
      ensures connected == old(connected) && current == old(current) && pos == old(pos)
      ensures old(index) + 1 < windowCount ==> index == old(index) + 1 && done == old(done)
      ensures old(index) + 1 >= windowCount ==> index == 0 && done
      ensures !old(done) ==> RowsRead(results) == old(RowsRead(results))
      ensures !old(done) ==> Progress(results) < old(Progress(results))
    {
      RowsSplit(results, index);
      if index + 1 < windowCount {
        index := index + 1;
      } else {
        assert results[..index + 1] == results[0..];
        index := 0;
        done := true;
      }
      rerun := true;
    }

    /** Close the cursor and the connection once date filtering is done. */
    method Close()
      modifies this
      ensures !connected
      ensures index == old(index) && rerun == old(rerun) && done == old(done)
      ensures current == old(current) && pos == old(pos)
    {
      connected := false;
    }

    /**
     * The reader is in a consistent state for the read query whose per-window
     * results are `results`: its cursor, when open on a window, holds that
     * window's result.
     */
    ghost predicate Reading(results: seq<seq<Row>>)
      reads this
    {
      Valid() && |results| == windowCount && (!rerun ==> current == results[index])
    }

    /** The rows of `results` already returned by `FetchMany`. */
    ghost function RowsRead(results: seq<seq<Row>>): nat
      reads this
      requires Reading(results)
    {
      if done then RowsFrom(results, 0)
      else RowsBefore(results, index) + (if rerun then 0 else pos)
    }

    /** A measure that every call of `FetchMany` before `done` decreases. */
    ghost function Progress(results: seq<seq<Row>>): nat
      reads this
      requires Reading(results)
    {
      if done then 0
      else if rerun then 2 * (windowCount - index) + RowsFrom(results, index)
      else 2 * (windowCount - index) - 1 + (|current| - pos) + RowsFrom(results, index + 1)
    }

  }
}
