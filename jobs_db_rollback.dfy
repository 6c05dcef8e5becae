/**
 * The jobs role normalization rollback: it reads the job ids listed in the
 * role normalization log table, page by page from one open cursor, and
 * sets their role id back to 0 in the job role table,
 * `db_write_batch_size` ids per statement.
 *
 * The log table, the job role table and the shared read cursor are state
 * of `RollbackRoutine`; the date range and the `ROLLBACK_NORM_ROLE` flag are
 * its configuration.
 */
module JobsDbRollback {
  import opened Wrappers
  import opened Seqs
  import opened Text
  import opened RoleTable
  import opened RollbackBatching
  import NormBatching

  /** `_START_DATE` and `_END_DATE` as shipped: one and the same day. */
  const StartDate: string := "2023-06-12"
  const EndDate: string := "2023-06-12"

  /** A job role to roll back: only the job id is read, the role text and role id stay `None`. */
  datatype Role = Role(jobId: int, role: Option<string>, roleId: Option<int>)

  /** A row of the job role normalization log table. */
  datatype LogRow = LogRow(vagId: int, updatedAt: string)

  /**
   * The read query's condition `data_atualizacao BETWEEN 'start 00:00:00'
   * AND 'end 23:59:59'`: from the first second of the start date to the
   * last second of the end date.
   */
  predicate InPeriod(start: string, end: string, at: string)
  {
    Between(At(start, Midnight), at, At(end, LastSecond))
  }

  /**
   * The rows the read query returns, in table order. Without both dates
   * the query ends in a bare `WHERE`, which MySQL refuses as a syntax
   * error: there is no result.
   */
  function ReadQuery(log: seq<LogRow>, start: string, end: string): (r: Option<seq<LogRow>>)
    ensures r.None? <==> start == "" || end == ""
  {
    if start == "" || end == "" then None
    else Some(Filter(log, (row: LogRow) => InPeriod(start, end, row.updatedAt)))
  }

  /** The read query returns exactly the log rows updated within the period. */
  lemma ReadQueryRows(log: seq<LogRow>, start: string, end: string, row: LogRow)
    requires start != "" && end != ""
    ensures row in ReadQuery(log, start, end).value <==> row in log && InPeriod(start, end, row.updatedAt)
  {
    if row in log && InPeriod(start, end, row.updatedAt) {
      FilterKeeps(log, (r: LogRow) => InPeriod(start, end, r.updatedAt), row);
    }
  }

  /** With the shipped dates, every row updated on that day, at any time, is read. */
  lemma ShippedDayWhole(time: string)
    requires IsTime(time)
    ensures InPeriod(StartDate, EndDate, At(StartDate, time))
  {
    WholeDay(StartDate, time);
  }

  /** `Role(row[0], None)`: the log row's job id. */
  function RoleOfRow(): LogRow -> Role
  {
    (row: LogRow) => Role(row.vagId, None, None)
  }

  /** The id a rollback statement lists for a role: its job id. */
  function RollbackId(): Role -> int
  {
    (r: Role) => r.jobId
  }

  /** The key a log row names in the job role table. */
  function LogKey(): LogRow -> int
  {
    (row: LogRow) => row.vagId
  }

  /** The ids rolled back for the roles read from some log rows are those rows' job ids. */
  lemma IdsOfRows(rows: seq<LogRow>)
    ensures Map(Map(rows, RoleOfRow()), RollbackId()) == Map(rows, LogKey())
  {
    var roles := Map(rows, RoleOfRow());
    MapIndex(rows, RoleOfRow());
    MapIndex(roles, RollbackId());
    MapIndex(rows, LogKey());
  }

  /** What `_specific_role_normalization_rollback` returns: the two counts, or `0` from a guard. */
  datatype Outcome = Counts(toRollback: nat, rolledBack: nat) | Scalar(value: int)

  class RollbackRoutine {
    /** The job role normalization log table. */
    const log: seq<LogRow>
    const startDate: string
    const endDate: string
    /** `ROLLBACK_NORM_ROLE`: execute the rollback statements, or only log them. */
    const rollbackEnabled: bool
    /** What the read query returns, if MySQL accepts it. */
    const query: Option<seq<LogRow>>
    var table: Table
    /** The result set of the open read cursor (`_DB_READ_CURSOR`), if any. */
    var cursor: Option<seq<LogRow>>
    /** How many of its rows `fetchmany` has returned so far. */
    var pos: nat

    ghost predicate Valid()
      reads this`cursor, this`pos
    {
      cursor.Some? ==> pos <= |cursor.value|
    }

    /** The module's initial state: no read cursor. */
    constructor (log: seq<LogRow>, startDate: string, endDate: string, rollbackEnabled: bool, table: Table)
      ensures Valid() && cursor.None?
      ensures this.log == log && this.startDate == startDate && this.endDate == endDate
      ensures this.rollbackEnabled == rollbackEnabled && this.table == table
      ensures query == ReadQuery(log, startDate, endDate)
    {
      this.log := log;
      this.startDate := startDate;
      this.endDate := endDate;
      this.rollbackEnabled := rollbackEnabled;
      query := ReadQuery(log, startDate, endDate);
      this.table := table;
      cursor := None;
      pos := 0;
    }

    /**
     * The rows the next reads return: the rest of the open cursor, or, when
     * none is open, the result of the query the next read executes (none if
     * MySQL refuses it).
     */
    ghost function Pending(): Option<seq<LogRow>>
      requires Valid()
      reads this`cursor, this`pos
    {
      if cursor.Some? then Some(cursor.value[pos..]) else query
    }

    /**
     * `_get_roles_to_rollback`: open a cursor on the read query if none is
     * open, then `fetchmany(size)`, as roles. The page is the next at most
     * `size` pending rows, and it is empty only when none are pending. A
     * query MySQL refuses raises; a zero batch size reads nothing.
     */
    method GetRolesToRollback(size: nat) returns (r: Result<seq<Role>>)
      requires Valid()
      modifies this`cursor, this`pos
      ensures Valid()
      ensures size == 0 ==> r == Ok([]) && cursor == old(cursor) && pos == old(pos)
      ensures size > 0 && old(Pending()).None? ==> r.Failure?
      ensures size > 0 && old(Pending()).Some? ==>
        var p := old(Pending()).value;
        var n := if size <= |p| then size else |p|;
        && r.Ok? && cursor.Some?
        && r.value == Map(p[..n], RoleOfRow())
        && Pending() == Some(p[n..])
    {
      if size == 0 {
        return Ok([]);
      }
      if cursor.None? {
        if query.None? {
          return Failure("You have an error in your SQL syntax");
        }
        cursor := Some(query.value);
        pos := 0;
      }
      var current := cursor.value;
      var end := if pos + size <= |current| then pos + size else |current|;
      var rows := current[pos..end];
      assert rows == current[pos..][..end - pos];
      pos := end;
      r := Ok(Map(rows, RoleOfRow()));
    }

    /**
     * `_rollback_roles`: one statement setting the role id of the listed
     * jobs to 0; nothing for no roles.
     */
    method RollbackRoles(roles: seq<Role>) returns (n: nat)
      modifies this`table
      ensures roles == [] ==> n == 0 && table == old(table)
      ensures roles != [] ==> (table, n) == Rolled(old(table), Map(roles, RollbackId()), rollbackEnabled)
    {
      if roles == [] {
        return 0;
      }
      n := 0;
      if rollbackEnabled {
        var result := Zero(table, Map(roles, RollbackId()));
        table := result.0;
        n := result.1;
      }
    }

    /**
     * The loop over one read page: every role counts as to roll back, roles
     * are gathered and rolled back `writeSize` at a time, then the last
     * partial batch; the count kept is the last statement's.
     */
    method RollbackPage(roles: seq<Role>, writeSize: nat) returns (count: nat, lastCount: nat)
      requires writeSize > 0
      modifies this`table
      ensures count == |roles|
      ensures (table, lastCount) == PageRollback(old(table), Chunks(roles, writeSize), RollbackId(), rollbackEnabled)
    {
      ghost var t0 := table;
      ghost var done: seq<seq<Role>> := [];
      var batch: seq<Role> := [];
      count, lastCount := 0, 0;
      var i := 0;
      while i < |roles|
        invariant 0 <= i <= |roles|
        invariant Flatten(done) + batch == roles[..i]
        invariant forall k :: 0 <= k < |done| ==> |done[k]| == writeSize
        invariant |batch| < writeSize
        invariant count == i
        invariant (table, lastCount) == PageRollback(t0, done, RollbackId(), rollbackEnabled)
      {
        var role := roles[i];
        count := count + 1;
        batch := batch + [role];
        assert roles[..i + 1] == roles[..i] + [role];
        if |batch| == writeSize {
          lastCount := RollbackRoles(batch);
          FlattenSnoc(done, batch);
          assert (done + [batch])[..|done|] == done;
          done := done + [batch];
          batch := [];
        }
        i := i + 1;
      }
      assert roles[..i] == roles;
      NormBatching.LastBatch(done, batch, writeSize);
      if |batch| > 0 {
        lastCount := RollbackRoles(batch);
        assert (done + [batch])[..|done|] == done;
      }
    }

    /**
     * What holds between pages of the rollback loop, after `k` of the
     * pending rows `rows0` have been read and rolled back from the table
     * `t0` with a rolled-back count of `total`.
     */
    ghost predicate RolledBackSoFar(rows0: seq<LogRow>, t0: Table, k: nat, total: nat)
      reads this`cursor, this`pos, this`table
    {
      && Valid()
      && (cursor.None? ==> k == 0)
      && Pending().Some?
      && SoFar(rows0, LogKey(), rollbackEnabled, t0, k, total, table, Pending().value)
    }

    /**
     * A pass of the rollback loop once a non-empty page is read: the page
     * holds the next `|roles|` of the rows `pending` that were still to be
     * read, and rolling it back moves the loop state on by that many rows.
     */
    method RollbackReadPage(roles: seq<Role>, writeSize: nat, ghost rows0: seq<LogRow>,
                            ghost t0: Table, ghost k: nat, ghost total: nat, ghost pending: seq<LogRow>)
      returns (count: nat, lastCount: nat)
      requires writeSize > 0 && Valid() && cursor.Some?
      requires SoFar(rows0, LogKey(), rollbackEnabled, t0, k, total, table, pending)
      requires |roles| <= |pending| && roles == Map(pending[..|roles|], RoleOfRow())
      requires Pending() == Some(pending[|roles|..])
      modifies this`table
      ensures count == |roles|
      ensures RolledBackSoFar(rows0, t0, k + count, total + lastCount)
    {
      ghost var before := table;
      count, lastCount := RollbackPage(roles, writeSize);
      PageStep(rollbackEnabled, rows0, t0, k, total, before, pending, roles, writeSize, table, lastCount);
    }

    /**
     * `_specific_role_normalization_rollback`: read pages until one comes
     * back empty, roll each page back, then close the cursor. Every pending
     * row is read once and counted; the job role table ends as one
     * statement over all their job ids would leave it; the rolled-back count
     * is at most the number of records changed, and 0 when statements are
     * only logged. A zero batch size returns the scalar 0; a read query
     * MySQL refuses raises before anything is rolled back.
     */
    method SpecificRollback(readSize: nat, writeSize: nat) returns (r: Result<Outcome>)
      requires Valid()
      modifies this
      ensures Valid()
      ensures readSize == 0 || writeSize == 0 ==>
        r == Ok(Scalar(0)) && cursor == old(cursor) && pos == old(pos) && table == old(table)
      ensures readSize > 0 && writeSize > 0 && old(Pending()).None? ==> r.Failure? && table == old(table)
      ensures readSize > 0 && writeSize > 0 && old(Pending()).Some? ==>
        var rows := old(Pending()).value;
        var keys := Map(rows, LogKey());
        && r.Ok? && r.value.Counts? && cursor.None?
        && r.value.toRollback == |rows|
        && table == Rolled(old(table), keys, rollbackEnabled).0
        && r.value.rolledBack <= Zero(old(table), keys).1
        && (!rollbackEnabled ==> r.value.rolledBack == 0)
    {
      if readSize == 0 || writeSize == 0 {
        return Ok(Scalar(0));
      }
      var toRollback: nat, rolledBack: nat := 0, 0;
      ghost var rows0 := Pending().GetOr([]);
      ghost var t0 := table;
      ghost var refused := Pending().None?;
      assert rows0[..0] == [];
      while true
        invariant refused ==> Valid() && Pending().None? && table == t0
        invariant !refused ==> RolledBackSoFar(rows0, t0, toRollback, rolledBack)
        decreases (if cursor.None? then 1 else 0) + |rows0| - toRollback
      {
        ghost var pending := Pending().GetOr([]);
        var read := GetRolesToRollback(readSize);
        if read.Failure? {
          return Failure(read.error);
        }
        var roles := read.value;
        if roles == [] {
          assert pending == [];
          cursor := None;
          pos := 0;
          break;
        }
        var count, lastCount := RollbackReadPage(roles, writeSize, rows0, t0, toRollback, rolledBack, pending);
        toRollback := toRollback + count;
        rolledBack := rolledBack + lastCount;
      }
      assert rows0[..toRollback] == rows0;
      r := Ok(Counts(toRollback, rolledBack));
    }

    /**
     * `_role_normalization_rollback`: roll back the job roles and unpack
     * the pair of counts. A guard's scalar 0 cannot be unpacked, which
     * raises before anything is read; so does a refused read query.
     */
    method RoleNormalizationRollback(readSize: nat, writeSize: nat) returns (r: Result<Outcome>)
      requires Valid()
      modifies this
      ensures readSize == 0 || writeSize == 0 ==> r.Failure? && table == old(table) && cursor == old(cursor)
      ensures old(Pending()).None? ==> r.Failure? && table == old(table)
      ensures readSize > 0 && writeSize > 0 && old(Pending()).Some? ==>
        var rows := old(Pending()).value;
        && r.Ok? && r.value.Counts? && cursor.None?
        && r.value.toRollback == |rows|
        && table == Rolled(old(table), Map(rows, LogKey()), rollbackEnabled).0
    {
      r := SpecificRollback(readSize, writeSize);
      if r.Ok? && r.value.Scalar? {
        return Failure("TypeError: cannot unpack non-iterable int object");
      }
    }
  }

  /**
   * One more page of the rollback loop: the page's roles are the next
   * pending rows, so after its statements the table and the counts are
   * those of all rows read so far.
   */
  lemma PageStep(enabled: bool, rows0: seq<LogRow>, t0: Table, k: nat, total: nat,
                 before: Table, pending: seq<LogRow>, roles: seq<Role>, writeSize: nat, after: Table, last: nat)
    requires SoFar(rows0, LogKey(), enabled, t0, k, total, before, pending)
    requires writeSize > 0 && |roles| <= |pending|
    requires roles == Map(pending[..|roles|], RoleOfRow())
    requires (after, last) == PageRollback(before, Chunks(roles, writeSize), RollbackId(), enabled)
    ensures SoFar(rows0, LogKey(), enabled, t0, k + |roles|, total + last, after, pending[|roles|..])
  {
    var n := |roles|;
    var page := rows0[k..k + n];
    SliceStep(rows0, k, n, pending);
    KeysStep(rows0[..k], page, Chunks(roles, writeSize));
    PagesStep(t0, Map(rows0[..k], LogKey()), Chunks(roles, writeSize), RollbackId(), enabled, total);
  }

  /** The keys of the rows read, then of a page cut into chunks of its roles. */
  lemma KeysStep(read: seq<LogRow>, page: seq<LogRow>, chunks: seq<seq<Role>>)
    requires Flatten(chunks) == Map(page, RoleOfRow())
    ensures Map(read + page, LogKey()) == Map(read, LogKey()) + Map(Flatten(chunks), RollbackId())
  {
    IdsOfRows(page);
    MapAppend(read, page, LogKey());
  }
}
