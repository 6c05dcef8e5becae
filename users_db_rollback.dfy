/**
 * The users role normalization rollback: it reads the CV (or work
 * experience) records listed in the role normalization log table, page by
 * page from one open cursor, and sets their role id back to 0 in the CV (or
 * work experience) role table, `db_write_batch_size` ids per statement.
 *
 * The log table, the two role tables and the shared read cursor are state
 * of `RollbackRoutine`; the date range and the `ROLLBACK_NORM_ROLE` flag are
 * its configuration.
 */
module UsersDbRollback {
  import opened Wrappers
  import opened Seqs
  import opened Text
  import opened RoleTable
  import opened RollbackBatching
  import NormBatching

  /** The two role types, named `'cv_role'` and `'work_exp_role'`. */
  datatype Field = CvRole | WorkExpRole

  /** The role type a `role_field` argument names, if any. */
  function FieldNamed(name: string): (r: Option<Field>)
    ensures r == Some(CvRole) <==> name == "cv_role"
    ensures r == Some(WorkExpRole) <==> name == "work_exp_role"
  {
    if name == "cv_role" then Some(CvRole)
    else if name == "work_exp_role" then Some(WorkExpRole)
    else None
  }

  /** `_START_DATE` and `_END_DATE` as shipped. */
  const StartDate: string := "2022-03-01"
  const EndDate: string := "2022-05-31"

  /** A role to roll back: only the ids are read, the role text and role id stay `None`. */
  datatype Role = Role(userId: int, cvId: int, role: Option<string>, roleId: Option<int>, workExpId: Option<int>)

  /** A row of the role normalization log table. */
  datatype LogRow = LogRow(usrId: int, curId: int, curexpprofId: int, updatedAt: string)

  /**
   * The date condition: none unless both dates are set, otherwise
   * `data_atualizacao BETWEEN start AND end`, where MySQL reads each date
   * literal as midnight of that day.
   */
  predicate InPeriod(start: string, end: string, at: string)
  {
    start == "" || end == "" || Between(At(start, Midnight), at, At(end, Midnight))
  }

  /** The `WHERE` clause of the read query: CV rows have `curexpprof_id = 0`, work experience rows do not. */
  predicate Selected(field: Field, start: string, end: string, row: LogRow)
  {
    && (if field == CvRole then row.curexpprofId == 0 else row.curexpprofId != 0)
    && InPeriod(start, end, row.updatedAt)
  }

  /** The rows the read query for `field` returns, in table order. */
  function ReadQuery(log: seq<LogRow>, field: Field, start: string, end: string): seq<LogRow>
  {
    Filter(log, row => Selected(field, start, end, row))
  }

  /** The read query returns exactly the log rows its condition selects. */
  lemma ReadQueryRows(log: seq<LogRow>, field: Field, start: string, end: string, row: LogRow)
    ensures row in ReadQuery(log, field, start, end) <==> row in log && Selected(field, start, end, row)
  {
    if row in log && Selected(field, start, end, row) {
      FilterKeeps(log, r => Selected(field, start, end, r), row);
    }
  }

  /**
   * With the shipped dates, a row updated on the end date is read only when
   * it was updated at midnight exactly: the range ends where that day begins.
   */
  lemma EndDateOnlyMidnight(time: string)
    requires IsTime(time)
    ensures InPeriod(StartDate, EndDate, At(EndDate, time)) <==> time == Midnight
  {
    SameDayAtMidnight(EndDate, time);
    assert LexLe(At(StartDate, Midnight), At(EndDate, time)) by {
      var p := "2022-0";
      assert At(StartDate, Midnight) == p + "3-01 00:00:00";
      assert At(EndDate, time) == p + ("5-31 " + time);
      LexLePrefix(p, "3-01 00:00:00", "5-31 " + time);
    }
  }

  /** `Role(row[0], row[1], None)` for CV rows, with `work_exp_id=row[2]` for work experience rows. */
  function RoleOfRow(field: Field): LogRow -> Role
  {
    (row: LogRow) => if field == CvRole then Role(row.usrId, row.curId, None, None, None)
                      else Role(row.usrId, row.curId, None, None, Some(row.curexpprofId))
  }

  /** The id a rollback statement lists for a role: its CV id, or its work experience id. */
  function RollbackId(field: Field): Role -> int
  {
    (r: Role) => if field == CvRole then r.cvId else r.workExpId.GetOr(0)
  }

  /** The key a log row names in the role table of `field`. */
  function LogKey(field: Field): LogRow -> int
  {
    (row: LogRow) => if field == CvRole then row.curId else row.curexpprofId
  }

  /** The ids rolled back for the roles read from some log rows are those rows' keys. */
  lemma IdsOfRows(field: Field, rows: seq<LogRow>)
    ensures Map(Map(rows, RoleOfRow(field)), RollbackId(field)) == Map(rows, LogKey(field))
  {
    var roles := Map(rows, RoleOfRow(field));
    MapIndex(rows, RoleOfRow(field));
    MapIndex(roles, RollbackId(field));
    MapIndex(rows, LogKey(field));
  }

  /** What `_specific_role_normalization_rollback` returns: the two counts, or `0` from a guard. */
  datatype Outcome = Counts(toRollback: nat, rolledBack: nat) | Scalar(value: int)

  class RollbackRoutine {
    /** The role normalization log table. */
    const log: seq<LogRow>
    const startDate: string
    const endDate: string
    /** `ROLLBACK_NORM_ROLE`: execute the rollback statements, or only log them. */
    const rollbackEnabled: bool
    /** What the CV and the work experience read queries return. */
    const cvRows: seq<LogRow>
    const workExpRows: seq<LogRow>
    var cvTable: Table
    var workExpTable: Table
    /** The result set of the open read cursor (`_DB_READ_CURSOR`), if any. */
    var cursor: Option<seq<LogRow>>
    /** How many of its rows `fetchmany` has returned so far. */
    var pos: nat

    ghost predicate Valid()
      reads this`cursor, this`pos
    {
      cursor.Some? ==> pos <= |cursor.value|
    }

    /** The module's initial state: no read cursor. */
    constructor (log: seq<LogRow>, startDate: string, endDate: string, rollbackEnabled: bool,
                 cvTable: Table, workExpTable: Table)
      ensures Valid() && cursor.None?
      ensures this.log == log && this.startDate == startDate && this.endDate == endDate
      ensures this.rollbackEnabled == rollbackEnabled
      ensures this.cvTable == cvTable && this.workExpTable == workExpTable
      ensures Query(CvRole) == ReadQuery(log, CvRole, startDate, endDate)
      ensures Query(WorkExpRole) == ReadQuery(log, WorkExpRole, startDate, endDate)
    {
      this.log := log;
      this.startDate := startDate;
      this.endDate := endDate;
      this.rollbackEnabled := rollbackEnabled;
      cvRows := ReadQuery(log, CvRole, startDate, endDate);
      workExpRows := ReadQuery(log, WorkExpRole, startDate, endDate);
      this.cvTable := cvTable;
      this.workExpTable := workExpTable;
      cursor := None;
      pos := 0;
    }

    function FieldTable(field: Field): Table
      reads this`cvTable, this`workExpTable
    {
      if field == CvRole then cvTable else workExpTable
    }

    /** The table of the other role type. */
    function OtherTable(field: Field): Table
      reads this`cvTable, this`workExpTable
    {
      if field == CvRole then workExpTable else cvTable
    }

    /** The rows the read query for `field` returns. */
    function Query(field: Field): seq<LogRow>
    {
      if field == CvRole then cvRows else workExpRows
    }

    /**
     * The rows the next reads return: the rest of the open cursor, or, when
     * none is open, the result of the query the next read executes.
     */
    ghost function Pending(query: seq<LogRow>): seq<LogRow>
      requires Valid()
      reads this`cursor, this`pos
    {
      if cursor.Some? then cursor.value[pos..] else query
    }

    /**
     * `_get_specific_roles_to_rollback`: open a cursor on `query` if none is
     * open, then `fetchmany(size)`. The page is the next at most `size`
     * pending rows, and it is empty only when none are pending.
     */
    method GetSpecificRolesToRollback(size: nat, query: seq<LogRow>) returns (rows: seq<LogRow>)
      requires Valid()
      modifies this
      ensures Valid()
      ensures cvTable == old(cvTable) && workExpTable == old(workExpTable)
      ensures size == 0 ==> rows == [] && cursor == old(cursor) && pos == old(pos)
      ensures size > 0 ==>
        var p := old(Pending(query));
        && cursor.Some?
        && rows == p[..if size <= |p| then size else |p|]
        && Pending(query) == p[|rows|..]
    {
      if size == 0 {
        return [];
      }
      if cursor.None? {
        cursor := Some(query);
        pos := 0;
      }
      var current := cursor.value;
      var end := if pos + size <= |current| then pos + size else |current|;
      rows := current[pos..end];
      pos := end;
    }

    /**
     * `_get_roles_to_rollback` for a known role type: one page of the log
     * rows of `field`, as roles; no read for a zero batch size.
     */
    method GetRolesToRollback(field: Field, size: nat) returns (roles: seq<Role>)
      requires Valid()
      modifies this
      ensures Valid()
      ensures cvTable == old(cvTable) && workExpTable == old(workExpTable)
      ensures size == 0 ==> roles == [] && cursor == old(cursor) && pos == old(pos)
      ensures size > 0 ==>
        var p := old(Pending(Query(field)));
        var n := if size <= |p| then size else |p|;
        && cursor.Some?
        && roles == Map(p[..n], RoleOfRow(field))
        && Pending(Query(field)) == p[n..]
    {
      if size == 0 {
        return [];
      }
      var rows := GetSpecificRolesToRollback(size, Query(field));
      roles := Map(rows, RoleOfRow(field));
    }

    /**
     * `_rollback_roles` for a known role type: one statement setting the
     * role id of the listed CV (or work experience) records to 0; nothing
     * for no roles.
     */
    method RollbackRoles(field: Field, roles: seq<Role>) returns (n: nat)
      modifies this
      ensures cursor == old(cursor) && pos == old(pos)
      ensures OtherTable(field) == old(OtherTable(field))
      ensures roles == [] ==> n == 0 && FieldTable(field) == old(FieldTable(field))
      ensures roles != [] ==>
        (FieldTable(field), n) == Rolled(old(FieldTable(field)), Map(roles, RollbackId(field)), rollbackEnabled)
    {
      if roles == [] {
        return 0;
      }
      var ids := Map(roles, RollbackId(field));
      n := 0;
      if rollbackEnabled {
        var r := Zero(FieldTable(field), ids);
        if field == CvRole {
          cvTable := r.0;
        } else {
          workExpTable := r.0;
        }
        n := r.1;
      }
    }

    /**
     * The loop over one read page: every role counts as to roll back, roles
     * are gathered and rolled back `writeSize` at a time, then the last
     * partial batch; the count kept is the last statement's.
     */
    method RollbackPage(field: Field, roles: seq<Role>, writeSize: nat) returns (count: nat, lastCount: nat)
      requires writeSize > 0
      modifies this
      ensures cursor == old(cursor) && pos == old(pos)
      ensures OtherTable(field) == old(OtherTable(field))
      ensures count == |roles|
      ensures (FieldTable(field), lastCount)
           == PageRollback(old(FieldTable(field)), Chunks(roles, writeSize), RollbackId(field), rollbackEnabled)
    {
      ghost var t0 := FieldTable(field);
      ghost var done: seq<seq<Role>> := [];
      var batch: seq<Role> := [];
      count, lastCount := 0, 0;
      var i := 0;
      while i < |roles|
        invariant 0 <= i <= |roles|
        invariant Flatten(done) + batch == roles[..i]
        invariant forall k :: 0 <= k < |done| ==> |done[k]| == writeSize
        invariant |batch| < writeSize
        invariant count == i
        invariant (FieldTable(field), lastCount) == PageRollback(t0, done, RollbackId(field), rollbackEnabled)
        invariant cursor == old(cursor) && pos == old(pos)
        invariant OtherTable(field) == old(OtherTable(field))
      {
        var role := roles[i];
        count := count + 1;
        batch := batch + [role];
        assert roles[..i + 1] == roles[..i] + [role];
        if |batch| == writeSize {
          lastCount := RollbackRoles(field, batch);
          FlattenSnoc(done, batch);
          assert (done + [batch])[..|done|] == done;
          done := done + [batch];
          batch := [];
        }
        i := i + 1;
      }
      assert roles[..i] == roles;
      NormBatching.LastBatch(done, batch, writeSize);
      if |batch| > 0 {
        lastCount := RollbackRoles(field, batch);
        assert (done + [batch])[..|done|] == done;
      }
    }

    /**
     * What holds between pages of the rollback loop of `field`, after `k`
     * of the pending rows `rows0` have been read and rolled back from the
     * table `t0` with a rolled-back count of `total`.
     */
    ghost predicate RolledBackSoFar(field: Field, rows0: seq<LogRow>, t0: Table, k: nat, total: nat)
      reads this`cursor, this`pos, this`cvTable, this`workExpTable
    {
      && Valid()
      && (cursor.None? ==> k == 0)
      && SoFar(rows0, LogKey(field), rollbackEnabled, t0, k, total, FieldTable(field), Pending(Query(field)))
    }

    /**
     * A pass of the rollback loop once a non-empty page is read: the page
     * holds the next `|roles|` of the rows `pending` that were still to be
     * read, and rolling it back moves the loop state on by that many rows.
     */
    method RollbackReadPage(field: Field, roles: seq<Role>, writeSize: nat, ghost rows0: seq<LogRow>,
                            ghost t0: Table, ghost k: nat, ghost total: nat, ghost pending: seq<LogRow>)
      returns (count: nat, lastCount: nat)
      requires writeSize > 0 && Valid() && cursor.Some?
      requires SoFar(rows0, LogKey(field), rollbackEnabled, t0, k, total, FieldTable(field), pending)
      requires |roles| <= |pending| && roles == Map(pending[..|roles|], RoleOfRow(field))
      requires Pending(Query(field)) == pending[|roles|..]
      modifies this
      ensures OtherTable(field) == old(OtherTable(field))
      ensures count == |roles| && cursor.Some?
      ensures RolledBackSoFar(field, rows0, t0, k + count, total + lastCount)
    {
      ghost var before := FieldTable(field);
      count, lastCount := RollbackPage(field, roles, writeSize);
      assert Valid() && Pending(Query(field)) == pending[|roles|..];
      PageStep(field, rollbackEnabled, rows0, t0, k, total, before, pending, roles, writeSize, FieldTable(field), lastCount);
    }

    /**
     * `_specific_role_normalization_rollback`: read pages until one comes
     * back empty, roll each page back, then close the cursor. Every pending
     * row is read once and counted; the role table ends as one statement
     * over all their keys would leave it; the rolled-back count is at most
     * the number of records changed, and 0 when statements are only logged.
     * An unknown role type or a zero batch size returns the scalar 0.
     */
    method SpecificRollback(name: string, readSize: nat, writeSize: nat) returns (r: Outcome)
      requires Valid()
      modifies this
      ensures Valid()
      ensures FieldNamed(name).None? || readSize == 0 || writeSize == 0 ==>
        r == Scalar(0) && cursor == old(cursor) && pos == old(pos)
        && cvTable == old(cvTable) && workExpTable == old(workExpTable)
      ensures FieldNamed(name).Some? && readSize > 0 && writeSize > 0 ==>
        var field := FieldNamed(name).value;
        var rows := old(Pending(Query(field)));
        var keys := Map(rows, LogKey(field));
        && r.Counts? && cursor.None?
        && r.toRollback == |rows|
        && FieldTable(field) == Rolled(old(FieldTable(field)), keys, rollbackEnabled).0
        && r.rolledBack <= Zero(old(FieldTable(field)), keys).1
        && (!rollbackEnabled ==> r.rolledBack == 0)
        && OtherTable(field) == old(OtherTable(field))
    {
      var named := FieldNamed(name);
      if named.None? || readSize == 0 || writeSize == 0 {
        return Scalar(0);
      }
      var field := named.value;
      var toRollback: nat, rolledBack: nat := 0, 0;
      ghost var rows0 := Pending(Query(field));
      ghost var t0 := FieldTable(field);
      assert rows0[..0] == [];
      while true
        invariant RolledBackSoFar(field, rows0, t0, toRollback, rolledBack)
        invariant OtherTable(field) == old(OtherTable(field))
        decreases (if cursor.None? then 1 else 0) + |rows0| - toRollback
      {
        ghost var pending := Pending(Query(field));
        var roles := GetRolesToRollback(field, readSize);
        if roles == [] {
          assert pending == [];
          cursor := None;
          pos := 0;
          break;
        }
        var count, lastCount := RollbackReadPage(field, roles, writeSize, rows0, t0, toRollback, rolledBack, pending);
        toRollback := toRollback + count;
        rolledBack := rolledBack + lastCount;
      }
      assert rows0[..toRollback] == rows0;
      r := Counts(toRollback, rolledBack);
    }

    /**
     * `_role_normalization_rollback`: roll back the CV roles, then the work
     * experience roles, unpacking each pair of counts. A guard's scalar 0
     * cannot be unpacked, which raises before anything is read.
     */
    method RoleNormalizationRollback(readSize: nat, writeSize: nat) returns (r: Result<(Outcome, Outcome)>)
      requires Valid()
      modifies this
      ensures readSize == 0 || writeSize == 0 ==>
        r.Failure? && cvTable == old(cvTable) && workExpTable == old(workExpTable) && cursor == old(cursor)
      ensures readSize > 0 && writeSize > 0 ==>
        var cvKeys := Map(old(Pending(Query(CvRole))), LogKey(CvRole));
        var workExpKeys := Map(Query(WorkExpRole), LogKey(WorkExpRole));
        && r.Ok? && cursor.None? && r.value.0.Counts? && r.value.1.Counts?
        && r.value.0.toRollback == |old(Pending(Query(CvRole)))|
        && r.value.1.toRollback == |Query(WorkExpRole)|
        && cvTable == Rolled(old(cvTable), cvKeys, rollbackEnabled).0
        && workExpTable == Rolled(old(workExpTable), workExpKeys, rollbackEnabled).0
    {
      var cv := SpecificRollback("cv_role", readSize, writeSize);
      if cv.Scalar? {
        return Failure("TypeError: cannot unpack non-iterable int object");
      }
      var workExp := SpecificRollback("work_exp_role", readSize, writeSize);
      if workExp.Scalar? {
        return Failure("TypeError: cannot unpack non-iterable int object");
      }
      r := Ok((cv, workExp));
    }
  }

  /**
   * One more page of the rollback loop: the page's roles are the next
   * pending rows, so after its statements the table and the counts are
   * those of all rows read so far.
   */
  lemma PageStep(field: Field, enabled: bool, rows0: seq<LogRow>, t0: Table, k: nat, total: nat,
                 before: Table, pending: seq<LogRow>, roles: seq<Role>, writeSize: nat, after: Table, last: nat)
    requires SoFar(rows0, LogKey(field), enabled, t0, k, total, before, pending)
    requires writeSize > 0 && |roles| <= |pending|
    requires roles == Map(pending[..|roles|], RoleOfRow(field))
    requires (after, last) == PageRollback(before, Chunks(roles, writeSize), RollbackId(field), enabled)
    ensures SoFar(rows0, LogKey(field), enabled, t0, k + |roles|, total + last, after, pending[|roles|..])
  {
    var n := |roles|;
    var page := rows0[k..k + n];
    SliceStep(rows0, k, n, pending);
    KeysStep(field, rows0[..k], page, Chunks(roles, writeSize));
    PagesStep(t0, Map(rows0[..k], LogKey(field)), Chunks(roles, writeSize), RollbackId(field), enabled, total);
  }

  /** The keys of the rows read, then of a page cut into chunks of its roles. */
  lemma KeysStep(field: Field, read: seq<LogRow>, page: seq<LogRow>, chunks: seq<seq<Role>>)
    requires Flatten(chunks) == Map(page, RoleOfRow(field))
    ensures Map(read + page, LogKey(field)) == Map(read, LogKey(field)) + Map(Flatten(chunks), RollbackId(field))
  {
    IdsOfRows(field, page);
    MapAppend(read, page, LogKey(field));
  }
}
