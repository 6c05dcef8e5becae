/**
 * The users role normalization routine: it reads the CV roles (or the work
 * experience roles) that have no valid role id, one date window at a time,
 * sends the records of users in the AB test group to the Role Normalization
 * API in batches, writes the returned role ids to the CV (or work
 * experience) role table, flags each written record, and enqueues the
 * affected user ids for re-indexing.
 *
 * The database, the API, the AB test API and the queue are state of
 * `UsersRoutine` or functions of its configuration.
 */
module UsersRoleNorm {
  import opened Wrappers
  import opened Seqs
  import opened DateWindows
  import opened NormBatching
  import RoleTable

  const CvRole: string := "cv_role"
  const WorkExpRole: string := "work_exp_role"

  predicate KnownField(field: string)
  {
    field == CvRole || field == WorkExpRole
  }

  /** A role text of a CV, or of one of the CV's work experiences. */
  datatype Role = Role(userId: int, cvId: int, role: string, roleId: Option<int>, workExpId: Option<int>)

  // ---------------------------------------------------------------- windows

  /** The number of date windows the routine reads through. */
  const WindowCount: nat := 31

  /**
   * The date filters, newest first: 24 weekly windows, the days between 24
   * weeks and 6 months ago, then 6 monthly windows back to 12 months ago.
   */
  function DateFilterSteps(): seq<Window>
  {
    WeeklyWindows(24) + [Window(Ago(6, Month), Ago(24, Week))] + MonthlyWindows(6, 6)
  }

  /**
   * 31 windows, each starting where the previous one ends, covering the
   * span from now back to 12 months ago; the 25th is the leftover window
   * between 24 weeks and 6 months ago.
   */
  lemma DateFilterStepsShape()
    ensures var ws := DateFilterSteps();
      && |ws| == WindowCount
      && Contiguous(ws)
      && ws[0].newer == Ago(0, Week) && ws[30].older == Ago(12, Month)
      && ws[24] == Window(Ago(6, Month), Ago(24, Week))
  {
    assert |DateFilterSteps()| == WindowCount;
    DateFilterStepsContiguous();
    DateFilterStepsNewest();
    DateFilterStepsOldest();
  }

  lemma DateFilterStepsContiguous()
    ensures Contiguous(DateFilterSteps())
  {
    var weekly, monthly := WeeklyWindows(24), MonthlyWindows(6, 6);
    var leftover := [Window(Ago(6, Month), Ago(24, Week))];
    WeeklyContiguous(24);
    MonthlyContiguous(6, 6);
    ContiguousAppend(weekly, leftover);
    ContiguousAppend(weekly + leftover, monthly);
  }

  lemma DateFilterStepsNewest()
    ensures DateFilterSteps()[0].newer == Ago(0, Week)
  {
    var weekly, rest := WeeklyWindows(24), [Window(Ago(6, Month), Ago(24, Week))] + MonthlyWindows(6, 6);
    assert DateFilterSteps()[0] == weekly[0] by {
      assert DateFilterSteps() == weekly + rest;
    }
    assert weekly[0] == Window(Ago(1, Week), Ago(0, Week));
  }

  lemma DateFilterStepsOldest()
    ensures DateFilterSteps()[30].older == Ago(12, Month)
  {
    var monthly := MonthlyWindows(6, 6);
    assert monthly[5] == Window(Ago(12, Month), Ago(11, Month));
    assert DateFilterSteps()[30] == monthly[5];
  }

  // ------------------------------------------------------------- read rows

  /** A column value of a fetched row. */
  datatype Cell = IntCell(n: int) | TextCell(s: string)
  type Row = seq<Cell>

  /**
   * The columns of the CV read query (user id, CV id, CV role) and of the
   * work experience read query (user id, CV id, work experience id, role).
   */
  predicate RowShape(field: string, row: Row)
  {
    if field == CvRole then |row| == 3 && row[0].IntCell? && row[1].IntCell? && row[2].TextCell?
    else |row| == 4 && row[0].IntCell? && row[1].IntCell? && row[2].IntCell? && row[3].TextCell?
  }

  predicate ResultsShape(field: string, results: seq<seq<Row>>)
  {
    forall k, i :: 0 <= k < |results| && 0 <= i < |results[k]| ==> RowShape(field, results[k][i])
  }

  /** The row a role was read from: its fields back in query column order. */
  function RowOfRole(field: string, r: Role): Row
  {
    if field == CvRole then [IntCell(r.userId), IntCell(r.cvId), TextCell(r.role)]
    else [IntCell(r.userId), IntCell(r.cvId), IntCell(r.workExpId.GetOr(0)), TextCell(r.role)]
  }

  /**
   * A fetched row as a role: no role id yet, and a work experience id only
   * for work experience rows, taken from the third column, the title from
   * the fourth. Every column lands in its field: the row is recovered.
   */
  function RoleOfRow(field: string, row: Row): (r: Role)
    requires KnownField(field) && RowShape(field, row)
    ensures r.roleId == None
    ensures r.workExpId.Some? <==> field == WorkExpRole
    ensures RowOfRole(field, r) == row
  {
    if field == CvRole then Role(row[0].n, row[1].n, row[2].s, None, None)
    else Role(row[0].n, row[1].n, row[3].s, None, Some(row[2].n))
  }

  function RolesOfRows(field: string, rows: seq<Row>): (roles: seq<Role>)
    requires KnownField(field)
    requires forall i :: 0 <= i < |rows| ==> RowShape(field, rows[i])
    ensures |roles| == |rows|
    ensures forall i :: 0 <= i < |rows| ==> roles[i] == RoleOfRow(field, rows[i])
  {
    if rows == [] then [] else [RoleOfRow(field, rows[0])] + RolesOfRows(field, rows[1..])
  }

  // ------------------------------------------------------------- AB test

  /**
   * Whether the AB test API puts `userId` in `group`. `abApi` stands for the
   * API: `Some(g)` for a 200 reply whose `ab_test_group` renders as `g`,
   * `None` for any other status or a failed call. An empty user id, an
   * empty group or a disabled test answers false without consulting it.
   */
  function IsPartOfAbTestGroup(userId: int, group: string, enabled: bool, abApi: int -> Option<string>): (r: bool)
    ensures userId == 0 || group == "" || !enabled ==> !r
    ensures r <==> userId != 0 && group != "" && enabled && abApi(userId) == Some(group)
  {
    if userId == 0 then false
    else if group == "" then false
    else if !enabled then false
    else match abApi(userId)
      case Some(side) => side == group
      case None => false
  }

  // ------------------------------------------------------------- settings

  /** A query result for the flag upsert: rows affected. */
  datatype FlagRow = FlagRow(usrId: int, curId: int, curexpprofId: int, cargoId: int)

  /**
   * The routine's settings and the outside services it calls: the AB test
   * switch, group and API, the Role Normalization API, the write/flag/queue
   * switches, and the affected-row count of a flag upsert.
   */
  datatype Config = Config(
    abEnabled: bool,
    abGroup: string,
    abApi: int -> Option<string>,
    api: ApiRequest -> ApiReply,
    writeNormRole: bool,
    writeFlag: bool,
    enqueueIds: bool,
    flagUpsert: seq<FlagRow> -> nat)

  /** A role takes part in this run: no AB test, or its user is in the test group. */
  predicate InAbGroup(cfg: Config, r: Role)
  {
    !cfg.abEnabled || IsPartOfAbTestGroup(r.userId, cfg.abGroup, cfg.abEnabled, cfg.abApi)
  }

  /** The per-role AB filter of the normalization loop. */
  function Selection(cfg: Config): Role -> bool
  {
    r => InAbGroup(cfg, r)
  }

  // ------------------------------------------------------- normalization API

  function Origin(field: string): string
  {
    if field == CvRole then "routine_cv_role" else "routine_work_exp_role"
  }

  function Titles(roles: seq<Role>): seq<string>
  {
    Map(roles, (r: Role) => r.role)
  }

  function Title(r: Role): string { r.role }

  function WithRoleId(r: Role, id: int): Role { r.(roleId := Some(id)) }

  /**
   * What one call of `_get_normalized_roles` returns: nothing for an unknown
   * field, no roles or a non-200 reply; otherwise the merge of the reply
   * onto the roles.
   */
  function NormalizedRoles(cfg: Config, field: string, roles: seq<Role>): (r: seq<Role>)
    ensures |r| <= |roles|
    ensures r != [] ==> KnownField(field) && cfg.api(ApiRequest(Titles(roles), Origin(field))).Normalized?
  {
    if !KnownField(field) || roles == [] then []
    else match cfg.api(ApiRequest(Titles(roles), Origin(field)))
      case Failed => []
      case Normalized(body) => Merge(roles, body, Title, WithRoleId)
  }

  /** One API round trip of the normalization loop. */
  function Normalizer(cfg: Config, field: string): seq<Role> -> seq<Role>
  {
    c => NormalizedRoles(cfg, field, c)
  }

  /**
   * The normalized roles are input roles whose title the reply maps to a
   * non-empty list, each with its role id set to that list's first id and
   * every other field unchanged.
   */
  lemma NormalizedRolesMember(cfg: Config, field: string, roles: seq<Role>, i: nat)
    requires i < |NormalizedRoles(cfg, field, roles)|
    ensures var reply := cfg.api(ApiRequest(Titles(roles), Origin(field)));
      && reply.Normalized?
      && exists j :: 0 <= j < |roles| && Matched(reply.roleIds, roles[j].role)
           && NormalizedRoles(cfg, field, roles)[i] == roles[j].(roleId := Some(reply.roleIds[roles[j].role][0]))
  {
    var body := cfg.api(ApiRequest(Titles(roles), Origin(field))).roleIds;
    MergeMember(roles, body, Title, WithRoleId, i);
    var x :| x in roles && Matched(body, Title(x))
             && Merge(roles, body, Title, WithRoleId)[i] == WithRoleId(x, body[Title(x)][0]);
    var j :| 0 <= j < |roles| && roles[j] == x;
  }

  /** Roles sharing a title receive the same role id: the merge looks ids up by title. */
  lemma NormalizedRolesSameTitle(cfg: Config, field: string, roles: seq<Role>, i: nat, k: nat)
    requires i < |NormalizedRoles(cfg, field, roles)| && k < |NormalizedRoles(cfg, field, roles)|
    requires NormalizedRoles(cfg, field, roles)[i].role == NormalizedRoles(cfg, field, roles)[k].role
    ensures NormalizedRoles(cfg, field, roles)[i].roleId == NormalizedRoles(cfg, field, roles)[k].roleId
    ensures NormalizedRoles(cfg, field, roles)[i].roleId.Some?
  {
    NormalizedRolesMember(cfg, field, roles, i);
    NormalizedRolesMember(cfg, field, roles, k);
  }

  /**
   * `_get_normalized_roles`: the guards, one API call with every title in
   * order, and the merge loop over the reply.
   */
  method GetNormalizedRoles(cfg: Config, field: string, roles: seq<Role>) returns (normalized: seq<Role>)
    ensures normalized == NormalizedRoles(cfg, field, roles)
  {
    if !KnownField(field) || roles == [] {
      return [];
    }
    var reply := cfg.api(ApiRequest(Titles(roles), Origin(field)));
    normalized := [];
    if reply.Normalized? {
      normalized := MergeReply(roles, reply.roleIds, Title, WithRoleId);
    }
  }

  // ------------------------------------------------------------- writes

  /** The statements `_write_normalized_roles` composes for one write batch. */
  datatype WriteStatements = WriteStatements(
    insertRows: seq<RoleTable.Entry>,
    parentCheck: bool,
    caseArms: seq<RoleTable.Entry>,
    inList: seq<int>)

  function WriteEntry(field: string, r: Role): RoleTable.Entry
  {
    RoleTable.Entry(if field == CvRole then r.cvId else r.workExpId.GetOr(0), r.roleId.GetOr(0))
  }

  function WriteEntries(field: string, roles: seq<Role>): seq<RoleTable.Entry>
  {
    Map(roles, r => WriteEntry(field, r))
  }

  /**
   * The insert and update for a write batch: none for an unknown field or an
   * empty batch; otherwise one inserted row and one CASE arm per role, in
   * order, keyed by the CV id for CV roles and by the work experience id
   * for work experience roles, an IN list equal to the keys, and the parent
   * table check only for work experiences.
   */
  function ComposeWrite(field: string, roles: seq<Role>): (st: Option<WriteStatements>)
    ensures st.None? <==> !KnownField(field) || roles == []
    ensures st.Some? ==>
      && |st.value.insertRows| == |roles|
      && st.value.caseArms == st.value.insertRows
      && st.value.inList == RoleTable.Keys(st.value.caseArms)
      && st.value.parentCheck == (field == WorkExpRole)
    ensures st.Some? ==> forall i :: 0 <= i < |roles| ==>
      && st.value.insertRows[i].key == (if field == CvRole then roles[i].cvId else roles[i].workExpId.GetOr(0))
      && st.value.insertRows[i].roleId == roles[i].roleId.GetOr(0)
  {
    if !KnownField(field) || roles == [] then None
    else
      var rows := WriteEntries(field, roles);
      MapIndex(roles, r => WriteEntry(field, r));
      Some(WriteStatements(rows, field == WorkExpRole, rows, RoleTable.Keys(rows)))
  }

  /**
   * The role table after one write batch and the written count (inserted
   * plus updated rows): nothing changes and the count is 0 when writing is
   * off, the field is unknown or the batch is empty.
   */
  function ApplyWrite(field: string, t: RoleTable.Table, parents: set<int>, roles: seq<Role>, enabled: bool): (r: (RoleTable.Table, nat))
    ensures !enabled || !KnownField(field) || roles == [] ==> r == (t, 0)
  {
    match ComposeWrite(field, roles)
      case None => (t, 0)
      case Some(st) => RoleTable.WriteBatch(t, st.insertRows, if st.parentCheck then Some(parents) else None, enabled)
  }

  /** Writing the same batch twice changes nothing the second time and counts 0. */
  lemma ApplyWriteIdempotent(field: string, t: RoleTable.Table, parents: set<int>, roles: seq<Role>, enabled: bool)
    ensures var (t2, _) := ApplyWrite(field, t, parents, roles, enabled);
            ApplyWrite(field, t2, parents, roles, enabled) == (t2, 0)
  {
    match ComposeWrite(field, roles)
      case None =>
      case Some(st) =>
        RoleTable.WriteBatchIdempotent(t, st.insertRows, if st.parentCheck then Some(parents) else None, enabled);
  }

  /**
   * After a batch with distinct keys is written, each role's record exists
   * (if it existed before, or, for a work experience, if its parent row
   * exists) and holds the role's id.
   */
  lemma ApplyWriteRecord(field: string, t: RoleTable.Table, parents: set<int>, roles: seq<Role>, i: nat)
    requires KnownField(field) && i < |roles|
    requires RoleTable.DistinctKeys(WriteEntries(field, roles))
    requires var k := WriteEntry(field, roles[i]).key; k in t || field == CvRole || k in parents
    ensures var (t2, _) := ApplyWrite(field, t, parents, roles, true);
            var e := WriteEntry(field, roles[i]);
            e.key in t2 && t2[e.key] == roles[i].roleId.GetOr(0)
  {
    var entries := WriteEntries(field, roles);
    var ps := if field == WorkExpRole then Some(parents) else None;
    assert ApplyWrite(field, t, parents, roles, true).0 == RoleTable.Written(t, entries, ps);
    assert entries[i] == WriteEntry(field, roles[i]);
    RoleTable.WrittenEntry(t, entries, ps, i);
    RoleTable.WrittenDistinctKeys(t, entries, ps, i);
  }

  /** The write batches of one page applied in order, with the written counts summed. */
  function ApplyWrites(field: string, t: RoleTable.Table, parents: set<int>, chunks: seq<seq<Role>>, enabled: bool): (RoleTable.Table, nat)
  {
    FoldCounts(t, chunks, WriteStep(field, parents, enabled))
  }

  /** One write batch as a step of the per-page write loop. */
  function WriteStep(field: string, parents: set<int>, enabled: bool): (RoleTable.Table, seq<Role>) -> (RoleTable.Table, nat)
  {
    (t1: RoleTable.Table, c: seq<Role>) => ApplyWrite(field, t1, parents, c, enabled)
  }

  /** With `WRITE_NORM_ROLE` off, no batch changes the table and every count is 0. */
  lemma ApplyWritesDisabled(field: string, t: RoleTable.Table, parents: set<int>, chunks: seq<seq<Role>>)
    ensures ApplyWrites(field, t, parents, chunks, false) == (t, 0)
  {
    FoldCountsIdle(t, chunks, WriteStep(field, parents, false));
  }

  // ------------------------------------------------------------- flags

  /**
   * The upsert values of `_write_normalized_role_flags`: one
   * `(usr_id, cur_id, curexpprof_id, cargo_id)` tuple per role, in order,
   * with a missing id written as 0.
   */
  function FlagRows(roles: seq<Role>): seq<FlagRow>
  {
    Map(roles, FlagRowOf)
  }

  /** The affected-row count of the flag upsert of one chunk. */
  function FlagUpserts(cfg: Config): seq<Role> -> nat
  {
    c => cfg.flagUpsert(FlagRows(c))
  }

  function FlagRowOf(r: Role): FlagRow
  {
    FlagRow(r.userId, r.cvId, r.workExpId.GetOr(0), r.roleId.GetOr(0))
  }

  /**
   * The flags record what was written: each flag tuple carries the key and
   * role id of the same role's row in the write statements, in the CV id
   * column for CV roles and in the work experience id column otherwise.
   */
  lemma FlagRowsMatchWrite(field: string, roles: seq<Role>, i: nat)
    requires KnownField(field) && i < |roles|
    ensures var st := ComposeWrite(field, roles).value;
            var flag := FlagRows(roles)[i];
      && flag.cargoId == st.insertRows[i].roleId
      && (field == CvRole ==> flag.curId == st.insertRows[i].key)
      && (field == WorkExpRole ==> flag.curexpprofId == st.insertRows[i].key)
  {
    MapIndex(roles, FlagRowOf);
  }

  // ------------------------------------------------------------- queue

  function UserIds(roles: seq<Role>): seq<int>
  {
    Map(roles, (r: Role) => r.userId)
  }

  /** The `usr_ids` of a queue message: each user of the batch once. */
  function QueueMessage(roles: seq<Role>): (ids: seq<int>)
    ensures NoDuplicates(ids)
    ensures Elements(ids) == Elements(UserIds(roles))
    ensures |ids| == |Elements(UserIds(roles))|
  {
    DistinctCardinality(UserIds(roles));
    Distinct(UserIds(roles))
  }

  function DistinctUsers(roles: seq<Role>): nat
  {
    |Elements(UserIds(roles))|
  }

  // ------------------------------------------------------------- routine

  /**
   * The routine's state: the date-window reader, what the two read queries
   * return under each window, the two role tables, the work experience
   * parent table, and the flag statements and queue messages sent so far.
   */
  class UsersRoutine {
    const cfg: Config
    const reader: WindowReader<Row>
    const cvResults: seq<seq<Row>>
    const workExpResults: seq<seq<Row>>
    const workExpParents: set<int>
    var cvTable: RoleTable.Table
    var workExpTable: RoleTable.Table
    var flagStatements: seq<seq<FlagRow>>
    var queue: seq<seq<int>>

    function Results(field: string): seq<seq<Row>>
    {
      if field == CvRole then cvResults else workExpResults
    }

    ghost predicate Valid()
      reads reader
    {
      && reader.Valid()
      && reader.windowCount == WindowCount
      && |cvResults| == reader.windowCount && |workExpResults| == reader.windowCount
      && ResultsShape(CvRole, cvResults) && ResultsShape(WorkExpRole, workExpResults)
    }

    constructor (cfg: Config, cvResults: seq<seq<Row>>, workExpResults: seq<seq<Row>>, workExpParents: set<int>,
                 cvTable: RoleTable.Table, workExpTable: RoleTable.Table)
      requires |cvResults| == WindowCount && |workExpResults| == WindowCount
      requires ResultsShape(CvRole, cvResults) && ResultsShape(WorkExpRole, workExpResults)
      ensures Valid() && fresh(reader)
      ensures reader.windowCount == WindowCount
      ensures reader.index == 0 && reader.rerun && !reader.done
      ensures this.cfg == cfg && this.cvResults == cvResults && this.workExpResults == workExpResults
      ensures this.workExpParents == workExpParents
      ensures this.cvTable == cvTable && this.workExpTable == workExpTable
      ensures flagStatements == [] && queue == []
    {
      this.cfg := cfg;
      this.cvResults := cvResults;
      this.workExpResults := workExpResults;
      this.workExpParents := workExpParents;
      this.cvTable := cvTable;
      this.workExpTable := workExpTable;
      flagStatements := [];
      queue := [];
      reader := new WindowReader(WindowCount);
    }

    /**
     * `_get_roles_to_normalize`: one page from the reader, as roles. The
     * rows read so far grow by the page, and a non-empty page leaves the
     * done flag as it was.
     */
    method GetRolesToNormalize(field: string, size: nat) returns (roles: seq<Role>)
      requires Valid() && reader.Reading(Results(field))
      modifies reader
      ensures Valid() && reader.Reading(Results(field))
      ensures !KnownField(field) || size == 0 ==> roles == [] && unchanged(reader)
      ensures KnownField(field) && size > 0 && !old(reader.done) ==>
        && reader.RowsRead(Results(field)) == old(reader.RowsRead(Results(field))) + |roles|
        && reader.Progress(Results(field)) < old(reader.Progress(Results(field)))
      ensures roles != [] ==> reader.done == old(reader.done)
      ensures forall i :: 0 <= i < |roles| ==> roles[i].roleId == None && (roles[i].workExpId.Some? <==> field == WorkExpRole)
      ensures KnownField(field) && size > 0 ==>
        var p := if old(reader.rerun) then 0 else old(reader.pos);
        && reader.current == (if old(reader.rerun) then Results(field)[old(reader.index)] else old(reader.current))
        && p <= reader.pos <= |reader.current|
        && roles == RolesOfRows(field, reader.current[p..reader.pos])
    {
      if !KnownField(field) || size == 0 {
        return [];
      }
      ghost var q := if reader.rerun then Results(field)[reader.index] else reader.current;
      ghost var k := reader.index;
      var rows := reader.FetchMany(Results(field), size);
      assert forall i :: 0 <= i < |rows| ==> rows[i] in q;
      assert q == Results(field)[k];
      roles := RolesOfRows(field, rows);
    }

    function FieldTable(field: string): RoleTable.Table
      reads this
    {
      if field == CvRole then cvTable else workExpTable
    }

    /** `_write_normalized_roles` on one write batch: only the field's table changes. */
    method WriteNormalizedRoles(field: string, roles: seq<Role>) returns (written: nat)
      modifies this
      ensures (FieldTable(field), written) == ApplyWrite(field, old(FieldTable(field)), workExpParents, roles, cfg.writeNormRole)
      ensures field == CvRole ==> workExpTable == old(workExpTable)
      ensures field != CvRole ==> cvTable == old(cvTable)
      ensures flagStatements == old(flagStatements) && queue == old(queue)
    {
      var (t, n) := ApplyWrite(field, FieldTable(field), workExpParents, roles, cfg.writeNormRole);
      if field == CvRole {
        cvTable := t;
      } else {
        workExpTable := t;
      }
      written := n;
    }

    /** `_write_normalized_role_flags`: one upsert of the batch's flag tuples when flag writing is on. */
    method WriteNormalizedRoleFlags(roles: seq<Role>) returns (upserted: nat)
      modifies this
      ensures roles == [] || !cfg.writeFlag ==> upserted == 0 && flagStatements == old(flagStatements)
      ensures roles != [] && cfg.writeFlag ==>
        upserted == cfg.flagUpsert(FlagRows(roles)) && flagStatements == old(flagStatements) + [FlagRows(roles)]
      ensures cvTable == old(cvTable) && workExpTable == old(workExpTable) && queue == old(queue)
    {
      upserted := 0;
      if roles == [] {
        return;
      }
      var rows := FlagRows(roles);
      if cfg.writeFlag {
        flagStatements := flagStatements + [rows];
        upserted := cfg.flagUpsert(rows);
      }
    }

    /**
     * `_enqueue_normalized_user_ids`: publish the batch's distinct user ids
     * when enqueueing is on, and return how many there are either way.
     */
    method EnqueueNormalizedUserIds(field: string, roles: seq<Role>) returns (count: nat)
      modifies this
      ensures !KnownField(field) || roles == [] ==> count == 0 && queue == old(queue)
      ensures KnownField(field) && roles != [] ==>
        && count == DistinctUsers(roles)
        && queue == old(queue) + (if cfg.enqueueIds then [QueueMessage(roles)] else [])
      ensures cvTable == old(cvTable) && workExpTable == old(workExpTable) && flagStatements == old(flagStatements)
    {
      if !KnownField(field) || roles == [] {
        return 0;
      }
      var ids := QueueMessage(roles);
      count := |ids|;
      if cfg.enqueueIds {
        queue := queue + [ids];
      }
    }

    /** The write loop of one page: every write batch in order, counts summed. */
    method WriteBatches(field: string, chunks: seq<seq<Role>>) returns (written: nat)
      modifies this
      ensures (FieldTable(field), written) == ApplyWrites(field, old(FieldTable(field)), workExpParents, chunks, cfg.writeNormRole)
      ensures field == CvRole ==> workExpTable == old(workExpTable)
      ensures field != CvRole ==> cvTable == old(cvTable)
      ensures flagStatements == old(flagStatements) && queue == old(queue)
    {
      ghost var t0 := FieldTable(field);
      written := 0;
      var i := 0;
      while i < |chunks|
        invariant 0 <= i <= |chunks|
        invariant FieldTable(field) == FoldCounts(t0, chunks[..i], WriteStep(field, workExpParents, cfg.writeNormRole)).0
        invariant written == FoldCounts(t0, chunks[..i], WriteStep(field, workExpParents, cfg.writeNormRole)).1
        invariant field == CvRole ==> workExpTable == old(workExpTable)
        invariant field != CvRole ==> cvTable == old(cvTable)
        invariant flagStatements == old(flagStatements) && queue == old(queue)
      {
        ghost var before := FieldTable(field);
        var n := WriteNormalizedRoles(field, chunks[i]);
        FoldStep(t0, chunks, i, WriteStep(field, workExpParents, cfg.writeNormRole), before, written, FieldTable(field), n);
        written := written + n;
        i := i + 1;
      }
      assert chunks[..i] == chunks;
    }

    /** The flag loop of one page. */
    method FlagBatches(chunks: seq<seq<Role>>) returns (upserted: nat)
      requires forall k :: 0 <= k < |chunks| ==> chunks[k] != []
      modifies this
      ensures upserted == if cfg.writeFlag then SumOf(chunks, FlagUpserts(cfg)) else 0
      ensures flagStatements == old(flagStatements) + (if cfg.writeFlag then Map(chunks, FlagRows) else [])
      ensures cvTable == old(cvTable) && workExpTable == old(workExpTable) && queue == old(queue)
    {
      upserted := 0;
      var i := 0;
      while i < |chunks|
        invariant 0 <= i <= |chunks|
        invariant upserted == if cfg.writeFlag then SumOf(chunks[..i], FlagUpserts(cfg)) else 0
        invariant flagStatements == old(flagStatements) + (if cfg.writeFlag then Map(chunks[..i], FlagRows) else [])
        invariant cvTable == old(cvTable) && workExpTable == old(workExpTable) && queue == old(queue)
      {
        ghost var sent := flagStatements;
        var n := WriteNormalizedRoleFlags(chunks[i]);
        EmitStep(chunks, i, cfg.writeFlag, cfg.writeFlag, FlagRows, FlagUpserts(cfg), old(flagStatements), sent, upserted, flagStatements, n);
        upserted := upserted + n;
        i := i + 1;
      }
      assert chunks[..i] == chunks;
    }

    /** The enqueue loop of one page. */
    method QueueBatches(field: string, chunks: seq<seq<Role>>) returns (enqueued: nat)
      requires KnownField(field)
      requires forall k :: 0 <= k < |chunks| ==> chunks[k] != []
      modifies this
      ensures enqueued == SumOf(chunks, DistinctUsers)
      ensures queue == old(queue) + (if cfg.enqueueIds then Map(chunks, QueueMessage) else [])
      ensures cvTable == old(cvTable) && workExpTable == old(workExpTable) && flagStatements == old(flagStatements)
    {
      enqueued := 0;
      var i := 0;
      while i < |chunks|
        invariant 0 <= i <= |chunks|
        invariant enqueued == SumOf(chunks[..i], DistinctUsers)
        invariant queue == old(queue) + (if cfg.enqueueIds then Map(chunks[..i], QueueMessage) else [])
        invariant cvTable == old(cvTable) && workExpTable == old(workExpTable) && flagStatements == old(flagStatements)
      {
        ghost var sent := queue;
        var n := EnqueueNormalizedUserIds(field, chunks[i]);
        EmitStep(chunks, i, cfg.enqueueIds, true, QueueMessage, DistinctUsers, old(queue), sent, enqueued, queue, n);
        enqueued := enqueued + n;
        i := i + 1;
      }
      assert chunks[..i] == chunks;
    }

    /**
     * The body of the read loop for one non-empty page: the AB-selected
     * roles are normalized through the API in batches of `apiSize`, and the
     * normalized ones are written and flagged in chunks of `writeSize` and
     * then enqueued in chunks of `queueSize`. A zero queue size raises
     * (`ok` false) after the writes and flags, before anything is enqueued.
     */
    method NormalizePage(field: string, page: seq<Role>, apiSize: nat, writeSize: nat, queueSize: nat)
      returns (ok: bool, toNormalize: nat, normalized: seq<Role>, written: nat, flagged: nat, enqueued: nat)
      requires KnownField(field) && apiSize > 0 && writeSize > 0
      modifies this
      ensures toNormalize == |Filter(page, Selection(cfg))|
      ensures normalized == Flatten(Map(Chunks(Filter(page, Selection(cfg)), apiSize), Normalizer(cfg, field)))
      ensures |normalized| <= toNormalize <= |page|
      ensures (FieldTable(field), written)
           == ApplyWrites(field, old(FieldTable(field)), workExpParents, Chunks(normalized, writeSize), cfg.writeNormRole)
      ensures field == CvRole ==> workExpTable == old(workExpTable)
      ensures field != CvRole ==> cvTable == old(cvTable)
      ensures flagged == if cfg.writeFlag then SumOf(Chunks(normalized, writeSize), FlagUpserts(cfg)) else 0
      ensures flagStatements == old(flagStatements) + (if cfg.writeFlag then Map(Chunks(normalized, writeSize), FlagRows) else [])
      ensures ok <==> queueSize > 0
      ensures !ok ==> queue == old(queue) && enqueued == 0
      ensures ok ==> enqueued == SumOf(Chunks(normalized, queueSize), DistinctUsers)
      ensures ok ==> queue == old(queue) + (if cfg.enqueueIds then Map(Chunks(normalized, queueSize), QueueMessage) else [])
    {
      var apiCalls;
      normalized, apiCalls, toNormalize := ApiBatches(page, apiSize, Selection(cfg), Normalizer(cfg, field));
      FlattenMapShrinks(apiCalls, Normalizer(cfg, field));
      written := WriteBatches(field, Chunks(normalized, writeSize));
      flagged := FlagBatches(Chunks(normalized, writeSize));
      if queueSize == 0 {
        return false, toNormalize, normalized, written, flagged, 0;
      }
      enqueued := QueueBatches(field, Chunks(normalized, queueSize));
      ok := true;
    }

    /**
     * `_normalize_roles`: read pages until the reader is done; for each
     * page, normalize the AB-selected roles through the API in batches and
     * write, flag and enqueue the normalized ones in chunks. An unknown
     * field or a zero read, API or write batch size returns three zeros
     * before any read. A zero queue batch size raises on the first
     * non-empty page, once that page's writes and flags are done.
     * Otherwise the four counts are returned: roles to normalize,
     * normalized, written, and read; every row of every window is read
     * exactly once, and the read connection is closed at the end.
     */
    method NormalizeRoles(field: string, readSize: nat, apiSize: nat, writeSize: nat, queueSize: nat)
      returns (r: Result<seq<nat>>)
      requires Valid() && reader.index == 0 && reader.rerun && !reader.done
      modifies this, reader
      ensures Valid()
      ensures !KnownField(field) || readSize == 0 || apiSize == 0 || writeSize == 0 ==>
        r == Ok([0, 0, 0]) && unchanged(this) && unchanged(reader)
      ensures r.Failure? ==> queueSize == 0
      ensures KnownField(field) && readSize > 0 && apiSize > 0 && writeSize > 0 && r.Ok? ==>
        && |r.value| == 4
        && r.value[1] <= r.value[0] <= r.value[3]
        && r.value[3] == RowsFrom(Results(field), 0)
        && reader.done && !reader.connected
      ensures KnownField(field) && readSize > 0 && apiSize > 0 && writeSize > 0 && queueSize > 0 ==> r.Ok?
    {
      if !KnownField(field) || readSize == 0 || apiSize == 0 || writeSize == 0 {
        return Ok([0, 0, 0]);
      }
      var ok, toNormalize, normalizedCount, written, total := ReadLoop(field, readSize, apiSize, writeSize, queueSize);
      if !ok {
        return Failure("ValueError: range() arg 3 must not be zero");
      }
      r := Ok([toNormalize, normalizedCount, written, total]);
    }

    /** `NormalizePage` seen from the read loop: only the counts it adds up. */
    method PageCounts(field: string, page: seq<Role>, apiSize: nat, writeSize: nat, queueSize: nat)
      returns (ok: bool, toNormalize: nat, normalizedCount: nat, written: nat, flagged: nat, enqueued: nat)
      requires KnownField(field) && apiSize > 0 && writeSize > 0
      modifies this
      ensures normalizedCount <= toNormalize <= |page|
      ensures ok <==> queueSize > 0
    {
      var normalized;
      ok, toNormalize, normalized, written, flagged, enqueued := NormalizePage(field, page, apiSize, writeSize, queueSize);
      normalizedCount := |normalized|;
    }

    /**
     * The read loop of `_normalize_roles`: pages until the reader is done,
     * each normalized, written, flagged and enqueued; `ok` is false when a
     * zero queue batch size raised.
     */
    method ReadLoop(field: string, readSize: nat, apiSize: nat, writeSize: nat, queueSize: nat)
      returns (ok: bool, toNormalize: nat, normalizedCount: nat, written: nat, total: nat)
      requires Valid() && reader.Reading(Results(field)) && reader.RowsRead(Results(field)) == 0 && !reader.done
      requires KnownField(field) && readSize > 0 && apiSize > 0 && writeSize > 0
      modifies this, reader
      ensures Valid()
      ensures !ok ==> queueSize == 0
      ensures queueSize > 0 ==> ok
      ensures ok ==> normalizedCount <= toNormalize <= total && total == RowsFrom(Results(field), 0)
      ensures ok ==> reader.done && !reader.connected
    {
      var flagged: nat, enqueued: nat := 0, 0;
      toNormalize, normalizedCount, written, total := 0, 0, 0, 0;
      while true
        invariant Valid() && reader.Reading(Results(field)) && !reader.done
        invariant total == reader.RowsRead(Results(field))
        invariant normalizedCount <= toNormalize <= total
        decreases reader.Progress(Results(field))
      {
        var roles := GetRolesToNormalize(field, readSize);
        if roles == [] {
          if reader.done {
            reader.Close();
            break;
          }
          continue;
        }
        var pageOk, toNormalizeBatch, normalizedBatch, w, f, q := PageCounts(field, roles, apiSize, writeSize, queueSize);
        if !pageOk {
          return false, toNormalize, normalizedCount, written, total;
        }
        toNormalize := toNormalize + toNormalizeBatch;
        normalizedCount := normalizedCount + normalizedBatch;
        written := written + w;
        flagged := flagged + f;
        total := total + |roles|;
        enqueued := enqueued + q;
      }
      ok := true;
    }

    /**
     * `_role_normalization`: run the routine for `cv` or `work_exp` and
     * unpack its four counts. The three-value early return of
     * `NormalizeRoles` makes the unpacking fail with a ValueError; any
     * other norm type does nothing.
     */
    method RoleNormalization(normType: string, readSize: nat, apiSize: nat, writeSize: nat, queueSize: nat)
      returns (r: Result<seq<nat>>)
      requires Valid() && reader.index == 0 && reader.rerun && !reader.done
      modifies this, reader
      ensures normType != "cv" && normType != "work_exp" ==> r == Ok([]) && unchanged(this) && unchanged(reader)
      ensures (normType == "cv" || normType == "work_exp") && (readSize == 0 || apiSize == 0 || writeSize == 0) ==>
        r == Failure("ValueError: not enough values to unpack (expected 4, got 3)")
      ensures r.Ok? && (normType == "cv" || normType == "work_exp") ==> |r.value| == 4
      ensures (normType == "cv" || normType == "work_exp") && readSize > 0 && apiSize > 0 && writeSize > 0 && queueSize > 0 ==> r.Ok?
    {
      if normType != "cv" && normType != "work_exp" {
        return Ok([]);
      }
      var field := if normType == "cv" then CvRole else WorkExpRole;
      r := NormalizeRoles(field, readSize, apiSize, writeSize, queueSize);
      if r.Ok? && |r.value| != 4 {
        r := Failure("ValueError: not enough values to unpack (expected 4, got 3)");
      }
    }
  }
}
