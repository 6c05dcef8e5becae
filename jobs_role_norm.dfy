/**
 * The jobs role normalization routine: it reads the titles of active jobs
 * that have no valid role id, one weekly date window at a time, sends the
 * jobs in the AB test group to the Role Normalization API in batches,
 * writes the returned role ids to the job role table, flags each written
 * job, and enqueues the affected job ids for re-indexing.
 *
 * The database, the API, the AB test API and the queue are state of
 * `JobsRoutine` or functions of its configuration.
 */
module JobsRoleNorm {
  import opened Wrappers
  import opened Seqs
  import opened DateWindows
  import opened NormBatching
  import RoleTable

  /** A job title, with the role id the API found for it once normalized. */
  datatype Role = Role(jobId: int, role: string, roleId: Option<int>)

  // ---------------------------------------------------------------- windows

  /** The number of date windows the routine reads through. */
  const WindowCount: nat := 24

  /** The date filters, newest first: one per week for the past 24 weeks. */
  function DateFilterSteps(): seq<Window>
  {
    WeeklyWindows(24)
  }

  /** 24 windows, each starting where the previous one ends, from now back to 24 weeks ago. */
  lemma DateFilterStepsShape()
    ensures var ws := DateFilterSteps();
      && |ws| == WindowCount
      && Contiguous(ws)
      && ws[0] == Window(Ago(1, Week), Ago(0, Week))
      && ws[23] == Window(Ago(24, Week), Ago(23, Week))
  {
    WeeklyContiguous(24);
  }

  // ------------------------------------------------------------- read rows

  /** A row of the read query: `vag_id`, `titulo`. */
  datatype Row = Row(vagId: int, titulo: string)

  /** A fetched row as a role with no role id yet; the row is recovered from it. */
  function RoleOfRow(row: Row): (r: Role)
    ensures r.roleId == None
    ensures Row(r.jobId, r.role) == row
  {
    Role(row.vagId, row.titulo, None)
  }

  function RolesOfRows(rows: seq<Row>): (roles: seq<Role>)
    ensures |roles| == |rows|
    ensures forall i :: 0 <= i < |rows| ==> roles[i] == RoleOfRow(rows[i])
  {
    MapIndex(rows, RoleOfRow);
    Map(rows, RoleOfRow)
  }

  // ------------------------------------------------------------- AB test

  /**
   * Whether the AB test API puts `jobId` in `group`. `abApi` stands for the
   * API: `Some(g)` for a 200 reply whose `ab_test_group` renders as `g`,
   * `None` for any other status or a failed call. An empty job id, an empty
   * group or a disabled test answers false without consulting it.
   */
  function IsPartOfAbTestGroup(jobId: int, group: string, enabled: bool, abApi: int -> Option<string>): (r: bool)
    ensures jobId == 0 || group == "" || !enabled ==> !r
    ensures r <==> jobId != 0 && group != "" && enabled && abApi(jobId) == Some(group)
  {
    if jobId == 0 then false
    else if group == "" then false
    else if !enabled then false
    else match abApi(jobId)
      case Some(side) => side == group
      case None => false
  }

  // ------------------------------------------------------------- settings

  /** One `(vag_id, cargo_id)` tuple of the flag upsert. */
  datatype FlagRow = FlagRow(vagId: int, cargoId: int)

  /** One event of a queue message: the job and its new status. */
  datatype QueueEvent = QueueEvent(vagId: int, newStatus: string)

  /**
   * The routine's settings and the outside services it calls: the AB test
   * switch, group and API, the Role Normalization API, the write/flag/queue
   * switches, and the affected-row count of a flag upsert.
   */
  datatype Config = Config(
    abEnabled: bool,
    abGroup: string,
    abApi: int -> Option<string>,
    api: ApiRequest -> ApiReply,
    writeNormRole: bool,
    writeFlag: bool,
    enqueueIds: bool,
    flagUpsert: seq<FlagRow> -> nat)

  /** A role takes part in this run: no AB test, or its job is in the test group. */
  predicate InAbGroup(cfg: Config, r: Role)
  {
    !cfg.abEnabled || IsPartOfAbTestGroup(r.jobId, cfg.abGroup, cfg.abEnabled, cfg.abApi)
  }

  /** The per-role AB filter of the normalization loop. */
  function Selection(cfg: Config): Role -> bool
  {
    r => InAbGroup(cfg, r)
  }

  // ------------------------------------------------------- normalization API

  const Origin: string := "routine_job_role"

  function Titles(roles: seq<Role>): seq<string>
  {
    Map(roles, (r: Role) => r.role)
  }

  function Title(r: Role): string { r.role }

  function WithRoleId(r: Role, id: int): Role { r.(roleId := Some(id)) }

  /**
   * What one call of `_get_normalized_roles` returns: nothing for no roles
   * or a non-200 reply; otherwise the merge of the reply onto the roles.
   */
  function NormalizedRoles(cfg: Config, roles: seq<Role>): (r: seq<Role>)
    ensures |r| <= |roles|
    ensures r != [] ==> cfg.api(ApiRequest(Titles(roles), Origin)).Normalized?
  {
    if roles == [] then []
    else match cfg.api(ApiRequest(Titles(roles), Origin))
      case Failed => []
      case Normalized(body) => Merge(roles, body, Title, WithRoleId)
  }

  /** One API round trip of the normalization loop. */
  function Normalizer(cfg: Config): seq<Role> -> seq<Role>
  {
    c => NormalizedRoles(cfg, c)
  }

  /**
   * The normalized roles are input roles whose title the reply maps to a
   * non-empty list, each with its role id set to that list's first id and
   * every other field unchanged.
   */
  lemma NormalizedRolesMember(cfg: Config, roles: seq<Role>, i: nat)
    requires i < |NormalizedRoles(cfg, roles)|
    ensures var reply := cfg.api(ApiRequest(Titles(roles), Origin));
      && reply.Normalized?
      && exists j :: 0 <= j < |roles| && Matched(reply.roleIds, roles[j].role)
           && NormalizedRoles(cfg, roles)[i] == roles[j].(roleId := Some(reply.roleIds[roles[j].role][0]))
  {
    var body := cfg.api(ApiRequest(Titles(roles), Origin)).roleIds;
    MergeMember(roles, body, Title, WithRoleId, i);
    var x :| x in roles && Matched(body, Title(x))
             && Merge(roles, body, Title, WithRoleId)[i] == WithRoleId(x, body[Title(x)][0]);
    var j :| 0 <= j < |roles| && roles[j] == x;
  }

  /**
   * `_get_normalized_roles`: the guard, one API call with every title in
   * order, and the merge loop over the reply.
   */
  method GetNormalizedRoles(cfg: Config, roles: seq<Role>) returns (normalized: seq<Role>)
    ensures normalized == NormalizedRoles(cfg, roles)
  {
    if roles == [] {
      return [];
    }
    var reply := cfg.api(ApiRequest(Titles(roles), Origin));
    normalized := [];
    if reply.Normalized? {
      normalized := MergeReply(roles, reply.roleIds, Title, WithRoleId);
    }
  }

  // ------------------------------------------------------------- writes

  /** The statements `_write_normalized_roles` composes for one write batch. */
  datatype WriteStatements = WriteStatements(
    insertRows: seq<RoleTable.Entry>,
    caseArms: seq<RoleTable.Entry>,
    inList: seq<int>)

  function WriteEntry(r: Role): RoleTable.Entry
  {
    RoleTable.Entry(r.jobId, r.roleId.GetOr(0))
  }

  function WriteEntries(roles: seq<Role>): seq<RoleTable.Entry>
  {
    Map(roles, WriteEntry)
  }

  /**
   * The insert and update for a write batch: none for an empty batch;
   * otherwise one inserted row and one CASE arm per role, in order, keyed
   * by the job id, and an IN list equal to the keys.
   */
  function ComposeWrite(roles: seq<Role>): (st: Option<WriteStatements>)
    ensures st.None? <==> roles == []
    ensures st.Some? ==>
      && |st.value.insertRows| == |roles|
      && st.value.caseArms == st.value.insertRows
      && st.value.inList == RoleTable.Keys(st.value.caseArms)
    ensures st.Some? ==> forall i :: 0 <= i < |roles| ==>
      st.value.insertRows[i] == RoleTable.Entry(roles[i].jobId, roles[i].roleId.GetOr(0))
  {
    if roles == [] then None
    else
      var rows := WriteEntries(roles);
      MapIndex(roles, WriteEntry);
      Some(WriteStatements(rows, rows, RoleTable.Keys(rows)))
  }

  /**
   * The job role table after one write batch and the written count
   * (inserted plus updated rows): nothing changes and the count is 0 when
   * writing is off or the batch is empty.
   */
  function ApplyWrite(t: RoleTable.Table, roles: seq<Role>, enabled: bool): (r: (RoleTable.Table, nat))
    ensures !enabled || roles == [] ==> r == (t, 0)
  {
    match ComposeWrite(roles)
      case None => (t, 0)
      case Some(st) => RoleTable.WriteBatch(t, st.insertRows, None, enabled)
  }

  /** Writing the same batch twice changes nothing the second time and counts 0. */
  lemma ApplyWriteIdempotent(t: RoleTable.Table, roles: seq<Role>, enabled: bool)
    ensures var (t2, _) := ApplyWrite(t, roles, enabled);
            ApplyWrite(t2, roles, enabled) == (t2, 0)
  {
    match ComposeWrite(roles)
      case None =>
      case Some(st) =>
        RoleTable.WriteBatchIdempotent(t, st.insertRows, None, enabled);
  }

  /**
   * After a batch with distinct job ids is written, each job has a row in
   * the table holding the role's id.
   */
  lemma ApplyWriteRecord(t: RoleTable.Table, roles: seq<Role>, i: nat)
    requires i < |roles|
    requires RoleTable.DistinctKeys(WriteEntries(roles))
    ensures var (t2, _) := ApplyWrite(t, roles, true);
            roles[i].jobId in t2 && t2[roles[i].jobId] == roles[i].roleId.GetOr(0)
  {
    var entries := WriteEntries(roles);
    assert ApplyWrite(t, roles, true).0 == RoleTable.Written(t, entries, None);
    assert entries[i] == WriteEntry(roles[i]);
    RoleTable.WrittenEntry(t, entries, None, i);
    RoleTable.WrittenDistinctKeys(t, entries, None, i);
  }

  /** The write batches of one page applied in order, with the written counts summed. */
  function ApplyWrites(t: RoleTable.Table, chunks: seq<seq<Role>>, enabled: bool): (RoleTable.Table, nat)
  {
    FoldCounts(t, chunks, WriteStep(enabled))
  }

  /** One write batch as a step of the per-page write loop. */
  function WriteStep(enabled: bool): (RoleTable.Table, seq<Role>) -> (RoleTable.Table, nat)
  {
    (t1: RoleTable.Table, c: seq<Role>) => ApplyWrite(t1, c, enabled)
  }

  /** With `WRITE_NORM_ROLE` off, no batch changes the table and every count is 0. */
  lemma ApplyWritesDisabled(t: RoleTable.Table, chunks: seq<seq<Role>>)
    ensures ApplyWrites(t, chunks, false) == (t, 0)
  {
    FoldCountsIdle(t, chunks, WriteStep(false));
  }

  // ------------------------------------------------------------- flags

  /** The upsert values of `_write_normalized_role_flags`: one `(vag_id, cargo_id)` per role, a missing id as 0. */
  function FlagRows(roles: seq<Role>): seq<FlagRow>
  {
    Map(roles, FlagRowOf)
  }

  /** The affected-row count of the flag upsert of one chunk. */
  function FlagUpserts(cfg: Config): seq<Role> -> nat
  {
    c => cfg.flagUpsert(FlagRows(c))
  }

  function FlagRowOf(r: Role): FlagRow
  {
    FlagRow(r.jobId, r.roleId.GetOr(0))
  }

  /** Each flag tuple carries the key and role id of the same role's row in the write statements. */
  lemma FlagRowsMatchWrite(roles: seq<Role>, i: nat)
    requires i < |roles|
    ensures var st := ComposeWrite(roles).value;
            FlagRows(roles)[i] == FlagRow(st.insertRows[i].key, st.insertRows[i].roleId)
  {
    MapIndex(roles, FlagRowOf);
  }

  // ------------------------------------------------------------- queue

  function JobIds(roles: seq<Role>): seq<int>
  {
    Map(roles, (r: Role) => r.jobId)
  }

  function ActiveEvent(id: int): QueueEvent
  {
    QueueEvent(id, "A")
  }

  /** The job ids of a queue message: each job of the batch once (`list(set(...))`). */
  function QueueIds(roles: seq<Role>): (ids: seq<int>)
    ensures NoDuplicates(ids)
    ensures Elements(ids) == Elements(JobIds(roles))
    ensures |ids| == |Elements(JobIds(roles))|
  {
    DistinctCardinality(JobIds(roles));
    Distinct(JobIds(roles))
  }

  /** The `events` of a queue message. */
  function QueueMessage(roles: seq<Role>): seq<QueueEvent>
  {
    Map(QueueIds(roles), ActiveEvent)
  }

  /**
   * The message has one `{vag_id, new_status: 'A'}` event per job of the
   * batch: every event is for a job of the batch, no two are for the same
   * job, and every job of the batch has one.
   */
  lemma QueueMessageEvents(roles: seq<Role>)
    ensures |QueueMessage(roles)| == |Elements(JobIds(roles))|
    ensures forall e :: e in QueueMessage(roles) ==> e.newStatus == "A" && e.vagId in JobIds(roles)
    ensures forall a, b :: 0 <= a < b < |QueueMessage(roles)| ==> QueueMessage(roles)[a].vagId != QueueMessage(roles)[b].vagId
    ensures forall id :: id in JobIds(roles) ==> ActiveEvent(id) in QueueMessage(roles)
  {
    var ids := QueueIds(roles);
    var events := QueueMessage(roles);
    MapIndex(ids, ActiveEvent);
    assert forall i :: 0 <= i < |events| ==> events[i].vagId == ids[i] && ids[i] in Elements(ids);
    forall id | id in JobIds(roles)
      ensures ActiveEvent(id) in events
    {
      assert id in Elements(ids);
      var k :| 0 <= k < |ids| && ids[k] == id;
      assert events[k] == ActiveEvent(id);
    }
  }

  function DistinctJobs(roles: seq<Role>): nat
  {
    |Elements(JobIds(roles))|
  }

  // ------------------------------------------------------------- routine

  /**
   * The routine's state: the date-window reader, what the read query
   * returns under each window, the job role table, and the flag
   * statements and queue messages sent so far.
   */
  class JobsRoutine {
    const cfg: Config
    const reader: WindowReader<Row>
    const results: seq<seq<Row>>
    var jobTable: RoleTable.Table
    var flagStatements: seq<seq<FlagRow>>
    var queue: seq<seq<QueueEvent>>

    ghost predicate Valid()
      reads reader
    {
      reader.Valid() && reader.windowCount == WindowCount && |results| == reader.windowCount
    }

    constructor (cfg: Config, results: seq<seq<Row>>, jobTable: RoleTable.Table)
      requires |results| == WindowCount
      ensures Valid() && fresh(reader)
      ensures reader.windowCount == WindowCount
      ensures reader.index == 0 && reader.rerun && !reader.done
      ensures this.cfg == cfg && this.results == results && this.jobTable == jobTable
      ensures flagStatements == [] && queue == []
    {
      this.cfg := cfg;
      this.results := results;
      this.jobTable := jobTable;
      flagStatements := [];
      queue := [];
      reader := new WindowReader(WindowCount);
    }

    /**
     * `_get_roles_to_normalize`: one page from the reader, as roles. The
     * rows read so far grow by the page, and a non-empty page leaves the
     * done flag as it was.
     */
    method GetRolesToNormalize(size: nat) returns (roles: seq<Role>)
      requires Valid() && reader.Reading(results)
      modifies reader
      ensures Valid() && reader.Reading(results)
      ensures size == 0 ==> roles == [] && unchanged(reader)
      ensures size > 0 && !old(reader.done) ==>
        && reader.RowsRead(results) == old(reader.RowsRead(results)) + |roles|
        && reader.Progress(results) < old(reader.Progress(results))
      ensures roles != [] ==> reader.done == old(reader.done)
      ensures forall i :: 0 <= i < |roles| ==> roles[i].roleId == None
      ensures size > 0 ==>
        var p := if old(reader.rerun) then 0 else old(reader.pos);
        && reader.current == (if old(reader.rerun) then results[old(reader.index)] else old(reader.current))
        && p <= reader.pos <= |reader.current|
        && roles == RolesOfRows(reader.current[p..reader.pos])
    {
      if size == 0 {
        return [];
      }
      var rows := reader.FetchMany(results, size);
      roles := RolesOfRows(rows);
    }

    /** `_write_normalized_roles` on one write batch. */
    method WriteNormalizedRoles(roles: seq<Role>) returns (written: nat)
      modifies this
      ensures (jobTable, written) == ApplyWrite(old(jobTable), roles, cfg.writeNormRole)
      ensures flagStatements == old(flagStatements) && queue == old(queue)
    {
      var (t, n) := ApplyWrite(jobTable, roles, cfg.writeNormRole);
      jobTable := t;
      written := n;
    }

    /** `_write_normalized_role_flags`: one upsert of the batch's flag tuples when flag writing is on. */
    method WriteNormalizedRoleFlags(roles: seq<Role>) returns (upserted: nat)
      modifies this
      ensures roles == [] || !cfg.writeFlag ==> upserted == 0 && flagStatements == old(flagStatements)
      ensures roles != [] && cfg.writeFlag ==>
        upserted == cfg.flagUpsert(FlagRows(roles)) && flagStatements == old(flagStatements) + [FlagRows(roles)]
      ensures jobTable == old(jobTable) && queue == old(queue)
    {
      upserted := 0;
      if roles == [] {
        return;
      }
      var rows := FlagRows(roles);
      if cfg.writeFlag {
        flagStatements := flagStatements + [rows];
        upserted := cfg.flagUpsert(rows);
      }
    }

    /**
     * `_enqueue_normalized_job_ids`: publish one event per distinct job of
     * the batch when enqueueing is on, and return how many there are either
     * way.
     */
    method EnqueueNormalizedJobIds(roles: seq<Role>) returns (count: nat)
      modifies this
      ensures roles == [] ==> count == 0 && queue == old(queue)
      ensures roles != [] ==>
        && count == DistinctJobs(roles)
        && queue == old(queue) + (if cfg.enqueueIds then [QueueMessage(roles)] else [])
      ensures jobTable == old(jobTable) && flagStatements == old(flagStatements)
    {
      if roles == [] {
        return 0;
      }
      var events := QueueMessage(roles);
      count := |events|;
      if cfg.enqueueIds {
        queue := queue + [events];
      }
    }

    /** The write loop of one page: every write batch in order, counts summed. */
    method WriteBatches(chunks: seq<seq<Role>>) returns (written: nat)
      modifies this
      ensures (jobTable, written) == ApplyWrites(old(jobTable), chunks, cfg.writeNormRole)
      ensures flagStatements == old(flagStatements) && queue == old(queue)
    {
      ghost var t0 := jobTable;
      written := 0;
      var i := 0;
      while i < |chunks|
        invariant 0 <= i <= |chunks|
        invariant jobTable == FoldCounts(t0, chunks[..i], WriteStep(cfg.writeNormRole)).0
        invariant written == FoldCounts(t0, chunks[..i], WriteStep(cfg.writeNormRole)).1
        invariant flagStatements == old(flagStatements) && queue == old(queue)
      {
        ghost var before := jobTable;
        var n := WriteNormalizedRoles(chunks[i]);
        FoldStep(t0, chunks, i, WriteStep(cfg.writeNormRole), before, written, jobTable, n);
        written := written + n;
        i := i + 1;
      }
      assert chunks[..i] == chunks;
    }

    /** The flag loop of one page. */
    method FlagBatches(chunks: seq<seq<Role>>) returns (upserted: nat)
      requires forall k :: 0 <= k < |chunks| ==> chunks[k] != []
      modifies this
      ensures upserted == if cfg.writeFlag then SumOf(chunks, FlagUpserts(cfg)) else 0
      ensures flagStatements == old(flagStatements) + (if cfg.writeFlag then Map(chunks, FlagRows) else [])
      ensures jobTable == old(jobTable) && queue == old(queue)
    {
      upserted := 0;
      var i := 0;
      while i < |chunks|
        invariant 0 <= i <= |chunks|
        invariant upserted == if cfg.writeFlag then SumOf(chunks[..i], FlagUpserts(cfg)) else 0
        invariant flagStatements == old(flagStatements) + (if cfg.writeFlag then Map(chunks[..i], FlagRows) else [])
        invariant jobTable == old(jobTable) && queue == old(queue)
      {
        ghost var sent := flagStatements;
        var n := WriteNormalizedRoleFlags(chunks[i]);
        EmitStep(chunks, i, cfg.writeFlag, cfg.writeFlag, FlagRows, FlagUpserts(cfg), old(flagStatements), sent, upserted, flagStatements, n);
        upserted := upserted + n;
        i := i + 1;
      }
      assert chunks[..i] == chunks;
    }

    /** The enqueue loop of one page. */
    method QueueBatches(chunks: seq<seq<Role>>) returns (enqueued: nat)
      requires forall k :: 0 <= k < |chunks| ==> chunks[k] != []
      modifies this
      ensures enqueued == SumOf(chunks, DistinctJobs)
      ensures queue == old(queue) + (if cfg.enqueueIds then Map(chunks, QueueMessage) else [])
      ensures jobTable == old(jobTable) && flagStatements == old(flagStatements)
    {
      enqueued := 0;
      var i := 0;
      while i < |chunks|
        invariant 0 <= i <= |chunks|
        invariant enqueued == SumOf(chunks[..i], DistinctJobs)
        invariant queue == old(queue) + (if cfg.enqueueIds then Map(chunks[..i], QueueMessage) else [])
        invariant jobTable == old(jobTable) && flagStatements == old(flagStatements)
      {
        ghost var sent := queue;
        var n := EnqueueNormalizedJobIds(chunks[i]);
        EmitStep(chunks, i, cfg.enqueueIds, true, QueueMessage, DistinctJobs, old(queue), sent, enqueued, queue, n);
        enqueued := enqueued + n;
        i := i + 1;
      }
      assert chunks[..i] == chunks;
    }

    /**
     * The body of the read loop for one non-empty page: the AB-selected
     * roles are normalized through the API in batches of `apiSize`, and the
     * normalized ones are written and flagged in chunks of `writeSize` and
     * then enqueued in chunks of `queueSize`. A zero queue size raises
     * (`ok` false) after the writes and flags, before anything is enqueued.
     */
    method NormalizePage(page: seq<Role>, apiSize: nat, writeSize: nat, queueSize: nat)
      returns (ok: bool, toNormalize: nat, normalized: seq<Role>, written: nat, flagged: nat, enqueued: nat)
      requires apiSize > 0 && writeSize > 0
      modifies this
      ensures toNormalize == |Filter(page, Selection(cfg))|
      ensures normalized == Flatten(Map(Chunks(Filter(page, Selection(cfg)), apiSize), Normalizer(cfg)))
      ensures |normalized| <= toNormalize <= |page|
      ensures (jobTable, written) == ApplyWrites(old(jobTable), Chunks(normalized, writeSize), cfg.writeNormRole)
      ensures flagged == if cfg.writeFlag then SumOf(Chunks(normalized, writeSize), FlagUpserts(cfg)) else 0
      ensures flagStatements == old(flagStatements) + (if cfg.writeFlag then Map(Chunks(normalized, writeSize), FlagRows) else [])
      ensures ok <==> queueSize > 0
      ensures !ok ==> queue == old(queue) && enqueued == 0
      ensures ok ==> enqueued == SumOf(Chunks(normalized, queueSize), DistinctJobs)
      ensures ok ==> queue == old(queue) + (if cfg.enqueueIds then Map(Chunks(normalized, queueSize), QueueMessage) else [])
    {
      var apiCalls;
      normalized, apiCalls, toNormalize := ApiBatches(page, apiSize, Selection(cfg), Normalizer(cfg));
      FlattenMapShrinks(apiCalls, Normalizer(cfg));
      written := WriteBatches(Chunks(normalized, writeSize));
      flagged := FlagBatches(Chunks(normalized, writeSize));
      if queueSize == 0 {
        return false, toNormalize, normalized, written, flagged, 0;
      }
      enqueued := QueueBatches(Chunks(normalized, queueSize));
      ok := true;
    }

    /**
     * `_normalize_roles`: read pages until the reader is done; for each
     * page, normalize the AB-selected roles through the API in batches and
     * write, flag and enqueue the normalized ones in chunks. A zero read,
     * API or write batch size returns three zeros before any read. A zero
     * queue batch size raises on the first non-empty page, once that page's
     * writes and flags are done. Otherwise the four counts are returned:
     * roles to normalize, normalized, written, and read; every row of every
     * window is read exactly once, and the read connection is closed at the
     * end.
     */
    method NormalizeRoles(readSize: nat, apiSize: nat, writeSize: nat, queueSize: nat)
      returns (r: Result<seq<nat>>)
      requires Valid() && reader.index == 0 && reader.rerun && !reader.done
      modifies this, reader
      ensures Valid()
      ensures readSize == 0 || apiSize == 0 || writeSize == 0 ==>
        r == Ok([0, 0, 0]) && unchanged(this) && unchanged(reader)
      ensures r.Failure? ==> queueSize == 0
      ensures readSize > 0 && apiSize > 0 && writeSize > 0 && r.Ok? ==>
        && |r.value| == 4
        && r.value[1] <= r.value[0] <= r.value[3]
        && r.value[3] == RowsFrom(results, 0)
        && reader.done && !reader.connected
      ensures readSize > 0 && apiSize > 0 && writeSize > 0 && queueSize > 0 ==> r.Ok?
    {
      if readSize == 0 || apiSize == 0 || writeSize == 0 {
        return Ok([0, 0, 0]);
      }
      var ok, toNormalize, normalizedCount, written, total := ReadLoop(readSize, apiSize, writeSize, queueSize);
      if !ok {
        return Failure("ValueError: range() arg 3 must not be zero");
      }
      r := Ok([toNormalize, normalizedCount, written, total]);
    }

    /** `NormalizePage` seen from the read loop: only the counts it adds up. */
    method PageCounts(page: seq<Role>, apiSize: nat, writeSize: nat, queueSize: nat)
      returns (ok: bool, toNormalize: nat, normalizedCount: nat, written: nat, flagged: nat, enqueued: nat)
      requires apiSize > 0 && writeSize > 0
      modifies this
      ensures normalizedCount <= toNormalize <= |page|
      ensures ok <==> queueSize > 0
    {
      var normalized;
      ok, toNormalize, normalized, written, flagged, enqueued := NormalizePage(page, apiSize, writeSize, queueSize);
      normalizedCount := |normalized|;
    }

    /**
     * The read loop of `_normalize_roles`: pages until the reader is done,
     * each normalized, written, flagged and enqueued; `ok` is false when a
     * zero queue batch size raised.
     */
    method ReadLoop(readSize: nat, apiSize: nat, writeSize: nat, queueSize: nat)
      returns (ok: bool, toNormalize: nat, normalizedCount: nat, written: nat, total: nat)
      requires Valid() && reader.Reading(results) && reader.RowsRead(results) == 0 && !reader.done
      requires readSize > 0 && apiSize > 0 && writeSize > 0
      modifies this, reader
      ensures Valid()
      ensures !ok ==> queueSize == 0
      ensures queueSize > 0 ==> ok
      ensures ok ==> normalizedCount <= toNormalize <= total && total == RowsFrom(results, 0)
      ensures ok ==> reader.done && !reader.connected
    {
      var flagged: nat, enqueued: nat := 0, 0;
      toNormalize, normalizedCount, written, total := 0, 0, 0, 0;
      while true
        invariant Valid() && reader.Reading(results) && !reader.done
        invariant total == reader.RowsRead(results)
        invariant normalizedCount <= toNormalize <= total
        decreases reader.Progress(results)
      {
        var roles := GetRolesToNormalize(readSize);
        if roles == [] {
          if reader.done {
            reader.Close();
            break;
          }
          continue;
        }
        var pageOk, toNormalizeBatch, normalizedBatch, w, f, q := PageCounts(roles, apiSize, writeSize, queueSize);
        if !pageOk {
          return false, toNormalize, normalizedCount, written, total;
        }
        toNormalize := toNormalize + toNormalizeBatch;
        normalizedCount := normalizedCount + normalizedBatch;
        written := written + w;
        flagged := flagged + f;
        total := total + |roles|;
        enqueued := enqueued + q;
      }
      ok := true;
    }

    /**
     * `_role_normalization`: run the routine and unpack its four counts. The
     * three-value early return of `NormalizeRoles` makes the unpacking fail
     * with a ValueError.
     */
    method RoleNormalization(readSize: nat, apiSize: nat, writeSize: nat, queueSize: nat)
      returns (r: Result<seq<nat>>)
      requires Valid() && reader.index == 0 && reader.rerun && !reader.done
      modifies this, reader
      ensures readSize == 0 || apiSize == 0 || writeSize == 0 ==>
        r == Failure("ValueError: not enough values to unpack (expected 4, got 3)")
      ensures r.Ok? ==> |r.value| == 4
      ensures readSize > 0 && apiSize > 0 && writeSize > 0 && queueSize > 0 ==> r.Ok?
    {
      r := NormalizeRoles(readSize, apiSize, writeSize, queueSize);
      if r.Ok? && |r.value| != 4 {
        r := Failure("ValueError: not enough values to unpack (expected 4, got 3)");
      }
    }
  }
}
