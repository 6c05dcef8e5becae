/**
 * The role tables the routines write to, as maps from a record key
 * (`cur_id`, `curexpprof_id` or `vag_id`) to its `cargo_id`, and the effect
 * and affected-row count of the three statement shapes executed on them:
 *
 *   INSERT INTO t (key, cargo_id) SELECT ... FROM (<rows>) AS d
 *     WHERE [EXISTS (parent row)] AND NOT EXISTS (row of t with d's key)
 *   UPDATE IGNORE t SET cargo_id = (CASE key WHEN k THEN v ... END)
 *     WHERE key IN (<keys>)
 *   UPDATE IGNORE t SET cargo_id = 0 WHERE key IN (<keys>)
 *
 * Each statement is defined row by row (`Insert`, `Update`, `Zero`), and
 * lemmas relate the outcome to the sets of keys it adds or changes: a CASE
 * takes its first matching arm, each key has at most one record, and the
 * count is the number of rows inserted or actually changed (the driver's
 * default).
 */
module RoleTable {
  import opened Wrappers
  import opened Seqs

  type Table = map<int, int>

  /** One `SELECT key, cargo_id` row of an insert, or one `WHEN key THEN cargo_id` arm. */
  datatype Entry = Entry(key: int, roleId: int)

  function Keys(entries: seq<Entry>): (ks: seq<int>)
    ensures |ks| == |entries|
    ensures forall i :: 0 <= i < |entries| ==> ks[i] == entries[i].key
  {
    if entries == [] then [] else Keys(entries[..|entries| - 1]) + [entries[|entries| - 1].key]
  }

  /** No two entries share a key (the read queries select distinct records). */
  predicate DistinctKeys(entries: seq<Entry>)
  {
    forall a, b :: 0 <= a < b < |entries| ==> entries[a].key != entries[b].key
  }

  /** The value of `CASE key WHEN .. THEN .. END` for `key`: its first matching arm. */
  function CaseValue(arms: seq<Entry>, key: int): (r: Option<int>)
    ensures r.Some? <==> key in Keys(arms)
  {
    if arms == [] then None
    else
      var prev := CaseValue(arms[..|arms| - 1], key);
      assert Keys(arms) == Keys(arms[..|arms| - 1]) + [arms[|arms| - 1].key];
      if prev.Some? then prev
      else if arms[|arms| - 1].key == key then Some(arms[|arms| - 1].roleId)
      else None
  }

  /** The arm that supplies a key's CASE value is its first one. */
  lemma {:induction false} CaseValueFirstArm(arms: seq<Entry>, i: nat)
    requires i < |arms|
    requires forall j :: 0 <= j < i ==> arms[j].key != arms[i].key
    ensures CaseValue(arms, arms[i].key) == Some(arms[i].roleId)
  {
    var front := arms[..|arms| - 1];
    if i < |arms| - 1 {
      assert front[i] == arms[i];
      CaseValueFirstArm(front, i);
    } else {
      assert arms[i].key !in Keys(front);
    }
  }

  /** Whether the parent condition of an insert admits `key` (`None`: no parent condition). */
  predicate ParentAllows(parents: Option<set<int>>, key: int)
  {
    parents.None? || key in parents.value
  }

  // ------------------------------------------------------------- insert

  /**
   * The INSERT ... SELECT ... WHERE NOT EXISTS, row by row: a row whose key
   * has no record yet and that the parent condition admits is inserted; the
   * count is the number of rows inserted.
   */
  function Insert(t: Table, rows: seq<Entry>, parents: Option<set<int>>): (Table, nat)
  {
    if rows == [] then (t, 0)
    else
      var prev := Insert(t, rows[..|rows| - 1], parents);
      var e := rows[|rows| - 1];
      if e.key in prev.0 || !ParentAllows(parents, e.key) then prev
      else (prev.0[e.key := e.roleId], prev.1 + 1)
  }

  /** The keys the insert adds: those of its rows with no record that the parent condition admits. */
  function NewKeys(t: Table, rows: seq<Entry>, parents: Option<set<int>>): set<int>
  {
    set k | k in Keys(rows) && k !in t && ParentAllows(parents, k)
  }

  /**
   * After the insert, a key has a record iff it had one or is one of the
   * keys added; records that existed keep their role id, and an added key
   * holds the role id of its first row.
   */
  lemma {:induction false} InsertRecord(t: Table, rows: seq<Entry>, parents: Option<set<int>>, k: int)
    ensures k in Insert(t, rows, parents).0 <==> k in t || k in NewKeys(t, rows, parents)
    ensures k in t ==> Insert(t, rows, parents).0[k] == t[k]
    ensures k in NewKeys(t, rows, parents) ==> Some(Insert(t, rows, parents).0[k]) == CaseValue(rows, k)
  {
    if rows != [] {
      var front := rows[..|rows| - 1];
      InsertRecord(t, front, parents, k);
      assert Keys(rows) == Keys(front) + [rows[|rows| - 1].key];
    }
  }

  /** The insert's count is the number of keys it adds. */
  lemma {:induction false} InsertCount(t: Table, rows: seq<Entry>, parents: Option<set<int>>)
    ensures Insert(t, rows, parents).1 == |NewKeys(t, rows, parents)|
  {
    if rows != [] {
      var front := rows[..|rows| - 1];
      var e := rows[|rows| - 1];
      InsertCount(t, front, parents);
      InsertRecord(t, front, parents, e.key);
      NewKeysSnoc(t, rows, parents);
    }
  }

  /** The keys added by all rows: those added by the rows before the last, and the last row's key if it is admitted. */
  lemma NewKeysSnoc(t: Table, rows: seq<Entry>, parents: Option<set<int>>)
    requires rows != []
    ensures var e := rows[|rows| - 1];
      NewKeys(t, rows, parents)
      == NewKeys(t, rows[..|rows| - 1], parents) + (if e.key !in t && ParentAllows(parents, e.key) then {e.key} else {})
  {
    assert Keys(rows) == Keys(rows[..|rows| - 1]) + [rows[|rows| - 1].key];
  }

  // ------------------------------------------------------------- update

  /**
   * The CASE update over `arms` with the IN list of their keys, arm by arm:
   * a key with a record takes the role id of its first arm; the count is
   * the number of records whose role id changes.
   */
  function Update(t: Table, arms: seq<Entry>): (Table, nat)
  {
    if arms == [] then (t, 0)
    else
      var front := arms[..|arms| - 1];
      var prev := Update(t, front);
      var e := arms[|arms| - 1];
      if e.key !in t || e.key in Keys(front) || t[e.key] == e.roleId then prev
      else (prev.0[e.key := e.roleId], prev.1 + 1)
  }

  /** The records the CASE update changes. */
  function ChangedKeys(t: Table, arms: seq<Entry>): set<int>
  {
    set k | k in t && CaseValue(arms, k).Some? && CaseValue(arms, k).value != t[k]
  }

  /** After the update the same keys have records, each holding its first arm's role id if it has an arm. */
  lemma {:induction false} UpdateRecord(t: Table, arms: seq<Entry>, k: int)
    ensures k in Update(t, arms).0 <==> k in t
    ensures k in t ==> Update(t, arms).0[k] == CaseValue(arms, k).GetOr(t[k])
  {
    if arms != [] {
      var front := arms[..|arms| - 1];
      UpdateRecord(t, front, k);
    }
  }

  /** The update's count is the number of records it changes. */
  lemma {:induction false} UpdateCount(t: Table, arms: seq<Entry>)
    ensures Update(t, arms).1 == |ChangedKeys(t, arms)|
  {
    if arms != [] {
      var front := arms[..|arms| - 1];
      var e := arms[|arms| - 1];
      UpdateCount(t, front);
      if e.key !in t || e.key in Keys(front) || t[e.key] == e.roleId {
        assert ChangedKeys(t, arms) == ChangedKeys(t, front);
      } else {
        assert ChangedKeys(t, arms) == ChangedKeys(t, front) + {e.key};
      }
    }
  }

  // ------------------------------------------------------------- write batch

  /**
   * The insert followed by the update of one write batch: the new table and
   * the written count (rows inserted plus rows changed). When writing is
   * switched off neither statement runs and the count is 0.
   */
  function WriteBatch(t: Table, entries: seq<Entry>, parents: Option<set<int>>, enabled: bool): (Table, nat)
  {
    if !enabled then (t, 0)
    else
      var inserted := Insert(t, entries, parents);
      var updated := Update(inserted.0, entries);
      (updated.0, inserted.1 + updated.1)
  }

  /** The table after one write batch with writing switched on. */
  function Written(t: Table, entries: seq<Entry>, parents: Option<set<int>>): Table
  {
    Update(Insert(t, entries, parents).0, entries).0
  }

  /**
   * The written count is the number of keys inserted plus the number of
   * records (old or new) whose role id the update changes.
   */
  lemma WriteBatchCount(t: Table, entries: seq<Entry>, parents: Option<set<int>>)
    ensures WriteBatch(t, entries, parents, true).0 == Written(t, entries, parents)
    ensures WriteBatch(t, entries, parents, true).1
         == |NewKeys(t, entries, parents)| + |ChangedKeys(Insert(t, entries, parents).0, entries)|
  {
    InsertCount(t, entries, parents);
    UpdateCount(Insert(t, entries, parents).0, entries);
  }

  /**
   * After a batch is written, a key of the batch that already existed, or
   * that the insert admits, maps to the role id of its first entry.
   */
  lemma WrittenEntry(t: Table, entries: seq<Entry>, parents: Option<set<int>>, i: nat)
    requires i < |entries|
    requires entries[i].key in t || ParentAllows(parents, entries[i].key)
    ensures entries[i].key in Written(t, entries, parents)
    ensures Some(Written(t, entries, parents)[entries[i].key]) == CaseValue(entries, entries[i].key)
  {
    var k := entries[i].key;
    assert Keys(entries)[i] == k;
    InsertRecord(t, entries, parents, k);
    UpdateRecord(Insert(t, entries, parents).0, entries, k);
  }

  /** A key outside the batch is neither added nor changed. */
  lemma WrittenOther(t: Table, entries: seq<Entry>, parents: Option<set<int>>, k: int)
    requires k !in Keys(entries)
    ensures k in Written(t, entries, parents) <==> k in t
    ensures k in t ==> Written(t, entries, parents)[k] == t[k]
  {
    InsertRecord(t, entries, parents, k);
    UpdateRecord(Insert(t, entries, parents).0, entries, k);
  }

  /** With distinct keys, each record's key ends up holding that record's role id. */
  lemma WrittenDistinctKeys(t: Table, entries: seq<Entry>, parents: Option<set<int>>, i: nat)
    requires DistinctKeys(entries)
    requires i < |entries|
    requires entries[i].key in t || ParentAllows(parents, entries[i].key)
    ensures entries[i].key in Written(t, entries, parents)
    ensures Written(t, entries, parents)[entries[i].key] == entries[i].roleId
  {
    CaseValueFirstArm(entries, i);
    WrittenEntry(t, entries, parents, i);
  }

  /** An insert that finds a record for every admitted key does nothing. */
  lemma {:induction false} InsertNothingNew(t: Table, rows: seq<Entry>, parents: Option<set<int>>)
    requires NewKeys(t, rows, parents) == {}
    ensures Insert(t, rows, parents) == (t, 0)
  {
    if rows != [] {
      var front := rows[..|rows| - 1];
      var e := rows[|rows| - 1];
      assert Keys(rows) == Keys(front) + [e.key];
      assert NewKeys(t, front, parents) <= NewKeys(t, rows, parents);
      InsertNothingNew(t, front, parents);
      assert e.key !in NewKeys(t, rows, parents);
    }
  }

  /** A record the first arms change is still changed once more arms follow: the first arm of a key wins. */
  lemma ChangedKeysPrefix(t: Table, arms: seq<Entry>)
    requires arms != []
    ensures ChangedKeys(t, arms[..|arms| - 1]) <= ChangedKeys(t, arms)
  {
    var front := arms[..|arms| - 1];
    forall k | k in ChangedKeys(t, front)
      ensures k in ChangedKeys(t, arms)
    {
      assert CaseValue(arms, k) == CaseValue(front, k);
    }
  }

  /** An update that would change no record does nothing. */
  lemma {:induction false} UpdateNothingChanged(t: Table, arms: seq<Entry>)
    requires ChangedKeys(t, arms) == {}
    ensures Update(t, arms) == (t, 0)
  {
    if arms != [] {
      var front := arms[..|arms| - 1];
      var e := arms[|arms| - 1];
      ChangedKeysPrefix(t, arms);
      UpdateNothingChanged(t, front);
      if e.key in t && e.key !in Keys(front) {
        assert CaseValue(arms, e.key) == Some(e.roleId);
        assert e.key !in ChangedKeys(t, arms);
      }
    }
  }

  /** After writing, the insert finds nothing left to add. */
  lemma WrittenNoNewKeys(t: Table, entries: seq<Entry>, parents: Option<set<int>>)
    ensures NewKeys(Written(t, entries, parents), entries, parents) == {}
  {
    var t2 := Written(t, entries, parents);
    forall k | k in Keys(entries) && ParentAllows(parents, k)
      ensures k in t2
    {
      var i :| 0 <= i < |entries| && Keys(entries)[i] == k;
      WrittenEntry(t, entries, parents, i);
    }
  }

  /** After writing, the update finds nothing left to change. */
  lemma WrittenNoChangedKeys(t: Table, entries: seq<Entry>, parents: Option<set<int>>)
    ensures ChangedKeys(Written(t, entries, parents), entries) == {}
  {
    var t1 := Insert(t, entries, parents).0;
    var t2 := Written(t, entries, parents);
    forall k | k in t2 && CaseValue(entries, k).Some?
      ensures CaseValue(entries, k).value == t2[k]
    {
      UpdateRecord(t1, entries, k);
    }
  }

  /**
   * Re-applying the same batch leaves the table unchanged and reports zero
   * rows written: the routine can be re-run over records it already wrote.
   */
  lemma WriteBatchIdempotent(t: Table, entries: seq<Entry>, parents: Option<set<int>>, enabled: bool)
    ensures var (t2, _) := WriteBatch(t, entries, parents, enabled);
      WriteBatch(t2, entries, parents, enabled) == (t2, 0)
  {
    if enabled {
      var t2 := Written(t, entries, parents);
      WrittenNoNewKeys(t, entries, parents);
      InsertNothingNew(t2, entries, parents);
      WrittenNoChangedKeys(t, entries, parents);
      UpdateNothingChanged(t2, entries);
    }
  }

  // ------------------------------------------------------------- rollback

  /**
   * `UPDATE IGNORE t SET cargo_id = 0 WHERE key IN (ids)`, id by id: the new
   * table and the number of records whose role id changes.
   */
  function Zero(t: Table, ids: seq<int>): (Table, nat)
  {
    if ids == [] then (t, 0)
    else
      var prev := Zero(t, ids[..|ids| - 1]);
      var k := ids[|ids| - 1];
      if k !in prev.0 || prev.0[k] == 0 then prev
      else (prev.0[k := 0], prev.1 + 1)
  }

  /** The records that statement changes: listed, present, and not already 0. */
  function ZeroedKeys(t: Table, ids: seq<int>): set<int>
  {
    set k | k in t && k in ids && t[k] != 0
  }

  /** After the statement the same keys have records; the listed ones hold 0, the others are unchanged. */
  lemma {:induction false} ZeroRecord(t: Table, ids: seq<int>, k: int)
    ensures k in Zero(t, ids).0 <==> k in t
    ensures k in t ==> Zero(t, ids).0[k] == if k in ids then 0 else t[k]
  {
    if ids != [] {
      var front := ids[..|ids| - 1];
      ZeroRecord(t, front, k);
      assert ids == front + [ids[|ids| - 1]];
    }
  }

  /** The statement's count is the number of records it changes. */
  lemma {:induction false} ZeroCount(t: Table, ids: seq<int>)
    ensures Zero(t, ids).1 == |ZeroedKeys(t, ids)|
  {
    if ids != [] {
      var front := ids[..|ids| - 1];
      var k := ids[|ids| - 1];
      ZeroCount(t, front);
      ZeroRecord(t, front, k);
      assert ids == front + [k];
      if k !in Zero(t, front).0 || Zero(t, front).0[k] == 0 {
        assert ZeroedKeys(t, ids) == ZeroedKeys(t, front);
      } else {
        assert ZeroedKeys(t, ids) == ZeroedKeys(t, front) + {k};
      }
    }
  }

  /** Rolling back the same ids twice changes nothing the second time. */
  lemma ZeroIdempotent(t: Table, ids: seq<int>)
    ensures var t2 := Zero(t, ids).0;
      Zero(t2, ids) == (t2, 0)
  {
    var t2 := Zero(t, ids).0;
    forall k | k in t2 && k in ids
      ensures t2[k] == 0
    {
      ZeroRecord(t, ids, k);
    }
    assert ZeroedKeys(t2, ids) == {};
    ZeroCount(t2, ids);
    ZeroNothingChanged(t2, ids);
  }

  lemma {:induction false} ZeroNothingChanged(t: Table, ids: seq<int>)
    requires ZeroedKeys(t, ids) == {}
    ensures Zero(t, ids) == (t, 0)
  {
    if ids != [] {
      var front := ids[..|ids| - 1];
      assert ids == front + [ids[|ids| - 1]];
      assert ZeroedKeys(t, front) <= ZeroedKeys(t, ids);
      ZeroNothingChanged(t, front);
      assert ids[|ids| - 1] !in ZeroedKeys(t, ids);
    }
  }

  /** Rolling back `a` and then `b` leaves the table rolling back `a + b` at once leaves. */
  lemma ZeroAppend(t: Table, a: seq<int>, b: seq<int>)
    ensures Zero(Zero(t, a).0, b).0 == Zero(t, a + b).0
  {
    var t1 := Zero(t, a).0;
    var lhs := Zero(t1, b).0;
    var rhs := Zero(t, a + b).0;
    forall k
      ensures k in lhs <==> k in rhs
      ensures k in lhs ==> lhs[k] == rhs[k]
    {
      ZeroRecord(t, a, k);
      ZeroRecord(t1, b, k);
      ZeroRecord(t, a + b, k);
    }
  }

  /**
   * The records a combined statement changes are those the first part
   * changes plus those the second part then still changes, so the counts
   * of consecutive statements add up to the count of the combined one.
   */
  lemma ZeroCountAppend(t: Table, a: seq<int>, b: seq<int>)
    ensures Zero(t, a + b).1 == Zero(t, a).1 + Zero(Zero(t, a).0, b).1
  {
    var t1 := Zero(t, a).0;
    forall k | k in t
      ensures k in t1 && t1[k] == if k in a then 0 else t[k]
    {
      ZeroRecord(t, a, k);
    }
    forall k | k in t1
      ensures k in t
    {
      ZeroRecord(t, a, k);
    }
    assert ZeroedKeys(t, a + b) == ZeroedKeys(t, a) + ZeroedKeys(t1, b);
    assert ZeroedKeys(t, a) * ZeroedKeys(t1, b) == {};
    ZeroCount(t, a + b);
    ZeroCount(t, a);
    ZeroCount(t1, b);
  }
}
