/**
 * Role inference from apply and contact events: a user's role is the role
 * most often held by the jobs they applied to, and a job's role the role
 * most often held by the users who applied to it.
 *
 * The databases and the events API are outside the model: `Sources` holds,
 * for each query, the rows or the decoded response it yields for the ids it
 * is asked about. Python keeps ints and strs apart as dictionary keys; the
 * model keeps them apart with `Key`, which is what decides the contact path
 * of `normalize_job_ids` (see `ContactPathFindsNothing`).
 */
module RoleNormalizerEvents {
  import opened Wrappers
  import opened Seqs
  import opened Text
  import opened OrderedDicts

  /** A Python dictionary key that is an id: an int, or the str of one. */
  datatype Key = IntKey(n: int) | StrKey(s: string)

  /** A role row `(id, cargo_id)`; `cargo_id` is NULL (`None`) on a missing join. */
  type RoleRow = (int, Option<int>)

  /** A contact row `(vag_id, usr_id)`. */
  type ContactRow = (int, int)

  /** One apply event of the events API; its ids are JSON strings. */
  datatype Apply = Apply(jobId: string, userId: string)

  /** The object the events API returns per id; `applies` may be absent. */
  datatype Entry = Entry(applies: Option<seq<Apply>>)

  /**
   * What the events helpers return: the decoded JSON object, id by id in
   * response order, or the empty list they fall back to for no ids or a
   * status other than 200.
   */
  datatype ApiResponse = Events(entries: OrderedDict<string, Entry>) | EmptyList

  /**
   * The outside world: the rows each query returns for the ids (as the
   * strings it joins into its `IN (...)` list) and the events API's answer
   * for the ids it is sent.
   */
  datatype Sources = Sources(
    contactRows: seq<string> -> seq<ContactRow>,
    jobRoleRows: seq<string> -> seq<RoleRow>,
    usrRoleRows: seq<string> -> seq<RoleRow>,
    usrApplies: seq<int> -> ApiResponse,
    jobApplies: seq<int> -> ApiResponse)

  const KeysError := "AttributeError: 'list' object has no attribute 'keys'"

  // ---------------------------------------------------------------------
  // DbConnection.fetch_all
  // ---------------------------------------------------------------------

  /**
   * Runs a query, retrying on failure: `attempt(t)` is the outcome of the
   * `t`-th execution. Returns the first success, or re-raises the third
   * failure; `tries` is the number of executions.
   */
  method FetchAll<T>(attempt: nat -> Result<T>) returns (r: Result<T>, tries: nat)
    ensures 1 <= tries <= 3
    ensures r == attempt(tries - 1)
    ensures forall t :: 0 <= t < tries - 1 ==> attempt(t).Failure?
    ensures r.Failure? ==> tries == 3
  {
    var attempts := 3;
    tries := 0;
    while attempts > 0
      invariant 1 <= attempts <= 3 && tries == 3 - attempts
      invariant forall t :: 0 <= t < tries ==> attempt(t).Failure?
      decreases attempts
    {
      attempts := attempts - 1;
      var outcome := attempt(tries);
      tries := tries + 1;
      if outcome.Ok? {
        return outcome, tries;
      }
      if attempts < 1 {
        return outcome, tries;
      }
    }
    assert false;
  }

  // ---------------------------------------------------------------------
  // _most_frequent
  // ---------------------------------------------------------------------

  /** A role `_most_frequent` counts: neither `None` nor 0. */
  predicate Counted(x: Option<int>)
  {
    x.Some? && x.value != 0
  }

  /** The `(counter, num)` pair of `_most_frequent` once it has seen `roles[..k]`. */
  function Tally(roles: seq<Option<int>>, k: nat): (nat, int)
    requires k <= |roles|
  {
    if k == 0 then (0, 0)
    else
      var t := Tally(roles, k - 1);
      var x := roles[k - 1];
      if Counted(x) && Count(roles, x) > t.0 then (Count(roles, x), x.value) else t
  }

  function MostFrequentOf(roles: seq<Option<int>>): int
  {
    if roles == [] then 0 else Tally(roles, |roles|).1
  }

  /**
   * `m` is the earliest most frequent counted role of `roles`, or 0 when no
   * role counts.
   */
  ghost predicate IsEarliestMode(roles: seq<Option<int>>, m: int)
  {
    && (m == 0 <==> forall j :: 0 <= j < |roles| ==> !Counted(roles[j]))
    && (m != 0 ==> Some(m) in roles)
    && (m != 0 ==> forall j :: 0 <= j < |roles| && Counted(roles[j]) ==> Count(roles, roles[j]) <= Count(roles, Some(m)))
    && (m != 0 ==> forall j :: 0 <= j < |roles| && Counted(roles[j]) && Count(roles, roles[j]) == Count(roles, Some(m))
                      ==> Some(m) in roles[..j + 1])
  }

  /** What the loop of `_most_frequent` knows of its chosen role after `roles[..k]`. */
  ghost predicate TallyChosen(roles: seq<Option<int>>, k: nat, counter: nat, num: int)
    requires k <= |roles|
  {
    && (num == 0 ==> counter == 0)
    && (num != 0 ==> Some(num) in roles[..k] && counter == Count(roles, Some(num)))
    && (num == 0 <==> forall j :: 0 <= j < k ==> !Counted(roles[j]))
  }

  /** No counted role among `roles[..k]` occurs more often than the loop's counter. */
  ghost predicate TallyBounds(roles: seq<Option<int>>, k: nat, counter: nat)
    requires k <= |roles|
  {
    forall j :: 0 <= j < k && Counted(roles[j]) ==> Count(roles, roles[j]) <= counter
  }

  /** A role among `roles[..k]` as frequent as the chosen one comes no earlier than it. */
  ghost predicate TallyFirst(roles: seq<Option<int>>, k: nat, counter: nat, num: int)
    requires k <= |roles|
  {
    forall j :: 0 <= j < k && Counted(roles[j]) && Count(roles, roles[j]) == counter ==> Some(num) in roles[..j + 1]
  }

  lemma {:induction false} TallyChosenInvariant(roles: seq<Option<int>>, k: nat)
    requires k <= |roles|
    ensures TallyChosen(roles, k, Tally(roles, k).0, Tally(roles, k).1)
  {
    if k > 0 {
      TallyChosenInvariant(roles, k - 1);
      assert roles[..k] == roles[..k - 1] + [roles[k - 1]];
    }
  }

  lemma {:induction false} TallyBoundsInvariant(roles: seq<Option<int>>, k: nat)
    requires k <= |roles|
    ensures TallyBounds(roles, k, Tally(roles, k).0)
  {
    if k > 0 {
      TallyBoundsInvariant(roles, k - 1);
      var t := Tally(roles, k - 1);
      assert Tally(roles, k).0 >= t.0;
    }
  }

  /** A tie before the last position keeps the earlier choice. */
  lemma TallyFirstEarlier(roles: seq<Option<int>>, k: nat, j: nat)
    requires 0 < k <= |roles| && j < k - 1
    requires Count(roles, roles[j]) == Tally(roles, k).0
    requires Count(roles, roles[j]) <= Tally(roles, k - 1).0
    requires Count(roles, roles[j]) == Tally(roles, k - 1).0 ==> Some(Tally(roles, k - 1).1) in roles[..j + 1]
    ensures Some(Tally(roles, k).1) in roles[..j + 1]
  {
  }

  /** A tie at the last position is the role just chosen or an earlier one. */
  lemma TallyFirstLast(roles: seq<Option<int>>, k: nat)
    requires 0 < k <= |roles|
    requires Counted(roles[k - 1]) && Count(roles, roles[k - 1]) == Tally(roles, k).0
    requires TallyChosen(roles, k - 1, Tally(roles, k - 1).0, Tally(roles, k - 1).1)
    ensures Some(Tally(roles, k).1) in roles[..k]
  {
    var x := roles[k - 1];
    assert x in roles;
    assert roles[..k] == roles[..k - 1] + [x];
  }

  lemma {:induction false} TallyFirstInvariant(roles: seq<Option<int>>, k: nat)
    requires k <= |roles|
    ensures TallyFirst(roles, k, Tally(roles, k).0, Tally(roles, k).1)
  {
    if k > 0 {
      TallyFirstInvariant(roles, k - 1);
      TallyBoundsInvariant(roles, k - 1);
      TallyChosenInvariant(roles, k - 1);
      forall j | 0 <= j < k && Counted(roles[j]) && Count(roles, roles[j]) == Tally(roles, k).0
        ensures Some(Tally(roles, k).1) in roles[..j + 1]
      {
        if j < k - 1 {
          TallyFirstEarlier(roles, k, j);
        } else {
          TallyFirstLast(roles, k);
        }
      }
    }
  }

  /**
   * `_most_frequent` returns 0 for an empty list or one with no counted
   * role, and otherwise the counted role of highest count that occurs
   * first; it never returns `None`.
   */
  lemma MostFrequentIsEarliestMode(roles: seq<Option<int>>)
    ensures IsEarliestMode(roles, MostFrequentOf(roles))
  {
    if roles != [] {
      TallyChosenInvariant(roles, |roles|);
      TallyBoundsInvariant(roles, |roles|);
      TallyFirstInvariant(roles, |roles|);
      assert roles[..|roles|] == roles;
    }
  }

  /** `_most_frequent`: the loop over the list, counting each counted role. */
  method MostFrequent(roles: seq<Option<int>>) returns (num: int)
    ensures num == MostFrequentOf(roles)
  {
    if |roles| == 0 {
      return 0;
    }
    var counter := 0;
    num := 0;
    for k := 0 to |roles|
      invariant (counter, num) == Tally(roles, k)
    {
      var x := roles[k];
      if Counted(x) {
        var frequency := Count(roles, x);
        if frequency > counter {
          counter := frequency;
          num := x.value;
        }
      }
    }
  }

  // ---------------------------------------------------------------------
  // _get_jobs_roles, _get_usrs_roles
  // ---------------------------------------------------------------------

  /** `{str(row[0]): row[1] for row in rows}`, built row by row. */
  function StrKeyed(rows: seq<RoleRow>): map<Key, Option<int>>
  {
    if rows == [] then map[]
    else
      var last := rows[|rows| - 1];
      StrKeyed(rows[..|rows| - 1])[StrKey(IntToString(last.0)) := last.1]
  }

  /** Every key of the dictionary is a str. */
  lemma {:induction false} StrKeyedKeys(rows: seq<RoleRow>)
    ensures forall k :: k in StrKeyed(rows) ==> k.StrKey?
  {
    if rows != [] {
      StrKeyedKeys(rows[..|rows| - 1]);
    }
  }

  /** The keys of the dictionary are the `str(id)` of the rows. */
  lemma {:induction false} StrKeyedDomain(rows: seq<RoleRow>, k: Key)
    ensures k in StrKeyed(rows) <==> exists i :: 0 <= i < |rows| && k == StrKey(IntToString(rows[i].0))
  {
    if rows != [] {
      var front := rows[..|rows| - 1];
      StrKeyedDomain(front, k);
      if k in StrKeyed(front) {
        var i :| 0 <= i < |front| && k == StrKey(IntToString(front[i].0));
        assert rows[i] == front[i];
      }
      if exists i :: 0 <= i < |rows| && k == StrKey(IntToString(rows[i].0)) {
        var i :| 0 <= i < |rows| && k == StrKey(IntToString(rows[i].0));
        if i < |front| {
          assert front[i] == rows[i];
        }
      }
    }
  }

  /** Each key holds the role of the last row with that `str(id)`. */
  lemma {:induction false} StrKeyedLastWins(rows: seq<RoleRow>, i: nat)
    requires i < |rows|
    requires forall j :: i < j < |rows| ==> IntToString(rows[j].0) != IntToString(rows[i].0)
    ensures StrKey(IntToString(rows[i].0)) in StrKeyed(rows)
    ensures StrKeyed(rows)[StrKey(IntToString(rows[i].0))] == rows[i].1
  {
    if i < |rows| - 1 {
      var front := rows[..|rows| - 1];
      assert front[i] == rows[i];
      assert forall j :: i < j < |front| ==> front[j] == rows[j];
      StrKeyedLastWins(front, i);
    }
  }

  /** The loop shared by `_get_jobs_roles` and `_get_usrs_roles`. */
  method KeyByStrId(rows: seq<RoleRow>) returns (r: map<Key, Option<int>>)
    ensures r == StrKeyed(rows)
  {
    r := map[];
    for k := 0 to |rows|
      invariant r == StrKeyed(rows[..k])
    {
      assert rows[..k + 1][..k] == rows[..k];
      r := r[StrKey(IntToString(rows[k].0)) := rows[k].1];
    }
    assert rows[..|rows|] == rows;
  }

  /** `_get_jobs_roles`: `{}` for no ids, else the job rows keyed by `str(vag_id)`. */
  method GetJobsRoles(jobIds: seq<string>, src: Sources) returns (r: map<Key, Option<int>>)
    ensures jobIds == [] ==> r == map[]
    ensures jobIds != [] ==> r == StrKeyed(src.jobRoleRows(jobIds))
  {
    if |jobIds| == 0 {
      return map[];
    }
    r := KeyByStrId(src.jobRoleRows(jobIds));
  }

  /** `_get_usrs_roles`: `{}` for no ids, else the user rows keyed by `str(usr_id)`. */
  method GetUsrsRoles(usrIds: seq<string>, src: Sources) returns (r: map<Key, Option<int>>)
    ensures usrIds == [] ==> r == map[]
    ensures usrIds != [] ==> r == StrKeyed(src.usrRoleRows(usrIds))
  {
    if |usrIds| == 0 {
      return map[];
    }
    r := KeyByStrId(src.usrRoleRows(usrIds));
  }

  // ---------------------------------------------------------------------
  // _get_jobs_contacts
  // ---------------------------------------------------------------------

  function JobOf(row: ContactRow): int { row.0 }

  function UsrOf(row: ContactRow): int { row.1 }

  function JobIs(job: int): ContactRow -> bool
  {
    (row: ContactRow) => row.0 == job
  }

  /** The users of the rows of `job`, in row order. */
  function UsersOf(rows: seq<ContactRow>, job: int): seq<int>
  {
    Map(Filter(rows, JobIs(job)), UsrOf)
  }

  /** The contact dictionary built row by row (`r[job].append(usr)` or `r[job] = [usr]`). */
  function Grouped(rows: seq<ContactRow>): OrderedDict<int, seq<int>>
  {
    if rows == [] then Empty()
    else
      var g := Grouped(rows[..|rows| - 1]);
      var last := rows[|rows| - 1];
      Put(g, last.0, (if last.0 in g.values then g.values[last.0] else []) + [last.1])
  }

  /** The jobs of the contact dictionary are listed once each, in order of first row. */
  lemma {:induction false} GroupedJobs(rows: seq<ContactRow>)
    ensures Valid(Grouped(rows))
    ensures Grouped(rows).keys == Distinct(Map(rows, JobOf))
  {
    if rows == [] {
    } else {
      var front := rows[..|rows| - 1];
      var last := rows[|rows| - 1];
      var g := Grouped(front);
      GroupedJobs(front);
      PutValid(g, last.0, (if last.0 in g.values then g.values[last.0] else []) + [last.1]);
      assert rows == front + [last];
      MapAppend(front, [last], JobOf);
      assert Map(rows, JobOf)[..|rows| - 1] == Map(front, JobOf);
    }
  }

  /**
   * Each job of the contact dictionary holds its users in row order, and a
   * job that is not in it has no row.
   */
  lemma {:induction false} GroupedUsers(rows: seq<ContactRow>, job: int)
    ensures job in Grouped(rows).values ==> Grouped(rows).values[job] == UsersOf(rows, job)
    ensures job !in Grouped(rows).values ==> UsersOf(rows, job) == []
  {
    if rows != [] {
      var front := rows[..|rows| - 1];
      var last := rows[|rows| - 1];
      GroupedUsers(front, job);
      if job == last.0 {
        MapAppend(Filter(front, JobIs(job)), [last], UsrOf);
      }
    }
  }

  lemma GroupedStep(rows: seq<ContactRow>, k: nat)
    requires k < |rows|
    ensures var g := Grouped(rows[..k]);
      Grouped(rows[..k + 1]) == Put(g, rows[k].0, (if rows[k].0 in g.values then g.values[rows[k].0] else []) + [rows[k].1])
  {
    assert rows[..k + 1][..k] == rows[..k];
  }

  /** `_get_jobs_contacts`: `{}` for no ids, else the contact rows grouped per job. */
  method GetJobsContacts(jobIds: seq<int>, src: Sources) returns (r: OrderedDict<int, seq<int>>)
    ensures jobIds == [] ==> r == Empty()
    ensures jobIds != [] ==> r == Grouped(src.contactRows(Map(jobIds, IntToString)))
  {
    if |jobIds| == 0 {
      return Empty();
    }
    var rows := src.contactRows(Map(jobIds, IntToString));
    r := Empty();
    for k := 0 to |rows|
      invariant r == Grouped(rows[..k])
    {
      var job := rows[k].0;
      var usr := rows[k].1;
      GroupedStep(rows, k);
      if job in r.values {
        r := Put(r, job, r.values[job] + [usr]);
      } else {
        assert [] + [usr] == [usr];
        r := Put(r, job, [usr]);
      }
    }
    assert rows[..|rows|] == rows;
  }

  // ---------------------------------------------------------------------
  // Events API answers
  // ---------------------------------------------------------------------

  /**
   * `_get_last_users_applies_from_api` and `_get_last_job_applies`: the
   * empty list for no ids, else what the API answers.
   */
  function Requested(ids: seq<int>, api: seq<int> -> ApiResponse): (r: ApiResponse)
    ensures ids == [] ==> r == EmptyList
    ensures ids != [] ==> r == api(ids)
  {
    if ids == [] then EmptyList else api(ids)
  }

  /** The applies listed under id `k`, `[]` when there is no such entry or it has none. */
  function AppliesOf(entries: OrderedDict<string, Entry>, k: string): seq<Apply>
  {
    if k in entries.values && entries.values[k].applies.Some? then entries.values[k].applies.value else []
  }

  /** The applies of the ids `keys`, id by id. */
  function AllApplies(entries: OrderedDict<string, Entry>, keys: seq<string>): seq<Apply>
  {
    if keys == [] then []
    else AllApplies(entries, keys[..|keys| - 1]) + AppliesOf(entries, keys[|keys| - 1])
  }

  function JobIdOf(a: Apply): string { a.jobId }

  function UserIdOf(a: Apply): string { a.userId }

  /** An id as the key it is looked up by. */
  function JobKey(a: Apply): Key { StrKey(a.jobId) }

  function UserKey(a: Apply): Key { StrKey(a.userId) }

  function IntKeyOf(id: int): Key { IntKey(id) }

  /**
   * One field of every apply in the response, id by id in response order
   * (`jobs_list` and `applies`).
   */
  method CollectIds(entries: OrderedDict<string, Entry>, field: Apply -> string) returns (ids: seq<string>)
    ensures ids == Map(AllApplies(entries, entries.keys), field)
  {
    ids := [];
    for i := 0 to |entries.keys|
      invariant ids == Map(AllApplies(entries, entries.keys[..i]), field)
    {
      var k := entries.keys[i];
      assert entries.keys[..i + 1][..i] == entries.keys[..i];
      if k in entries.values && entries.values[k].applies.Some? {
        var applies := entries.values[k].applies.value;
        ghost var before := ids;
        for j := 0 to |applies|
          invariant ids == before + Map(applies[..j], field)
        {
          MapPrefix(applies, j, field);
          AppendSnoc(before, Map(applies[..j], field), field(applies[j]));
          ids := ids + [field(applies[j])];
        }
        assert applies[..|applies|] == applies;
        MapAppend(AllApplies(entries, entries.keys[..i]), applies, field);
      } else {
        assert AllApplies(entries, entries.keys[..i]) + [] == AllApplies(entries, entries.keys[..i]);
      }
    }
    assert entries.keys[..|entries.keys|] == entries.keys;
  }

  // ---------------------------------------------------------------------
  // Role lookups
  // ---------------------------------------------------------------------

  /** `[roles[key(x)] for x in xs if key(x) in roles]`, built element by element. */
  function Known<T>(xs: seq<T>, key: T -> Key, roles: map<Key, Option<int>>): seq<Option<int>>
  {
    if xs == [] then []
    else
      var front := Known(xs[..|xs| - 1], key, roles);
      var k := key(xs[|xs| - 1]);
      if k in roles then front + [roles[k]] else front
  }

  /** Nothing is found when no key is in the dictionary. */
  lemma {:induction false} KnownNone<T>(xs: seq<T>, key: T -> Key, roles: map<Key, Option<int>>)
    requires forall x :: x in xs ==> key(x) !in roles
    ensures Known(xs, key, roles) == []
  {
    if xs != [] {
      assert forall x :: x in xs[..|xs| - 1] ==> x in xs;
      KnownNone(xs[..|xs| - 1], key, roles);
    }
  }

  /** The inner loops that look up the role of each id of a list. */
  method KnownRoles<T>(xs: seq<T>, key: T -> Key, roles: map<Key, Option<int>>) returns (found: seq<Option<int>>)
    ensures found == Known(xs, key, roles)
  {
    found := [];
    for k := 0 to |xs|
      invariant found == Known(xs[..k], key, roles)
    {
      assert xs[..k + 1][..k] == xs[..k];
      var id := key(xs[k]);
      if id in roles {
        found := found + [roles[id]];
      }
    }
    assert xs[..|xs|] == xs;
  }

  // ---------------------------------------------------------------------
  // normalize_usr_ids
  // ---------------------------------------------------------------------

  /** The roles of the jobs of the response's applies (`job_roles`). */
  function JobRolesFor(entries: OrderedDict<string, Entry>, src: Sources): map<Key, Option<int>>
  {
    var ids := Map(AllApplies(entries, entries.keys), JobIdOf);
    if ids == [] then map[] else StrKeyed(src.jobRoleRows(ids))
  }

  /** The known roles of the jobs user `u` applied to, in apply order. */
  function UserRoles(entries: OrderedDict<string, Entry>, jobRoles: map<Key, Option<int>>, u: int): seq<Option<int>>
  {
    Known(AppliesOf(entries, IntToString(u)), JobKey, jobRoles)
  }

  /**
   * `normalize_usr_ids`: one `[str(id), role]` per user id, in input
   * order, the role being the most frequent known role of the jobs the
   * user applied to, 0 when there is none. A non-200 answer leaves the
   * empty list, whose missing `keys` raises.
   */
  method NormalizeUsrIds(usrIds: seq<int>, src: Sources) returns (r: Result<seq<(string, int)>>)
    ensures usrIds == [] ==> r == Ok([])
    ensures usrIds != [] ==> (r.Failure? <==> src.usrApplies(usrIds).EmptyList?)
    ensures r.Ok? ==> |r.value| == |usrIds|
    ensures r.Ok? && usrIds != [] ==>
              var e := src.usrApplies(usrIds).entries;
              forall i :: 0 <= i < |usrIds| ==>
                r.value[i] == (IntToString(usrIds[i]), MostFrequentOf(UserRoles(e, JobRolesFor(e, src), usrIds[i])))
    ensures r.Ok? && usrIds != [] ==>
              var e := src.usrApplies(usrIds).entries;
              forall i :: 0 <= i < |usrIds| && UserRoles(e, JobRolesFor(e, src), usrIds[i]) == [] ==> r.value[i].1 == 0
  {
    if |usrIds| == 0 {
      return Ok([]);
    }
    var response := Requested(usrIds, src.usrApplies);
    if response.EmptyList? {
      return Failure(KeysError);
    }
    var e := response.entries;
    var jobsList := CollectIds(e, JobIdOf);
    var jobRoles := map[];
    if |jobsList| > 0 {
      jobRoles := GetJobsRoles(jobsList, src);
    }
    var pairs: seq<(string, int)> := [];
    for i := 0 to |usrIds|
      invariant |pairs| == i
      invariant forall j :: 0 <= j < i ==> pairs[j] == (IntToString(usrIds[j]), MostFrequentOf(UserRoles(e, jobRoles, usrIds[j])))
    {
      var usrId := IntToString(usrIds[i]);
      if usrId in e.values && e.values[usrId].applies.Some? {
        var usrRoles := KnownRoles(e.values[usrId].applies.value, JobKey, jobRoles);
        if |usrRoles| > 0 {
          var role := MostFrequent(usrRoles);
          pairs := pairs + [(usrId, role)];
        } else {
          pairs := pairs + [(usrId, 0)];
        }
      } else {
        pairs := pairs + [(usrId, 0)];
      }
    }
    return Ok(pairs);
  }

  // ---------------------------------------------------------------------
  // normalize_job_ids
  // ---------------------------------------------------------------------

  /** The roles looked up for the contacts of `job`, by their int user ids. */
  function ContactRoles(contacts: OrderedDict<int, seq<int>>, usrRoles: map<Key, Option<int>>, job: int): seq<Option<int>>
  {
    if job in contacts.values then Known(contacts.values[job], IntKeyOf, usrRoles) else []
  }

  function HasContactRole(contacts: OrderedDict<int, seq<int>>, usrRoles: map<Key, Option<int>>): int -> bool
  {
    job => ContactRoles(contacts, usrRoles, job) != []
  }

  function NoContactRole(contacts: OrderedDict<int, seq<int>>, usrRoles: map<Key, Option<int>>): int -> bool
  {
    job => ContactRoles(contacts, usrRoles, job) == []
  }

  function ContactPair(contacts: OrderedDict<int, seq<int>>, usrRoles: map<Key, Option<int>>): int -> (int, int)
  {
    job => (job, MostFrequentOf(ContactRoles(contacts, usrRoles, job)))
  }

  /** The known roles of the contacts of `job`, when it has contacts. */
  method ContactsRoles(contacts: OrderedDict<int, seq<int>>, usrRoles: map<Key, Option<int>>, job: int)
    returns (roles: seq<Option<int>>)
    ensures roles == ContactRoles(contacts, usrRoles, job)
  {
    roles := [];
    if job in contacts.values && |contacts.values[job]| > 0 {
      roles := KnownRoles(contacts.values[job], IntKeyOf, usrRoles);
    }
  }

  /**
   * The contact loop of `normalize_job_ids` over `jobs`, as `(inferred,
   * found, get_by_apply)`.
   */
  function ContactSplit(contacts: OrderedDict<int, seq<int>>, usrRoles: map<Key, Option<int>>, jobs: seq<int>)
    : (seq<(int, int)>, seq<int>, seq<int>)
  {
    if jobs == [] then ([], [], [])
    else
      var (inferred, found, getByApply) := ContactSplit(contacts, usrRoles, jobs[..|jobs| - 1]);
      var job := jobs[|jobs| - 1];
      var roles := ContactRoles(contacts, usrRoles, job);
      if roles != [] then (inferred + [(job, MostFrequentOf(roles))], found + [job], getByApply)
      else (inferred, found, getByApply + [job])
  }

  /** The contact loop finds, in order, the jobs whose contacts have known roles. */
  lemma {:induction false} ContactSplitFound(contacts: OrderedDict<int, seq<int>>, usrRoles: map<Key, Option<int>>, jobs: seq<int>)
    ensures ContactSplit(contacts, usrRoles, jobs).1 == Filter(jobs, HasContactRole(contacts, usrRoles))
  {
    if jobs != [] {
      ContactSplitFound(contacts, usrRoles, jobs[..|jobs| - 1]);
      FilterPrefix(jobs, |jobs| - 1, HasContactRole(contacts, usrRoles));
      assert jobs[..|jobs|] == jobs;
    }
  }

  /** The contact loop leaves every other job, in order, for the apply lookup. */
  lemma {:induction false} ContactSplitLeft(contacts: OrderedDict<int, seq<int>>, usrRoles: map<Key, Option<int>>, jobs: seq<int>)
    ensures ContactSplit(contacts, usrRoles, jobs).2 == Filter(jobs, NoContactRole(contacts, usrRoles))
  {
    if jobs != [] {
      ContactSplitLeft(contacts, usrRoles, jobs[..|jobs| - 1]);
      FilterPrefix(jobs, |jobs| - 1, NoContactRole(contacts, usrRoles));
      assert jobs[..|jobs|] == jobs;
    }
  }

  /** The contact loop infers each found job's role from its contacts' roles. */
  lemma {:induction false} ContactSplitInferred(contacts: OrderedDict<int, seq<int>>, usrRoles: map<Key, Option<int>>, jobs: seq<int>)
    ensures ContactSplit(contacts, usrRoles, jobs).0 == Map(ContactSplit(contacts, usrRoles, jobs).1, ContactPair(contacts, usrRoles))
  {
    if jobs != [] {
      var front := jobs[..|jobs| - 1];
      ContactSplitInferred(contacts, usrRoles, front);
      MapAppend(ContactSplit(contacts, usrRoles, front).1, [jobs[|jobs| - 1]], ContactPair(contacts, usrRoles));
    }
  }

  /**
   * The contact loop of `normalize_job_ids`: a job whose contacts have known
   * roles is inferred from them and found; every other job is left for the
   * apply lookup.
   */
  method ContactPhase(jobIds: seq<int>, contacts: OrderedDict<int, seq<int>>, usrRoles: map<Key, Option<int>>)
    returns (inferred: seq<(int, int)>, found: seq<int>, getByApply: seq<int>)
    ensures found == Filter(jobIds, HasContactRole(contacts, usrRoles))
    ensures inferred == Map(found, ContactPair(contacts, usrRoles))
    ensures getByApply == Filter(jobIds, NoContactRole(contacts, usrRoles))
  {
    inferred, found, getByApply := [], [], [];
    for i := 0 to |jobIds|
      invariant (inferred, found, getByApply) == ContactSplit(contacts, usrRoles, jobIds[..i])
    {
      assert jobIds[..i + 1][..i] == jobIds[..i];
      var job := jobIds[i];
      var roles := ContactsRoles(contacts, usrRoles, job);
      if |roles| > 0 {
        var role := MostFrequent(roles);
        inferred := inferred + [(job, role)];
        found := found + [job];
      } else {
        getByApply := getByApply + [job];
      }
    }
    assert jobIds[..|jobIds|] == jobIds;
    ContactSplitFound(contacts, usrRoles, jobIds);
    ContactSplitLeft(contacts, usrRoles, jobIds);
    ContactSplitInferred(contacts, usrRoles, jobIds);
  }

  /**
   * The contact path never infers a role: the user role dictionary is keyed
   * by `str(usr_id)` while the contacts hold int user ids, and an int is
   * never equal to a str key.
   */
  lemma ContactPathFindsNothing(jobIds: seq<int>, contacts: OrderedDict<int, seq<int>>, usrRoles: map<Key, Option<int>>)
    requires forall k :: k in usrRoles ==> k.StrKey?
    ensures Filter(jobIds, HasContactRole(contacts, usrRoles)) == []
    ensures Filter(jobIds, NoContactRole(contacts, usrRoles)) == jobIds
  {
    forall job | job in contacts.values
      ensures Known(contacts.values[job], IntKeyOf, usrRoles) == []
    {
      KnownNone(contacts.values[job], IntKeyOf, usrRoles);
    }
    FilterNone(jobIds, HasContactRole(contacts, usrRoles));
    FilterAll(jobIds, NoContactRole(contacts, usrRoles));
  }

  /** The roles of the users of the response's applies (`applies_roles`). */
  function AppliesRolesFor(entries: OrderedDict<string, Entry>, src: Sources): map<Key, Option<int>>
  {
    var ids := Map(AllApplies(entries, entries.keys), UserIdOf);
    if ids == [] then map[] else StrKeyed(src.usrRoleRows(ids))
  }

  /** The known roles of the users who applied to `job`, in apply order. */
  function ApplyRoles(entries: OrderedDict<string, Entry>, appliesRoles: map<Key, Option<int>>, job: int): seq<Option<int>>
  {
    Known(AppliesOf(entries, IntToString(job)), UserKey, appliesRoles)
  }

  function NoApplyRole(entries: OrderedDict<string, Entry>, appliesRoles: map<Key, Option<int>>): int -> bool
  {
    job => ApplyRoles(entries, appliesRoles, job) == []
  }

  function JobPair(entries: OrderedDict<string, Entry>, appliesRoles: map<Key, Option<int>>): int -> (int, int)
  {
    job => (job, MostFrequentOf(ApplyRoles(entries, appliesRoles, job)))
  }

  function ZeroPair(job: int): (int, int) { (job, 0) }

  function HasApplyRole(entries: OrderedDict<string, Entry>, appliesRoles: map<Key, Option<int>>): int -> bool
  {
    job => ApplyRoles(entries, appliesRoles, job) != []
  }

  /** The known roles of the users listed under `str(job)` in the response, when it has applies. */
  method ApplicantRoles(e: OrderedDict<string, Entry>, appliesRoles: map<Key, Option<int>>, job: int)
    returns (roles: seq<Option<int>>)
    ensures roles == ApplyRoles(e, appliesRoles, job)
  {
    roles := [];
    var id := IntToString(job);
    if id in e.values && e.values[id].applies.Some? {
      roles := KnownRoles(e.values[id].applies.value, UserKey, appliesRoles);
    }
  }

  /**
   * The apply loop of `normalize_job_ids`: each job gets the most frequent
   * known role of its applicants, or 0; the jobs with a role are found.
   */
  method ApplyPhase(getByApply: seq<int>, e: OrderedDict<string, Entry>, appliesRoles: map<Key, Option<int>>)
    returns (inferred: seq<(int, int)>, found: seq<int>)
    ensures inferred == Map(getByApply, JobPair(e, appliesRoles))
    ensures found == Filter(getByApply, HasApplyRole(e, appliesRoles))
  {
    inferred, found := [], [];
    for i := 0 to |getByApply|
      invariant inferred == Map(getByApply[..i], JobPair(e, appliesRoles))
      invariant found == Filter(getByApply[..i], HasApplyRole(e, appliesRoles))
    {
      var job := getByApply[i];
      MapPrefix(getByApply, i, JobPair(e, appliesRoles));
      FilterPrefix(getByApply, i, HasApplyRole(e, appliesRoles));
      var roles := ApplicantRoles(e, appliesRoles, job);
      if |roles| > 0 {
        var role := MostFrequent(roles);
        inferred := inferred + [(job, role)];
        found := found + [job];
      } else {
        inferred := inferred + [(job, 0)];
      }
    }
    assert getByApply[..|getByApply|] == getByApply;
  }

  function Missing(found: seq<int>): int -> bool
  {
    job => job !in found
  }

  /** `[job_id, 0]` for every job of `jobs` not in `found`, in order. */
  function ZeroPairs(found: seq<int>, jobs: seq<int>): seq<(int, int)>
  {
    if jobs == [] then []
    else
      var job := jobs[|jobs| - 1];
      ZeroPairs(found, jobs[..|jobs| - 1]) + if job in found then [] else [(job, 0)]
  }

  lemma {:induction false} ZeroPairsMissing(found: seq<int>, jobs: seq<int>)
    ensures ZeroPairs(found, jobs) == Map(Filter(jobs, Missing(found)), ZeroPair)
  {
    if jobs != [] {
      var n := |jobs| - 1;
      ZeroPairsMissing(found, jobs[..n]);
      FilterPrefix(jobs, n, Missing(found));
      assert jobs[..n + 1] == jobs;
      MapAppend(Filter(jobs[..n], Missing(found)), [jobs[n]], ZeroPair);
    }
  }

  /** The closing loop of `normalize_job_ids`: `[job_id, 0]` for every job not found. */
  method AppendMissing(inferred: seq<(int, int)>, jobIds: seq<int>, found: seq<int>) returns (r: seq<(int, int)>)
    ensures r == inferred + Map(Filter(jobIds, Missing(found)), ZeroPair)
  {
    r := inferred;
    for i := 0 to |jobIds|
      invariant r == inferred + ZeroPairs(found, jobIds[..i])
    {
      assert jobIds[..i + 1][..i] == jobIds[..i];
      var job := jobIds[i];
      if job !in found {
        r := r + [(job, 0)];
      }
    }
    assert jobIds[..|jobIds|] == jobIds;
    ZeroPairsMissing(found, jobIds);
  }

  /** A job of the list is missing from the found jobs exactly when it has no apply role. */
  lemma MissingIsNoApplyRole(jobIds: seq<int>, e: OrderedDict<string, Entry>, appliesRoles: map<Key, Option<int>>)
    ensures Filter(jobIds, Missing(Filter(jobIds, HasApplyRole(e, appliesRoles)))) == Filter(jobIds, NoApplyRole(e, appliesRoles))
  {
    var found := Filter(jobIds, HasApplyRole(e, appliesRoles));
    forall job | job in jobIds
      ensures Missing(found)(job) == NoApplyRole(e, appliesRoles)(job)
    {
      if HasApplyRole(e, appliesRoles)(job) {
        FilterKeeps(jobIds, HasApplyRole(e, appliesRoles), job);
      }
    }
    FilterSameOn(jobIds, Missing(found), NoApplyRole(e, appliesRoles));
  }

  /**
   * What `normalize_job_ids` returns once the contact path has found
   * nothing: each job with its apply role, then `[job_id, 0]` again for the
   * jobs without one.
   */
  function JobsInferred(jobIds: seq<int>, e: OrderedDict<string, Entry>, appliesRoles: map<Key, Option<int>>): seq<(int, int)>
  {
    Map(jobIds, JobPair(e, appliesRoles)) + Map(Filter(jobIds, NoApplyRole(e, appliesRoles)), ZeroPair)
  }

  /** Every input job appears, in input order at the front, and nothing else does. */
  lemma EveryJobAppears(jobIds: seq<int>, e: OrderedDict<string, Entry>, appliesRoles: map<Key, Option<int>>)
    ensures |JobsInferred(jobIds, e, appliesRoles)| >= |jobIds|
    ensures forall i :: 0 <= i < |jobIds| ==> JobsInferred(jobIds, e, appliesRoles)[i].0 == jobIds[i]
    ensures forall p :: p in JobsInferred(jobIds, e, appliesRoles) ==> p.0 in jobIds
  {
    var front := Map(jobIds, JobPair(e, appliesRoles));
    var missing := Filter(jobIds, NoApplyRole(e, appliesRoles));
    MapIndex(jobIds, JobPair(e, appliesRoles));
    MapIndex(missing, ZeroPair);
    forall p | p in JobsInferred(jobIds, e, appliesRoles)
      ensures p.0 in jobIds
    {
      var i :| 0 <= i < |front + Map(missing, ZeroPair)| && (front + Map(missing, ZeroPair))[i] == p;
      if i >= |front| {
        assert missing[i - |front|] in missing;
      }
    }
  }

  /**
   * A job whose apply lookup yields no role is listed as `[job_id, 0]`
   * twice for each time it is asked for: once by the apply loop and once
   * by the closing loop.
   */
  lemma JobWithoutRoleTwice(jobIds: seq<int>, e: OrderedDict<string, Entry>, appliesRoles: map<Key, Option<int>>, job: int)
    requires ApplyRoles(e, appliesRoles, job) == []
    ensures Count(JobsInferred(jobIds, e, appliesRoles), (job, 0)) == 2 * Count(jobIds, job)
  {
    var missing := Filter(jobIds, NoApplyRole(e, appliesRoles));
    CountAppend(Map(jobIds, JobPair(e, appliesRoles)), Map(missing, ZeroPair), (job, 0));
    assert JobPair(e, appliesRoles)(job) == (job, 0);
    CountMap(jobIds, JobPair(e, appliesRoles), job);
    CountMap(missing, ZeroPair, job);
    CountFilter(jobIds, NoApplyRole(e, appliesRoles), job);
  }

  /**
   * `normalize_job_ids`: every job, in input order, with the most frequent
   * known role of the users who applied to it (0 when there is none),
   * followed by `[job_id, 0]` again for each job that got no role. A
   * non-200 answer leaves the empty list, whose missing `keys` raises.
   */
  method NormalizeJobIds(jobIds: seq<int>, src: Sources) returns (r: Result<seq<(int, int)>>)
    ensures jobIds == [] ==> r == Ok([])
    ensures jobIds != [] ==> (r.Failure? <==> src.jobApplies(jobIds).EmptyList?)
    ensures r.Ok? && jobIds != [] ==>
              var e := src.jobApplies(jobIds).entries;
              var roles := AppliesRolesFor(e, src);
              r.value == JobsInferred(jobIds, e, roles)
  {
    if |jobIds| == 0 {
      return Ok([]);
    }
    var contacts := GetJobsContacts(jobIds, src);
    var usrIds: seq<int> := [];
    for i := 0 to |contacts.keys| {
      var job := contacts.keys[i];
      if job in contacts.values {
        usrIds := usrIds + contacts.values[job];
      }
    }
    var usrRoles := GetUsrsRoles(Map(usrIds, IntToString), src);
    var inferred, found, getByApply := ContactPhase(jobIds, contacts, usrRoles);
    StrKeyedKeys(src.usrRoleRows(Map(usrIds, IntToString)));
    ContactPathFindsNothing(jobIds, contacts, usrRoles);

    var response := Requested(getByApply, src.jobApplies);
    if response.EmptyList? {
      return Failure(KeysError);
    }
    var e := response.entries;
    var applies := CollectIds(e, UserIdOf);
    var appliesRoles := GetUsrsRoles(applies, src);
    var byApply, foundByApply := ApplyPhase(getByApply, e, appliesRoles);
    inferred, found := inferred + byApply, found + foundByApply;
    assert inferred == byApply && found == foundByApply;
    inferred := AppendMissing(inferred, jobIds, found);
    MissingIsNoApplyRole(jobIds, e, appliesRoles);
    return Ok(inferred);
  }
}
