# Role normalization, modelled in Dafny

This project models the role normalization system. The system matches free-text job titles to the roles of a reference
table. Its parts are:

- **Batch routines.** These read CV roles, work experience roles and job titles out of MySQL, one date window after
  another. They send the titles in batches to the Role Normalization API and write the role ids the API returns back to
  the role tables. They then upsert normalization flags and publish the normalized ids to a queue.
- **Rollback routines.** These reset to 0 the role ids of the records listed in the normalization log tables.
- **Log replay script.** It sends logged API requests to a local API and sorts each title by how the two answers
  compare.
- **The API itself:**
  - the text normalizer (lower-casing, symbol removal, typo correction, stop words, seniorities, locations,
    conjugation, plural, gender, thesaurus, stemming);
  - the role matcher (exact title, then Aho-Corasick, then Word2Vec, each under an optional profile filter);
  - the Aho-Corasick word-run search;
  - the HTTP handler that splits titles at separators and builds the response;
  - the events helpers that infer a user's or a job's role from apply events.

Each source file is one module:

- `wrappers.dfy`, `seqs.dfy`, `text.dfy`, `ordered_dict.dfy` (`Wrappers`, `Seqs`, `Text`, `OrderedDicts`): Option and Result types; Python list, string and ordered dict behaviour.
- `role_table.dfy` (`RoleTable`): A role table as a map from key to role id. It holds the routines' INSERT … WHERE NOT EXISTS, the CASE update and `UPDATE … SET cargo_id = 0`.
- `date_windows.dfy` (`DateWindows`): The `SUBDATE(NOW(), INTERVAL …)` windows, and the class that pages through them with `fetchmany`.
- `norm_batching.dfy` (`NormBatching`): The API batching and the reply merge shared by both normalization routines.
- `users_role_norm.dfy`, `jobs_role_norm.dfy` (`UsersRoleNorm`, `JobsRoleNorm`): The two normalization routines, each as a class over its tables, flag statements and queue.
- `rollback_batching.dfy` (`RollbackBatching`): Per-page rollback statements, and `DATETIME` comparison as strings.
- `users_db_rollback.dfy`, `jobs_db_rollback.dfy` (`UsersDbRollback`, `JobsDbRollback`): The two rollback routines, each as a class over its cursor and tables.
- `replay_log_requests.dfy` (`ReplayLogRequests`): Reading and replaying a request log, and classifying each title.
- `aho_corasick_matcher.dfy` (`AhoCorasickMatcher`): Word combinations, dedup, blocklist, the sort by length, and the search.
- `role_matcher.dfy` (`RoleMatcher`): Processed roles, the profile id filter, and the matching priority chain.
- `role_normalizer.dfy` (`RoleNormalizer`): Gazetteer loaders and the steps of `normalize`.
- `role_normalizer_events.dfy` (`RoleNormalizerEvents`): Query retries, grouping, most-frequent role, user and job inference.
- `role_norm.dfy` (`RoleNorm`): `perfil_ids` validation, title splitting, the response body and the HTTP status.

Code that works step by step keeps that form. Loops are `method`s with invariants, and objects whose fields change are
`class`es with `modifies` clauses. Each such method is proved against a specification function, and the properties are
proved about those functions. MySQL, the HTTP APIs, RabbitMQ, the regex engine, the spell checker, the accent stripper
and the stemmer are parameters, given as function-valued fields of a `Config`, `Sources`, `Matcher` or `Normalizer`
value.

All source paths below are relative to the repository root.

## Model

| member | source | states |
|---|---|---|
| `Seqs.Chunks` | role_normalization/routine/users_role_norm.py:564 | The batch comprehension `[s[i:i+n] for i in range(0, len(s), n)]`: the chunks concatenate back to the list, each is non-empty and at most `n` long, all but the last are exactly `n` long |
| `Seqs.ChunksOfFlatten` | role_normalization/routine/jobs_role_norm.py:459 | Chunking is determined by sizes: slices that are all full except a non-empty last one are the chunking of their concatenation |
| `Seqs.Distinct` | role_normalization/api/models/aho_corasick_matcher.py:81-88 | Dedup through an ordered dict: no duplicates, the same elements, never longer |
| `Seqs.DistinctCardinality` | role_normalization/routine/users_role_norm.py:1110-1111 | `len(set(ids))`: the deduplicated list is as long as the set of the elements |
| `Seqs.FirstMatch` | role_normalization/api/models/aho_corasick_matcher.py:106-112 | A search loop with `break`: a found element is in the list and passes the test; when none is found, no element passes |
| `Text.StripSplit` | role_normalization/api/models/role_normalizer.py:516-524 | `s.strip().split()` has the same words as `s.split()` |
| `Text.JoinSplitOn` | role_normalization/api/role_norm.py:41 | Splitting at a separator and joining with it gives back the string |
| `Text.ReplaceRemoves` | role_normalization/api/models/role_normalizer.py:487-491 | `str.replace` of a one-character pattern by text without it leaves no occurrence |
| `Text.IntToStringInjective` | role_normalization/api/events/role_normalizer_events.py:181-189 | Distinct ids give distinct `str(id)` keys |
| `OrderedDicts.PutValid` | role_normalization/api/role_norm.py:215-216 | `d[k] = v` keeps every key listed once. It grows the dict by one exactly when the key is new, keeps earlier keys in place, stores `v` and leaves the other keys alone |
| `RoleTable.Keys` | role_normalization/routine/users_role_norm.py:246-258 | The IN list of the CASE update: one key per arm, in arm order |
| `RoleTable.CaseValue` | role_normalization/routine/users_role_norm.py:246-258 | `CASE key WHEN … THEN … END` has a value exactly when the key has an arm |
| `RoleTable.CaseValueFirstArm` | role_normalization/routine/users_role_norm.py:246-258 | When a key has more than one arm, the first arm gives its CASE value |
| `RoleTable.InsertRecord` | role_normalization/routine/users_role_norm.py:265-286 | INSERT … SELECT … WHERE NOT EXISTS adds exactly the admitted keys that had no record. Existing records are untouched; a new record gets its key's first row value |
| `RoleTable.InsertCount` | role_normalization/routine/users_role_norm.py:227-243 | The insert's row count is the number of keys it adds |
| `RoleTable.NewKeysSnoc` | role_normalization/routine/users_role_norm.py:265-286 | The keys added by a batch are those added by the rows before the last, plus the last row's key if it is new and its parent exists |
| `RoleTable.UpdateRecord` | role_normalization/routine/users_role_norm.py:246-258 | The CASE update keeps the set of keys. A listed key takes its first arm's role id; other keys keep theirs |
| `RoleTable.UpdateCount` | role_normalization/routine/users_role_norm.py:246-258 | The update's row count is the number of records whose value changes |
| `RoleTable.WriteBatchCount` | role_normalization/routine/users_role_norm.py:996-1011 | The written count of a batch is the keys inserted plus the records the update then changes |
| `RoleTable.WrittenEntry` | role_normalization/routine/users_role_norm.py:898-951 | After a write, every batch key that existed or was admitted holds its first arm's role id |
| `RoleTable.WrittenOther` | role_normalization/routine/users_role_norm.py:898-951 | A key outside the batch is neither added nor changed |
| `RoleTable.WrittenDistinctKeys` | role_normalization/routine/users_role_norm.py:898-951 | With distinct keys, each record's key ends up holding that record's role id |
| `RoleTable.InsertNothingNew` | role_normalization/routine/users_role_norm.py:227-243 | An insert with nothing new to add leaves the table alone and counts 0 |
| `RoleTable.ChangedKeysPrefix` | role_normalization/routine/users_role_norm.py:246-258 | More arms never un-change a record, because the first arm of a key wins |
| `RoleTable.UpdateNothingChanged` | role_normalization/routine/users_role_norm.py:246-258 | An update that changes no value leaves the table alone and counts 0 |
| `RoleTable.WrittenNoNewKeys` | role_normalization/routine/users_role_norm.py:898-923 | Once a batch is written, its insert finds nothing left to add |
| `RoleTable.WrittenNoChangedKeys` | role_normalization/routine/users_role_norm.py:898-923 | Once a batch is written, its update finds nothing left to change |
| `RoleTable.WriteBatchIdempotent` | role_normalization/routine/users_role_norm.py:881-1023 | Writing the same batch again leaves the table unchanged and reports 0 rows written |
| `RoleTable.ZeroRecord` | role_normalization/routine/users_db_rollback.py:115-140 | `UPDATE IGNORE … SET cargo_id = 0 WHERE key IN (ids)` keeps the set of keys, zeroes the listed records and leaves the others alone |
| `RoleTable.ZeroCount` | role_normalization/routine/users_db_rollback.py:115-140 | The rollback's row count is the number of listed records that were not already 0 |
| `RoleTable.ZeroIdempotent` | role_normalization/routine/users_db_rollback.py:115-140 | Rolling back the same ids twice changes nothing the second time |
| `RoleTable.ZeroNothingChanged` | role_normalization/routine/users_db_rollback.py:115-140 | A rollback that changes nothing leaves the table alone and counts 0 |
| `RoleTable.ZeroAppend` | role_normalization/routine/jobs_db_rollback.py:99-107 | Rolling back `a` and then `b` leaves the same table as rolling back `a + b` at once |
| `RoleTable.ZeroCountAppend` | role_normalization/routine/jobs_db_rollback.py:99-107 | The count of a combined rollback is the first part's count plus what the second part then still changes |
| `DateWindows.WeeklyWindows` | role_normalization/routine/users_role_norm.py:332-337 | One window per week, newest first; week `w` spans from `w+1` weeks ago to `w` weeks ago |
| `DateWindows.MonthlyWindows` | role_normalization/routine/users_role_norm.py:343-347 | One window per month from `from` months ago, newest first, each one month long |
| `DateWindows.WeeklyContiguous` | role_normalization/routine/users_role_norm.py:332-337 | The weekly windows leave no gap: each starts where the previous one ends |
| `DateWindows.MonthlyContiguous` | role_normalization/routine/users_role_norm.py:343-347 | The monthly windows leave no gap |
| `DateWindows.ContiguousAppend` | role_normalization/routine/users_role_norm.py:330-347 | Two gap-free window lists joined where one ends and the next begins are gap-free |
| `DateWindows.SumAppend` | role_normalization/routine/users_role_norm.py:588-593 | Row counts add up over concatenated window lists |
| `DateWindows.Sizes` | role_normalization/routine/users_role_norm.py:588-593 | The row count of each window's result, window by window |
| `DateWindows.RowsSplit` | role_normalization/routine/users_role_norm.py:719-738 | Moving past one window moves its rows from "still to read" to "read" |
| `DateWindows.WindowReader.constructor` | role_normalization/routine/users_role_norm.py:348-350 | The module's initial state: first window, query still to run, not done, not connected |
| `DateWindows.WindowReader.FetchMany` | role_normalization/routine/users_role_norm.py:649-749 | One call of the read function. It re-runs the query for the current window when asked, then returns the next rows. It counts them as read and strictly decreases the remaining work. An empty fetch moves to the next window; after the last one it goes back to the first with `done` set |
| `DateWindows.WindowReader.RunQuery` | role_normalization/routine/users_role_norm.py:702-714 | With the re-run flag set, the cursor holds the current window's result from its first row, and the flag is cleared |
| `DateWindows.WindowReader.Fetch` | role_normalization/routine/users_role_norm.py:717 | `fetchmany(size)` returns the next at most `size` rows of the open result and is empty exactly at its end |
| `DateWindows.WindowReader.NextWindow` | role_normalization/routine/users_role_norm.py:719-738 | An empty fetch moves to the next window, or after the last back to window 0 with `done` set, and asks for a re-run |
| `DateWindows.WindowReader.Close` | role_normalization/routine/users_role_norm.py:508-513 | Closing the cursor and connection changes nothing else |
| `NormBatching.MergeAppend` | role_normalization/routine/users_role_norm.py:859-870 | The reply merge works record by record: merging a concatenation merges each part |
| `NormBatching.MergeOne` | role_normalization/routine/users_role_norm.py:859-870 | A record is kept with its title's first role id exactly when the reply has a non-empty list for its title |
| `NormBatching.MergeMember` | role_normalization/routine/jobs_role_norm.py:708-719 | Every merged record is an input record whose title was matched, with the first id of that title |
| `NormBatching.MergeReply` | role_normalization/routine/jobs_role_norm.py:708-719 | The merge loop returns the matched records in input order, each with its role id set |
| `NormBatching.ApiBatches` | role_normalization/routine/users_role_norm.py:546-560 | One page's inner loop. The selected count is the number of AB-selected records. The API calls are the chunks of those records, last partial batch included, and the answers are concatenated in call order |
| `NormBatching.GatherStep` | role_normalization/routine/users_role_norm.py:531-543 | Reading one more record gathers it exactly when it is selected |
| `NormBatching.LastBatch` | role_normalization/routine/jobs_role_norm.py:450-454 | The full batches plus the pending partial one, when not empty, are the chunking of everything gathered |
| `NormBatching.SendBatch` | role_normalization/routine/users_role_norm.py:546-560 | Sending one more batch extends both the records sent and the answers received |
| `NormBatching.FlattenMapShrinks` | role_normalization/routine/users_role_norm.py:859-870 | A page never yields more normalized records than it sent |
| `NormBatching.FoldCountsPrefix` | role_normalization/routine/users_role_norm.py:564-586 | The per-page write, flag and queue loops fold one chunk at a time |
| `NormBatching.FoldStep` | role_normalization/routine/users_role_norm.py:564-586 | One more chunk of a fold loop keeps its state and total equal to the fold over the chunks so far |
| `NormBatching.FoldCountsIdle` | role_normalization/routine/users_role_norm.py:564-586 | A step that changes nothing and counts nothing does so for any chunk list |
| `NormBatching.EmitStep` | role_normalization/routine/users_role_norm.py:574-586 | One more chunk of a send-and-count loop appends its message when sending is on and adds its count when counting is on |
| `UsersRoleNorm.DateFilterStepsShape` | role_normalization/routine/users_role_norm.py:330-347 | 31 gap-free windows from now back to 12 months ago; the 25th is the leftover between 24 weeks and 6 months ago |
| `UsersRoleNorm.DateFilterStepsContiguous` | role_normalization/routine/users_role_norm.py:330-347 | The users routine's windows leave no gap |
| `UsersRoleNorm.DateFilterStepsNewest` | role_normalization/routine/users_role_norm.py:332-337 | The first window ends at now |
| `UsersRoleNorm.DateFilterStepsOldest` | role_normalization/routine/users_role_norm.py:343-347 | The last window starts 12 months ago |
| `UsersRoleNorm.RoleOfRow` | role_normalization/routine/users_role_norm.py:636-640 | A row becomes a role with no role id yet, and with a work experience id exactly for work experience rows; the row is recovered from the role |
| `UsersRoleNorm.RolesOfRows` | role_normalization/routine/users_role_norm.py:636-640 | One role per fetched row, in order |
| `UsersRoleNorm.IsPartOfAbTestGroup` | role_normalization/routine/users_role_norm.py:754-802 | True exactly when the id is non-zero, a group is set, the AB test is on and the AB API puts the user in that group |
| `UsersRoleNorm.NormalizedRoles` | role_normalization/routine/users_role_norm.py:807-877 | At most as many roles come back as were sent; any at all means a known field and a 200 reply |
| `UsersRoleNorm.NormalizedRolesMember` | role_normalization/routine/users_role_norm.py:859-870 | Each normalized role is an input role whose title the reply matched, with its role id set to that title's first id |
| `UsersRoleNorm.NormalizedRolesSameTitle` | role_normalization/routine/users_role_norm.py:859-870 | Roles sharing a title receive the same role id |
| `UsersRoleNorm.GetNormalizedRoles` | role_normalization/routine/users_role_norm.py:807-877 | The guards, the single API call and the merge loop compute `NormalizedRoles` |
| `UsersRoleNorm.ComposeWrite` | role_normalization/routine/users_role_norm.py:881-951 | No statements for an unknown field or an empty batch. Otherwise there is one insert row and one CASE arm per role, in order. Each is keyed by CV id or work experience id and carries the role id, and only work experiences get a parent check |
| `UsersRoleNorm.ApplyWrite` | role_normalization/routine/users_role_norm.py:881-1023 | With writing off, an unknown field or an empty batch, the table is unchanged and the count is 0 |
| `UsersRoleNorm.ApplyWriteIdempotent` | role_normalization/routine/users_role_norm.py:881-1023 | Writing a batch twice changes nothing the second time and counts 0 |
| `UsersRoleNorm.ApplyWriteRecord` | role_normalization/routine/users_role_norm.py:925-951 | After a batch with distinct keys is written, each role's record holds its role id. This holds for CV records, and for a work experience whose record existed or whose parent row exists |
| `UsersRoleNorm.ApplyWritesDisabled` | role_normalization/routine/users_role_norm.py:564-567 | With `WRITE_NORM_ROLE` off, the page's writes change nothing and count 0 |
| `UsersRoleNorm.FlagRowsMatchWrite` | role_normalization/routine/users_role_norm.py:1059-1068 | Each flag tuple carries the same role id and key as that role's written row |
| `UsersRoleNorm.QueueMessage` | role_normalization/routine/users_role_norm.py:1110-1126 | The message lists each user of the batch exactly once |
| `UsersRoleNorm.UsersRoutine.constructor` | role_normalization/routine/users_role_norm.py:348-350 | The routine starts at window 0, query pending, not done, nothing flagged or enqueued |
| `UsersRoleNorm.UsersRoutine.GetRolesToNormalize` | role_normalization/routine/users_role_norm.py:608-644 | Nothing is read for an unknown field or a zero size. Otherwise the rows read grow by the page and the remaining work strictly decreases. The roles are `RolesOfRows` of exactly the rows this fetch consumed from the current window's result. They carry no role id yet, and a work experience id only for work experiences |
| `UsersRoleNorm.UsersRoutine.WriteNormalizedRoles` | role_normalization/routine/users_role_norm.py:881-1023 | The field's table becomes `ApplyWrite` of the old one; nothing else changes |
| `UsersRoleNorm.UsersRoutine.WriteNormalizedRoleFlags` | role_normalization/routine/users_role_norm.py:1027-1087 | With flags on and a non-empty batch, one upsert of the batch's flag tuples is recorded and its count returned; otherwise nothing happens and 0 is returned |
| `UsersRoleNorm.UsersRoutine.EnqueueNormalizedUserIds` | role_normalization/routine/users_role_norm.py:1091-1133 | Returns the number of distinct users. The message of distinct user ids is published only when enqueueing is on |
| `UsersRoleNorm.UsersRoutine.WriteBatches` | role_normalization/routine/users_role_norm.py:563-570 | The page's write loop applies every batch in order and sums the counts |
| `UsersRoleNorm.UsersRoutine.FlagBatches` | role_normalization/routine/users_role_norm.py:573-578 | The page's flag loop records one upsert per batch when flags are on and sums their counts |
| `UsersRoleNorm.UsersRoutine.QueueBatches` | role_normalization/routine/users_role_norm.py:581-586 | The page's enqueue loop sums the distinct users per batch and publishes one message per batch when enqueueing is on |
| `UsersRoleNorm.UsersRoutine.NormalizePage` | role_normalization/routine/users_role_norm.py:520-593 | One page, as it flows through the loop: 1) the AB-selected roles are normalized in API batches, and no more come back than were selected; 2) the normalized roles are written, flagged and enqueued in chunks of the write and queue sizes; 3) a zero queue size fails |
| `UsersRoleNorm.UsersRoutine.NormalizeRoles` | role_normalization/routine/users_role_norm.py:450-606 | The guards return `(0, 0, 0)` untouched. Otherwise all four counts come back and normalized ≤ to normalize ≤ total, where total is every row of every window. The reader ends done and closed. The call fails only for a zero queue size |
| `UsersRoleNorm.UsersRoutine.PageCounts` | role_normalization/routine/users_role_norm.py:520-593 | The counts a page adds: normalized ≤ selected ≤ page size |
| `UsersRoleNorm.UsersRoutine.ReadLoop` | role_normalization/routine/users_role_norm.py:496-593 | The read loop terminates. When it succeeds, the total is every row of every window, normalized ≤ to normalize ≤ total, and the reader ends done and closed |
| `UsersRoleNorm.UsersRoutine.RoleNormalization` | role_normalization/routine/users_role_norm.py:429-447 | Any other `norm_type` does nothing. The three-value guard return makes the four-name unpacking fail. Otherwise four counts are returned |
| `JobsRoleNorm.DateFilterStepsShape` | role_normalization/routine/jobs_role_norm.py:257-263 | 24 gap-free weekly windows from now back to 24 weeks ago |
| `JobsRoleNorm.RoleOfRow` | role_normalization/routine/jobs_role_norm.py:601-605 | A `(vag_id, titulo)` row becomes a role with no role id; the row is recovered from it |
| `JobsRoleNorm.RolesOfRows` | role_normalization/routine/jobs_role_norm.py:601-605 | One role per fetched row, in order |
| `JobsRoleNorm.IsPartOfAbTestGroup` | role_normalization/routine/jobs_role_norm.py:612-660 | True exactly when the id is non-zero, a group is set, the AB test is on and the AB API puts the job in that group |
| `JobsRoleNorm.NormalizedRoles` | role_normalization/routine/jobs_role_norm.py:665-726 | At most as many roles come back as were sent; any at all means a 200 reply |
| `JobsRoleNorm.NormalizedRolesMember` | role_normalization/routine/jobs_role_norm.py:708-719 | Each normalized role is an input role whose title the reply matched, with its role id set to that title's first id |
| `JobsRoleNorm.GetNormalizedRoles` | role_normalization/routine/jobs_role_norm.py:665-726 | The guard, the single API call and the merge loop compute `NormalizedRoles` |
| `JobsRoleNorm.ComposeWrite` | role_normalization/routine/jobs_role_norm.py:743-765 | No statements for an empty batch. Otherwise there is one insert row and one CASE arm per role, in order, keyed by job id and carrying the role id |
| `JobsRoleNorm.ApplyWrite` | role_normalization/routine/jobs_role_norm.py:730-815 | With writing off or an empty batch, the table is unchanged and the count is 0 |
| `JobsRoleNorm.ApplyWriteIdempotent` | role_normalization/routine/jobs_role_norm.py:730-815 | Writing a batch twice changes nothing the second time and counts 0 |
| `JobsRoleNorm.ApplyWriteRecord` | role_normalization/routine/jobs_role_norm.py:743-765 | After a batch with distinct job ids is written, each job holds its role's id |
| `JobsRoleNorm.ApplyWritesDisabled` | role_normalization/routine/jobs_role_norm.py:459-462 | With `WRITE_NORM_ROLE` off, the page's writes change nothing and count 0 |
| `JobsRoleNorm.FlagRowsMatchWrite` | role_normalization/routine/jobs_role_norm.py:851-858 | Each `(vag_id, cargo_id)` flag tuple is the key and role id of that role's written row |
| `JobsRoleNorm.QueueIds` | role_normalization/routine/jobs_role_norm.py:897 | `list(set(job ids))`: each job of the batch exactly once |
| `JobsRoleNorm.QueueMessageEvents` | role_normalization/routine/jobs_role_norm.py:897-912 | The message has one `{vag_id, new_status: 'A'}` event per job of the batch: no two events share a job, and every job has one |
| `JobsRoleNorm.JobsRoutine.constructor` | role_normalization/routine/jobs_role_norm.py:264-266 | The routine starts at window 0, query pending, not done, nothing flagged or enqueued |
| `JobsRoleNorm.JobsRoutine.GetRolesToNormalize` | role_normalization/routine/jobs_role_norm.py:504-607 | Nothing is read for a zero size. Otherwise the rows read grow by the page and the remaining work strictly decreases. The roles are `RolesOfRows` of exactly the rows this fetch consumed from the current window's result, and carry no role id yet |
| `JobsRoleNorm.JobsRoutine.WriteNormalizedRoles` | role_normalization/routine/jobs_role_norm.py:730-815 | The job table becomes `ApplyWrite` of the old one; nothing else changes |
| `JobsRoleNorm.JobsRoutine.WriteNormalizedRoleFlags` | role_normalization/routine/jobs_role_norm.py:819-879 | With flags on and a non-empty batch, one upsert of the batch's tuples is recorded and its count returned; otherwise 0 |
| `JobsRoleNorm.JobsRoutine.EnqueueNormalizedJobIds` | role_normalization/routine/jobs_role_norm.py:883-923 | Returns the number of distinct jobs. Their events are published only when enqueueing is on |
| `JobsRoleNorm.JobsRoutine.WriteBatches` | role_normalization/routine/jobs_role_norm.py:459-465 | The page's write loop applies every batch in order and sums the counts |
| `JobsRoleNorm.JobsRoutine.FlagBatches` | role_normalization/routine/jobs_role_norm.py:469-473 | One upsert per batch when flags are on, counts summed |
| `JobsRoleNorm.JobsRoutine.QueueBatches` | role_normalization/routine/jobs_role_norm.py:477-481 | The distinct jobs summed per batch, with one message per batch when enqueueing is on |
| `JobsRoleNorm.JobsRoutine.NormalizePage` | role_normalization/routine/jobs_role_norm.py:415-488 | One page: 1) the AB-selected roles are normalized in API batches, never more than were selected; 2) they are written, flagged and enqueued in chunks; 3) a zero queue size fails |
| `JobsRoleNorm.JobsRoutine.NormalizeRoles` | role_normalization/routine/jobs_role_norm.py:355-499 | The guards return `(0, 0, 0)` untouched. Otherwise normalized ≤ to normalize ≤ total, where total is every row of every window, and the reader ends done and closed. It fails only for a zero queue size |
| `JobsRoleNorm.JobsRoutine.PageCounts` | role_normalization/routine/jobs_role_norm.py:415-488 | The counts a page adds: normalized ≤ selected ≤ page size |
| `JobsRoleNorm.JobsRoutine.ReadLoop` | role_normalization/routine/jobs_role_norm.py:391-488 | The read loop terminates. On success the total is every row of every window, normalized ≤ to normalize ≤ total, and the reader ends done and closed |
| `JobsRoleNorm.JobsRoutine.RoleNormalization` | role_normalization/routine/jobs_role_norm.py:342-352 | The three-value guard return makes the unpacking fail. Otherwise four counts are returned |
| `RollbackBatching.PageRollbackTable` | role_normalization/routine/users_db_rollback.py:243-261 | A page's rollback statements leave the same table as one statement over all of the page's ids, or leave it unchanged with rollback off |
| `RollbackBatching.PageRollbackCount` | role_normalization/routine/users_db_rollback.py:243-261 | A page's reported count is at most what it changed, is 0 with rollback off, and is exact for a single chunk |
| `RollbackBatching.PageRollbackKeepsLastCount` | role_normalization/routine/jobs_db_rollback.py:196-214 | The loop keeps only the last statement's count: two chunks that each zero a record report 1, not 2 |
| `RollbackBatching.PageRollbackIdempotent` | role_normalization/routine/jobs_db_rollback.py:196-214 | Re-running a page's statements changes nothing and reports 0 |
| `RollbackBatching.PagesStep` | role_normalization/routine/users_db_rollback.py:218-264 | After one more page, the table is the rollback of all ids read so far, and the summed counts stay bounded by what that rollback changes |
| `RollbackBatching.MidnightFirst` | role_normalization/routine/users_db_rollback.py:86-112 | `00:00:00` is the first time of a day |
| `RollbackBatching.LastSecondLast` | role_normalization/routine/jobs_db_rollback.py:82-93 | `23:59:59` is the last time of a day |
| `RollbackBatching.LexLeSuffixes` | role_normalization/routine/users_db_rollback.py:86-112 | Same-length strings ordered position by position are ordered |
| `RollbackBatching.SameDayAtMidnight` | role_normalization/routine/users_db_rollback.py:86-112 | On one day, a time is at or before midnight only when it is midnight |
| `RollbackBatching.WholeDay` | role_normalization/routine/jobs_db_rollback.py:84-93 | Every time of a day lies between that day's `00:00:00` and `23:59:59` |
| `UsersDbRollback.FieldNamed` | role_normalization/routine/users_db_rollback.py:193-214 | Only `cv_role` and `work_exp_role` name a role type |
| `UsersDbRollback.ReadQueryRows` | role_normalization/routine/users_db_rollback.py:89-112 | A read query returns exactly the log rows in the date range whose `curexpprof_id` is 0 (CV) or non-zero (work experience) |
| `UsersDbRollback.EndDateOnlyMidnight` | role_normalization/routine/users_db_rollback.py:86-112 | With the shipped dates, a row updated on the end date is read only when it was updated at midnight exactly |
| `UsersDbRollback.IdsOfRows` | role_normalization/routine/users_db_rollback.py:405-414 | The ids rolled back for the roles read from some log rows are the keys those rows name |
| `UsersDbRollback.RollbackRoutine.constructor` | role_normalization/routine/users_db_rollback.py:165-179 | No cursor is open, and each read query is the log rows its condition selects |
| `UsersDbRollback.RollbackRoutine.GetSpecificRolesToRollback` | role_normalization/routine/users_db_rollback.py:321-381 | A cursor is opened if none is; `fetchmany(size)` returns the next at most `size` pending rows and consumes them; a zero size reads nothing |
| `UsersDbRollback.RollbackRoutine.GetRolesToRollback` | role_normalization/routine/users_db_rollback.py:275-317 | One page of the field's pending log rows as roles, consumed from the cursor |
| `UsersDbRollback.RollbackRoutine.RollbackRoles` | role_normalization/routine/users_db_rollback.py:385-477 | The field's table becomes the rollback of the roles' ids (unchanged with rollback off); the other table and the cursor do not change |
| `UsersDbRollback.RollbackRoutine.RollbackPage` | role_normalization/routine/users_db_rollback.py:237-261 | Every role of the page counts as to roll back, and the table and last count are `PageRollback` over the page's chunks |
| `UsersDbRollback.RollbackRoutine.RollbackReadPage` | role_normalization/routine/users_db_rollback.py:218-264 | One pass of the loop keeps the invariant: the table is the rollback of every row read so far |
| `UsersDbRollback.RollbackRoutine.SpecificRollback` | role_normalization/routine/users_db_rollback.py:183-271 | An unknown field or zero size gives `0` with nothing changed. Otherwise every pending row is counted and the field's table becomes the rollback of all their keys. The rolled-back count is bounded by what that changed (0 with rollback off) and the cursor is closed |
| `UsersDbRollback.RollbackRoutine.RoleNormalizationRollback` | role_normalization/routine/users_db_rollback.py:165-179 | A zero size makes the unpacking of the guard's `0` fail. Otherwise both tables are rolled back over all their log rows and both counts are returned |
| `UsersDbRollback.PageStep` | role_normalization/routine/users_db_rollback.py:243-264 | One more page keeps the loop invariant |
| `UsersDbRollback.KeysStep` | role_normalization/routine/users_db_rollback.py:243-261 | The keys of the rows read, then of a page, are the ids the page's chunks roll back |
| `JobsDbRollback.ReadQuery` | role_normalization/routine/jobs_db_rollback.py:245-248 | The query fails (a bare `WHERE`) exactly when a date is missing |
| `JobsDbRollback.ReadQueryRows` | role_normalization/routine/jobs_db_rollback.py:84-93 | The query returns exactly the log rows updated within the period |
| `JobsDbRollback.ShippedDayWhole` | role_normalization/routine/jobs_db_rollback.py:82-93 | With the shipped dates, every row updated on that day, at any time, is read |
| `JobsDbRollback.IdsOfRows` | role_normalization/routine/jobs_db_rollback.py:297-318 | The ids rolled back are the job ids of the rows read |
| `JobsDbRollback.RollbackRoutine.constructor` | role_normalization/routine/jobs_db_rollback.py:132-142 | No cursor is open, and the query is `ReadQuery` over the log |
| `JobsDbRollback.RollbackRoutine.GetRolesToRollback` | role_normalization/routine/jobs_db_rollback.py:228-301 | A zero size reads nothing, a failing query fails, and otherwise the next at most `size` rows come back as roles and are consumed |
| `JobsDbRollback.RollbackRoutine.RollbackRoles` | role_normalization/routine/jobs_db_rollback.py:305-360 | The table becomes the rollback of the roles' job ids; nothing for no roles |
| `JobsDbRollback.RollbackRoutine.RollbackPage` | role_normalization/routine/jobs_db_rollback.py:190-214 | Every role counts, and the table and last count are `PageRollback` over the page's chunks |
| `JobsDbRollback.RollbackRoutine.RollbackReadPage` | role_normalization/routine/jobs_db_rollback.py:171-217 | One pass of the loop keeps the invariant: the table is the rollback of every row read so far |
| `JobsDbRollback.RollbackRoutine.SpecificRollback` | role_normalization/routine/jobs_db_rollback.py:146-224 | A zero size gives `0` with nothing changed; a failing query fails. Otherwise every row is counted, the table becomes the rollback of all their job ids, the count is bounded by what that changed, and the cursor is closed |
| `JobsDbRollback.RollbackRoutine.RoleNormalizationRollback` | role_normalization/routine/jobs_db_rollback.py:132-142 | Guards and query errors fail. Otherwise the job table is rolled back over all its log rows and the to-rollback count is every row |
| `JobsDbRollback.PageStep` | role_normalization/routine/jobs_db_rollback.py:196-217 | One more page keeps the loop invariant |
| `JobsDbRollback.KeysStep` | role_normalization/routine/jobs_db_rollback.py:196-214 | The job ids of the rows read, then of a page, are the ids the page's chunks roll back |
| `ReplayLogRequests.LineOf` | role_normalization/api/tests/logs/replay_log_requests.py:115 | A kept line always has a response, `{}` when the row had none |
| `ReplayLogRequests.LogLinesSkipFirst` | role_normalization/api/tests/logs/replay_log_requests.py:106-116 | The lines are the usable rows after the first, in order |
| `ReplayLogRequests.FirstRowIgnored` | role_normalization/api/tests/logs/replay_log_requests.py:108-110 | Whatever the first data row holds, it does not change the lines |
| `ReplayLogRequests.ReadLogFile` | role_normalization/api/tests/logs/replay_log_requests.py:88-121 | The reading loop computes the lines, and the kept plus the invalid lines are every row but the first |
| `ReplayLogRequests.TitleReplay` | role_normalization/api/tests/logs/replay_log_requests.py:155-186 | An unmatched title gives `(uri, title, None, None)`. A kept match carries the first entry's truthy title and id. A title is skipped exactly when its first entry lacks either |
| `ReplayLogRequests.TitleReplaysOrder` | role_normalization/api/tests/logs/replay_log_requests.py:155-186 | The replays of a line are its kept titles, in order, all with the line's URI |
| `ReplayLogRequests.LineReplays` | role_normalization/api/tests/logs/replay_log_requests.py:148-153 | A line without titles yields nothing |
| `ReplayLogRequests.ReplaysBound` | role_normalization/api/tests/logs/replay_log_requests.py:139-186 | There are never more replays than titles |
| `ReplayLogRequests.ProcessLogLines` | role_normalization/api/tests/logs/replay_log_requests.py:124-199 | The processing loop computes the replays |
| `ReplayLogRequests.CandidateEntry` | role_normalization/api/tests/logs/replay_log_requests.py:245-250 | A local entry exists only for a 200 reply with a non-empty list for the title |
| `ReplayLogRequests.CandidateId` | role_normalization/api/tests/logs/replay_log_requests.py:245-255 | A local id is never 0, and there is none for an error or a non-200 reply |
| `ReplayLogRequests.Classify` | role_normalization/api/tests/logs/replay_log_requests.py:264-278 | Each pair of ids falls in exactly one category, and each category's condition holds in both directions |
| `ReplayLogRequests.Shown` | role_normalization/api/tests/logs/replay_log_requests.py:257-258 | The shown result is `-` exactly when there is no truthy id |
| `ReplayLogRequests.RecordOne` | role_normalization/api/tests/logs/replay_log_requests.py:264-278 | Recording a comparison stores it under the title in its category only, and adds one to the total exactly when the title is new there |
| `ReplayLogRequests.ReplayAllBound` | role_normalization/api/tests/logs/replay_log_requests.py:284 | Each of the five dicts lists every title once, and their total is at most the number of replays |
| `ReplayLogRequests.ReplayAllKeys` | role_normalization/api/tests/logs/replay_log_requests.py:202-280 | Every title in any dict was replayed |
| `ReplayLogRequests.ReplayAllDistinct` | role_normalization/api/tests/logs/replay_log_requests.py:284 | With distinct titles, the total is exactly the number of replays |
| `ReplayLogRequests.LastComparisonKept` | role_normalization/api/tests/logs/replay_log_requests.py:264-278 | Within each category, a title holds the comparison of its last replay in that category; a title replayed under two categories stays in both |
| `ReplayLogRequests.ReplayRequests` | role_normalization/api/tests/logs/replay_log_requests.py:202-280 | The replay loop computes `ReplayAll` |
| `AhoCorasickMatcher.FirstStart` | role_normalization/api/models/aho_corasick_matcher.py:106-112 | The earliest hit of a given size at or after `i`: it is a hit, and no earlier window of that size is one |
| `AhoCorasickMatcher.Longest` | role_normalization/api/models/aho_corasick_matcher.py:98-112 | The chosen window is a hit, none longer is, and none of its size starts earlier |
| `AhoCorasickMatcher.Matcher.constructor` | role_normalization/api/models/aho_corasick_matcher.py:21-57 | The automaton holds `;title;` for every main and similar title, and the blocklist is the configured one |
| `AhoCorasickMatcher.Matcher.Match` | role_normalization/api/models/aho_corasick_matcher.py:59-114 | The search loop answers the longest, then earliest, allowed run of the first 50 words that the automaton knows; an empty title has no match |
| `AhoCorasickMatcher.Dedup` | role_normalization/api/models/aho_corasick_matcher.py:81-88 | The ordered-dict dedup loop keeps each combination once, in order of first occurrence |
| `AhoCorasickMatcher.SortByLengthSorted` | role_normalization/api/models/aho_corasick_matcher.py:98 | `sort(key=len, reverse=True)` is longest first, stable within a length, and a permutation |
| `AhoCorasickMatcher.LongestFirstAppend` | role_normalization/api/models/aho_corasick_matcher.py:98 | Members of one length followed by shorter ones, themselves longest first, are longest first |
| `AhoCorasickMatcher.SortedDescending` | role_normalization/api/models/aho_corasick_matcher.py:98 | The sort output is longest first |
| `AhoCorasickMatcher.SortMembers` | role_normalization/api/models/aho_corasick_matcher.py:98 | The sort output holds only input members |
| `AhoCorasickMatcher.SortGroup` | role_normalization/api/models/aho_corasick_matcher.py:98 | The members of each length keep their relative order |
| `AhoCorasickMatcher.SortPermutation` | role_normalization/api/models/aho_corasick_matcher.py:98 | The sort neither loses nor adds members |
| `AhoCorasickMatcher.FilterOne` | role_normalization/api/models/aho_corasick_matcher.py:91-95 | Filtering a single element keeps it exactly when it passes |
| `AhoCorasickMatcher.RowOfLength` | role_normalization/api/models/aho_corasick_matcher.py:75-79 | Among the combinations starting at word `i`, the one of a given size is the window of that size, if it fits |
| `AhoCorasickMatcher.CombinationsOfLength` | role_normalization/api/models/aho_corasick_matcher.py:75-79 | The combinations of a given size are the windows of that size, left to right |
| `AhoCorasickMatcher.RowSizes` | role_normalization/api/models/aho_corasick_matcher.py:75-79 | Every combination of a row has 1 to 10 words |
| `AhoCorasickMatcher.CombinationSizes` | role_normalization/api/models/aho_corasick_matcher.py:75-79 | Every combination has 1 to 10 words |
| `AhoCorasickMatcher.SlidesFirstStart` | role_normalization/api/models/aho_corasick_matcher.py:106-112 | Scanning the windows of one size left to right finds the earliest hit |
| `AhoCorasickMatcher.GroupFirstStart` | role_normalization/api/models/aho_corasick_matcher.py:81-112 | After dedup and blocklist, the first combination of a size that is found is the earliest hit of that size |
| `AhoCorasickMatcher.CandidatesLongest` | role_normalization/api/models/aho_corasick_matcher.py:75-112 | The search over the sorted candidates finds the window `Longest` describes |
| `AhoCorasickMatcher.KeyOccursOnlyInItself` | role_normalization/api/models/aho_corasick_matcher.py:31-39 | With `;` around titles, one title's key occurs in another's only when the titles are equal |
| `AhoCorasickMatcher.FoundIffTitle` | role_normalization/api/models/aho_corasick_matcher.py:105-112 | The automaton finds a combination exactly when its space-join is a known title |
| `AhoCorasickMatcher.MatchIsKnownTitle` | role_normalization/api/models/aho_corasick_matcher.py:59-114 | A match is always one of the known titles. It is never a blocked word when the blocked words are single words, as the shipped blocklist (lines 41-49) is |
| `RoleMatcher.MappedIds` | role_normalization/api/models/role_matcher.py:58-77 | Every collected id is mapped from some filter perfil id |
| `RoleMatcher.MappedIdsComplete` | role_normalization/api/models/role_matcher.py:58-77 | Every id a filter perfil id maps to is collected |
| `RoleMatcher.FilteredIds` | role_normalization/api/models/role_matcher.py:58-77 | Without a filter the ids are kept as they are; with one, the result has no duplicates and holds only input ids |
| `RoleMatcher.FilteredIdsExact` | role_normalization/api/models/role_matcher.py:58-77 | With a filter, an id is kept exactly when it is an input id that some filter perfil id maps to |
| `RoleMatcher.FilterIds` | role_normalization/api/models/role_matcher.py:58-77 | The filtering loops compute `FilteredIds` |
| `RoleMatcher.FilterByPerfilIds` | role_normalization/api/models/role_matcher.py:40-56 | The same role with its three id lists filtered and every other field unchanged; without a filter, the role itself |
| `RoleMatcher.FirstWithTitleSnoc` | role_normalization/api/models/role_matcher.py:213-223 | Adding a role later never displaces an earlier role with the same title |
| `RoleMatcher.BuildMappings` | role_normalization/api/models/role_matcher.py:213-223 | A main title maps to the first main role with that title. A similar title maps to the first similar role only when it is not a main title |
| `RoleMatcher.Matcher.Lookup` | role_normalization/api/models/role_matcher.py:408-409 | A role is found exactly when the title is in either mapping, and the main mapping wins |
| `RoleMatcher.Matcher.Accept` | role_normalization/api/models/role_matcher.py:410-453 | Without a filter, the role with its match type. With one, no role and no type when the perfil ids are disjoint from the filter. A missing role under a filter fails (`None.perfil_ids`) |
| `RoleMatcher.Matcher.NormalizeAndMatch` | role_normalization/api/models/role_matcher.py:384-455 | The normalized title comes back. A database match means the title is known. An Aho-Corasick match means it is not known and the automaton found a run. A Word2Vec match means neither matched. Failure needs a filter and an unknown title |
| `RoleMatcher.ExactTitleWins` | role_normalization/api/models/role_matcher.py:408-419 | A known normalized title is answered by the database match, and no later matcher is tried |
| `RoleMatcher.DisjointFilterStops` | role_normalization/api/models/role_matcher.py:410-447 | When the first matcher to find a role (database, Aho-Corasick or Word2Vec) finds one whose perfil ids miss the filter, the answer is no role and no type, and no later matcher is tried |
| `RoleMatcher.RoleIffMatchType` | role_normalization/api/models/role_matcher.py:384-455 | When no known title and no normalized title contains `;`, the call does not fail, and a role is reported exactly when a match type is |
| `RoleNormalizer.Singletons` | role_normalization/api/models/role_normalizer.py:387 | `list(s)`: one one-character string per character |
| `RoleNormalizer.BisectLeft` | role_normalization/api/models/role_normalizer.py:481-484 | `bisect_left` returns an index within `[lo, hi]` |
| `RoleNormalizer.LexLeLt` | role_normalization/api/models/role_normalizer.py:481-484 | String order: `a ≤ b < c` gives `a < c` |
| `RoleNormalizer.BisectLeftSplits` | role_normalization/api/models/role_normalizer.py:481-484 | On a sorted list, everything before the index is below `x` and nothing after it is |
| `RoleNormalizer.InSortedList` | role_normalization/api/models/role_normalizer.py:481-484 | A yes is always right |
| `RoleNormalizer.InSortedListIff` | role_normalization/api/models/role_normalizer.py:481-484 | On a sorted list the binary search answers exactly membership |
| `RoleNormalizer.TransformText` | role_normalization/api/models/role_normalizer.py:487-491 | The replacement loop computes `Transformed` |
| `RoleNormalizer.TransformedRemoves` | role_normalization/api/models/role_normalizer.py:487-491 | Replacing one-character symbols by text without them leaves none of them |
| `RoleNormalizer.LineBreaksRemoved` | role_normalization/api/models/role_normalizer.py:372 | After the line-break step no `\r` or `\n` is left |
| `RoleNormalizer.SpecialCharactersRemoved` | role_normalization/api/models/role_normalizer.py:387 | After the special-symbol step no special character is left |
| `RoleNormalizer.PaddedSnoc` | role_normalization/api/models/role_normalizer.py:472-473 | `text += w + ' '` appends one padded word |
| `RoleNormalizer.PaddedSplit` | role_normalization/api/models/role_normalizer.py:457-478 | The padded words split back into the same words |
| `RoleNormalizer.JoinEnds` | role_normalization/api/models/role_normalizer.py:396-400 | Words joined by spaces neither start nor end with whitespace |
| `RoleNormalizer.PaddedJoin` | role_normalization/api/models/role_normalizer.py:457-478 | The padded words are the space-join plus one trailing space |
| `RoleNormalizer.PaddedStrip` | role_normalization/api/models/role_normalizer.py:396-400 | Stripping the padded words gives them joined by single spaces |
| `RoleNormalizer.NormalizeByReplace` | role_normalization/api/models/role_normalizer.py:516-524 | The loop computes `ByReplace` |
| `RoleNormalizer.MapWords` | role_normalization/api/models/role_normalizer.py:516-524 | A word-to-word function maps words to words |
| `RoleNormalizer.ByReplaceWords` | role_normalization/api/models/role_normalizer.py:516-524 | With single-word values, the result has the input's words in order, each mapped word replaced |
| `RoleNormalizer.CorrectTypos` | role_normalization/api/models/role_normalizer.py:457-478 | Each word, or its top suggestion when outside the dictionary, each followed by a space |
| `RoleNormalizer.CorrectTyposWords` | role_normalization/api/models/role_normalizer.py:457-478 | With single-word suggestions, the word count is kept and dictionary words are unchanged |
| `RoleNormalizer.Tokens` | role_normalization/api/models/role_normalizer.py:185-186 | Splitting a line at commas gives at least one token |
| `RoleNormalizer.LoadStopwords` | role_normalization/api/models/role_normalizer.py:141-149 | The loading loop computes `LoadedStopwords` |
| `RoleNormalizer.LoadedStopwordsExact` | role_normalization/api/models/role_normalizer.py:141-149 | A word is loaded exactly when it is the stripped form of a non-comment line |
| `RoleNormalizer.StopWords` | role_normalization/api/models/role_normalizer.py:69-70 | The loaded words without `sem`, plus `in`, `of` and `on` |
| `RoleNormalizer.PutAll` | role_normalization/api/models/role_normalizer.py:189-191 | Every listed key maps to `v`, other keys keep their value, and no other key appears |
| `RoleNormalizer.LoadConjugationMapping` | role_normalization/api/models/role_normalizer.py:178-192 | The loading loop computes `Conjugations` |
| `RoleNormalizer.ConjugationFromLastLine` | role_normalization/api/models/role_normalizer.py:178-192 | A conjugated form maps to the base verb of the last valid line listing it |
| `RoleNormalizer.ConjugationKeysFromLines` | role_normalization/api/models/role_normalizer.py:178-192 | Every mapped form is listed after the base verb on some valid line |
| `RoleNormalizer.LoadPluralMapping` | role_normalization/api/models/role_normalizer.py:195-218 | The skip-mark rule first, one ending rule per valid line in order, and the mark-removal rule last |
| `RoleNormalizer.PluralStep` | role_normalization/api/models/role_normalizer.py:195-218 | One more line adds its ending rule exactly when it is valid |
| `RoleNormalizer.PluralRulesShape` | role_normalization/api/models/role_normalizer.py:195-218 | Two rules more than valid lines, marks at both ends, ending rules between |
| `RoleNormalizer.SplitAny` | role_normalization/api/models/role_normalizer.py:230-235 | At least one piece, and no piece holds a separator |
| `RoleNormalizer.CollectRoleWords` | role_normalization/api/models/role_normalizer.py:236-240 | The role-word loop computes `RoleWords` |
| `RoleNormalizer.LoadLocations` | role_normalization/api/models/role_normalizer.py:221-242 | Each location word once, and exactly those that are not role words |
| `RoleNormalizer.RoleWordsComplete` | role_normalization/api/models/role_normalizer.py:236-240 | Every role word of every title is collected |
| `RoleNormalizer.LocationsAvoidRoleWords` | role_normalization/api/models/role_normalizer.py:221-242 | No cleaned title word of two or more characters, other than a stop word, is a location |
| `RoleNormalizer.FilterWords` | role_normalization/api/models/role_normalizer.py:396-400 | Filtering words keeps words |
| `RoleNormalizer.RemoveStopWordsClean` | role_normalization/api/models/role_normalizer.py:396-400 | The other words stay in order, and no stop word survives |
| `RoleNormalizer.RemoveLocationsClean` | role_normalization/api/models/role_normalizer.py:418-423 | With sorted locations, no location word survives |
| `RoleNormalizer.SqueezeSpaces` | role_normalization/api/models/role_normalizer.py:382 | No two spaces in a row, never longer, same first character |
| `RoleNormalizer.Normalizer.Rewritten` | role_normalization/api/models/role_normalizer.py:507-513 | The result has no surrounding whitespace; with no rules it is the stripped input |
| `RoleNormalizer.Normalizer.NormalizeByMapping` | role_normalization/api/models/role_normalizer.py:507-513 | The loop computes `Rewritten` |
| `RoleNormalizer.Normalizer.ExtractSeniorities` | role_normalization/api/models/role_normalizer.py:409-415 | The words that are seniorities and those that are hierarchies, in order |
| `RoleNormalizer.Normalizer.Normalize` | role_normalization/api/models/role_normalizer.py:330-454 | An empty title gives `('', [], [])`. Otherwise the seniorities and hierarchies are those of the prepared text, and the title is the finished text |
| `RoleNormalizer.Normalizer.Prepare` | role_normalization/api/models/role_normalizer.py:365-405 | The steps up to the seniority extraction compute `Prepared` |
| `RoleNormalizer.Normalizer.Finish` | role_normalization/api/models/role_normalizer.py:418-451 | The steps after it compute `Finished` |
| `RoleNormalizer.SenioritiesExact` | role_normalization/api/models/role_normalizer.py:409-415 | Each seniority or hierarchy word is extracted as often as it occurs, and nothing else is |
| `RoleNormalizerEvents.FetchAll` | role_normalization/api/events/role_normalizer_events.py:41-55 | One to three tries; the first success is returned; a failure means three failed tries |
| `RoleNormalizerEvents.TallyChosenInvariant` | role_normalization/api/events/role_normalizer_events.py:378-399 | The counter is the count of the chosen role, or 0 with no counted role |
| `RoleNormalizerEvents.TallyBoundsInvariant` | role_normalization/api/events/role_normalizer_events.py:378-399 | No counted role seen so far occurs more often than the counter |
| `RoleNormalizerEvents.TallyFirstEarlier` | role_normalization/api/events/role_normalizer_events.py:390-396 | A tie before the last position keeps the earlier choice |
| `RoleNormalizerEvents.TallyFirstLast` | role_normalization/api/events/role_normalizer_events.py:390-396 | A tie at the last position is the role just chosen or an earlier one |
| `RoleNormalizerEvents.TallyFirstInvariant` | role_normalization/api/events/role_normalizer_events.py:378-399 | No role as frequent as the chosen one occurs before it |
| `RoleNormalizerEvents.MostFrequentIsEarliestMode` | role_normalization/api/events/role_normalizer_events.py:378-399 | `_most_frequent` is 0 without counted roles, and otherwise the earliest of the most frequent non-zero roles |
| `RoleNormalizerEvents.MostFrequent` | role_normalization/api/events/role_normalizer_events.py:378-399 | The counting loop computes `MostFrequentOf` |
| `RoleNormalizerEvents.StrKeyedKeys` | role_normalization/api/events/role_normalizer_events.py:181-189 | Every key of the role dict is a str |
| `RoleNormalizerEvents.StrKeyedDomain` | role_normalization/api/events/role_normalizer_events.py:181-189 | The keys are exactly the `str(id)` of the rows |
| `RoleNormalizerEvents.StrKeyedLastWins` | role_normalization/api/events/role_normalizer_events.py:209-217 | Each key holds the role of the last row with that id |
| `RoleNormalizerEvents.KeyByStrId` | role_normalization/api/events/role_normalizer_events.py:181-189 | The dict loop computes `StrKeyed` |
| `RoleNormalizerEvents.GetJobsRoles` | role_normalization/api/events/role_normalizer_events.py:163-189 | `{}` for no ids, else the job rows keyed by `str(vag_id)` |
| `RoleNormalizerEvents.GetUsrsRoles` | role_normalization/api/events/role_normalizer_events.py:191-217 | `{}` for no ids, else the user rows keyed by `str(usr_id)` |
| `RoleNormalizerEvents.GroupedJobs` | role_normalization/api/events/role_normalizer_events.py:153-161 | The contact dict lists each job once, in order of its first row |
| `RoleNormalizerEvents.GroupedUsers` | role_normalization/api/events/role_normalizer_events.py:153-161 | Each job holds its users in row order; a job missing from the dict has no row |
| `RoleNormalizerEvents.GroupedStep` | role_normalization/api/events/role_normalizer_events.py:153-161 | One more row appends its user to its job's list, or starts the list |
| `RoleNormalizerEvents.GetJobsContacts` | role_normalization/api/events/role_normalizer_events.py:127-161 | `{}` for no ids, else the contact rows grouped per job |
| `RoleNormalizerEvents.Requested` | role_normalization/api/events/role_normalizer_events.py:249-251 | The empty list for no ids, else the API's answer |
| `RoleNormalizerEvents.CollectIds` | role_normalization/api/events/role_normalizer_events.py:427-434 | One field of every apply, id by id in response order |
| `RoleNormalizerEvents.KnownNone` | role_normalization/api/events/role_normalizer_events.py:436-451 | Nothing is found when no key is in the dict |
| `RoleNormalizerEvents.KnownRoles` | role_normalization/api/events/role_normalizer_events.py:436-451 | The lookup loop computes `Known` |
| `RoleNormalizerEvents.NormalizeUsrIds` | role_normalization/api/events/role_normalizer_events.py:401-454 | `[]` for no ids. The call fails exactly when the API gives the empty list. Otherwise there is one `[str(id), role]` per id in order, the role being the most frequent known role of the user's applied jobs, or 0 |
| `RoleNormalizerEvents.ContactsRoles` | role_normalization/api/events/role_normalizer_events.py:491-504 | The loop computes `ContactRoles` |
| `RoleNormalizerEvents.ContactSplitFound` | role_normalization/api/events/role_normalizer_events.py:491-504 | The contact loop finds exactly the jobs whose contacts have a known role, in order |
| `RoleNormalizerEvents.ContactSplitLeft` | role_normalization/api/events/role_normalizer_events.py:491-504 | It leaves every other job, in order, for the apply path |
| `RoleNormalizerEvents.ContactSplitInferred` | role_normalization/api/events/role_normalizer_events.py:491-504 | It infers each found job's role from its contacts |
| `RoleNormalizerEvents.ContactPhase` | role_normalization/api/events/role_normalizer_events.py:491-504 | The contact loop computes the found jobs, their inferred pairs and the remaining jobs |
| `RoleNormalizerEvents.ContactPathFindsNothing` | role_normalization/api/events/role_normalizer_events.py:483-504 | The user roles are keyed by `str` and the contacts are `int`, so the contact path finds nothing and every job goes to the apply path |
| `RoleNormalizerEvents.ApplicantRoles` | role_normalization/api/events/role_normalizer_events.py:521-536 | The loop computes `ApplyRoles` |
| `RoleNormalizerEvents.ApplyPhase` | role_normalization/api/events/role_normalizer_events.py:521-536 | One pair per job in order, and found exactly the jobs with a known applicant role |
| `RoleNormalizerEvents.ZeroPairsMissing` | role_normalization/api/events/role_normalizer_events.py:538-540 | `[job, 0]` for every job not found, in order |
| `RoleNormalizerEvents.AppendMissing` | role_normalization/api/events/role_normalizer_events.py:538-540 | The final sweep appends `[job, 0]` for each job not found |
| `RoleNormalizerEvents.MissingIsNoApplyRole` | role_normalization/api/events/role_normalizer_events.py:521-540 | A job is missing from the found ones exactly when it has no applicant role |
| `RoleNormalizerEvents.EveryJobAppears` | role_normalization/api/events/role_normalizer_events.py:456-542 | Every input job appears, in input order at the front, and nothing else does |
| `RoleNormalizerEvents.JobWithoutRoleTwice` | role_normalization/api/events/role_normalizer_events.py:521-540 | A job without an applicant role is listed as `[job, 0]` twice per occurrence: once by the apply loop and once by the final sweep |
| `RoleNormalizerEvents.NormalizeJobIds` | role_normalization/api/events/role_normalizer_events.py:456-542 | `[]` for no ids. The call fails exactly when the API gives the empty list. Otherwise the result is the apply-based inference over every job |
| `RoleNorm.StripUnspaced` | role_normalization/api/role_norm.py:43 | `int()` ignores surrounding whitespace |
| `RoleNorm.ParsedIdsFailure` | role_normalization/api/role_norm.py:41-45 | Pieces after the first bad one do not change the error |
| `RoleNorm.ParsedIdsMeaning` | role_normalization/api/role_norm.py:41-46 | Parsing succeeds exactly when every piece parses, giving one id per piece. Otherwise the error names the first bad piece |
| `RoleNorm.PerfilIdsValidation` | role_normalization/api/role_norm.py:36-46 | The validator loop computes `PerfilFilter` |
| `RoleNorm.DigitsValueOfNat` | role_normalization/api/role_norm.py:43 | A natural number's decimal digits are digits and read back as it |
| `RoleNorm.ParseStrippedDigits` | role_normalization/api/role_norm.py:43 | A digit run, with or without `-`, parses to its value |
| `RoleNorm.DigitRunStartsWithDigit` | role_normalization/api/role_norm.py:43 | A digit run starts with a digit |
| `RoleNorm.ParseIntDigits` | role_normalization/api/role_norm.py:43 | `int()` of a digit run is its value |
| `RoleNorm.ParseIntNegativeDigits` | role_normalization/api/role_norm.py:43 | `int()` of a negated digit run is its negation |
| `RoleNorm.ParseIntOfString` | role_normalization/api/role_norm.py:43 | `int(str(n)) == n` |
| `RoleNorm.SplitOnWhole` | role_normalization/api/role_norm.py:41 | A piece without the separator splits to itself |
| `RoleNorm.SplitOnFirst` | role_normalization/api/role_norm.py:41 | Splitting peels off the first piece |
| `RoleNorm.SplitOnJoin` | role_normalization/api/role_norm.py:41 | Separator-free pieces joined by the separator split back into themselves |
| `RoleNorm.SplitJoinedIds` | role_normalization/api/role_norm.py:41 | A comma-joined id list is non-empty and splits back into the id strings |
| `RoleNorm.ParsedIdsAll` | role_normalization/api/role_norm.py:41-46 | When every piece parses to its id, the ids come back |
| `RoleNorm.ParsedIdsOfStrings` | role_normalization/api/role_norm.py:41-46 | The `str` of ids parse back to the ids |
| `RoleNorm.PerfilIdsRoundTrip` | role_normalization/api/role_norm.py:36-46 | A comma-joined id list validates to the same ids |
| `RoleNorm.SeparatorAt` | role_normalization/api/role_norm.py:161 | The length of a separator starting the text (0 for none), never past its end |
| `RoleNorm.SplitTitle` | role_normalization/api/role_norm.py:188 | At least one part, and the first part is a prefix of the title |
| `RoleNorm.CutSeparators` | role_normalization/api/role_norm.py:188 | One separator between consecutive parts, each a title separator |
| `RoleNorm.InterleaveCons` | role_normalization/api/role_norm.py:188 | Interleaving after one leading character prepends it |
| `RoleNorm.SplitTitleRejoins` | role_normalization/api/role_norm.py:188 | The parts interleaved with the cut separators give back the title |
| `RoleNorm.SeparatorAtPrefix` | role_normalization/api/role_norm.py:161 | A text starting with a separator is cut there |
| `RoleNorm.SplitTitleClean` | role_normalization/api/role_norm.py:188 | No part contains a separator |
| `RoleNorm.Entry` | role_normalization/api/role_norm.py:200-211 | `perfil_ids` appears exactly when a filter is given; `match_type` only when asked for, and then it is the matcher's type |
| `RoleNorm.PrependNothing` | role_normalization/api/role_norm.py:185-212 | Prepending no entries changes nothing |
| `RoleNorm.MatchTitle` | role_normalization/api/role_norm.py:185-212 | The loop over a title's parts computes `TitleRoles` |
| `RoleNorm.NormalizeRoles` | role_normalization/api/role_norm.py:175-225 | The call fails exactly when the body fails. Otherwise the response body is `BodyFrom` over the titles, and the status is 200 exactly when the body is non-empty |
| `RoleNorm.TitleRolesFails` | role_normalization/api/role_norm.py:188-212 | A title fails exactly when one of its parts fails to match |
| `RoleNorm.TitleRolesExact` | role_normalization/api/role_norm.py:188-212 | A title's entries are those of its matched parts, in order |
| `RoleNorm.MatcherTyped` | role_normalization/api/role_norm.py:191-209 | Whenever the role matcher reports a role, it also reports a match type (the converse, under the matchers' known-title conditions, is `RoleMatcher.RoleIffMatchType`) |
| `RoleNorm.EntryFields` | role_normalization/api/role_norm.py:200-211 | Every entry has a match type exactly when asked for, and perfil ids exactly with a filter |
| `RoleNorm.BodyFromValid` | role_normalization/api/role_norm.py:215-216 | The response dict lists each title once |
| `RoleNorm.BodyFromMatched` | role_normalization/api/role_norm.py:185-216 | Every title of a request that succeeds has a role list: matching none of its parts failed |
| `RoleNorm.BodyFromTitle` | role_normalization/api/role_norm.py:185-216 | A title is in the response exactly when it was requested and has at least one matched part, or was already there. A requested title with matched parts holds its entries; an earlier title not requested again keeps its own |
| `RoleNorm.OnPost` | role_normalization/api/role_norm.py:163-173 | 1 to 1000 titles are required. A bad `perfil_ids` gives its validation error. Otherwise it gives the body over the titles with `match_type` only when it is `true`, and status 200 exactly when the body is non-empty |

## Left out

- Logging, `tqdm` progress bars and the replay script's percentages are not modelled. They print and do not change any
  result.
- MySQL, the Role Normalization API, the AB test API, the events API and RabbitMQ are parameters. Each is a function
  from the query or request to its rows or reply. Connection handling, `DbConnection.check` and reconnects are not
  modelled.
- Retries (`tenacity`) and their waits are not modelled. For `fetch_all`, only the number of attempts is kept.
- The regex substitutions of the mapping files are left as the `substitute` parameter of `Normalizer`. So are the
  SymSpell lookup, Unicode decomposition, `_fix_encoding` and the RSLP stemmer. Building the patterns in
  `_load_mapping` and creating the spell checker (`_extract_and_add_to_dictioary`) are not modelled.
- `pickle`/`gzip` loading, `lru_cache` and `settings.py` are not modelled. The settings become parameters.
- The file and database reads in `RoleMatcher.__init__` are not modelled; the mappings are built from given role lists.
- The Word2Vec matcher is a function parameter. `w2v_matcher.py` is not part of this model.
- The Aho-Corasick automaton is not modelled as a data structure. It is the set of its words, searched as "some word
  occurs in the needle".
- `batch_fetch_all` is not modelled. It is never called, and as written it would fail on its own arguments.
- Argument parsing and `main` are not modelled.
- The shuffle and the `non_norm_titles.txt` output of the replay script are not modelled.
- JSON decoding is not modelled. Requests and responses are given already decoded.
- Python's `int()` also accepts non-ASCII decimal digits; the model accepts ASCII digits, `_` between digits, a sign
  and surrounding whitespace only.
- Pydantic/spectree validation failures are not modelled in detail. Each is a `Failure` carrying one fixed message. When
  both the query and the payload are invalid, only the payload error is reported.
- A missing `perfil_ids` query parameter is treated like an empty one.
- `normalize`'s guard against a non-`str` title is modelled as the empty-string case, because titles are typed as
  strings.
- The order of `list(set(…))` is arbitrary in Python. The model picks order of first occurrence for queue messages,
  `_load_locations` and `_filter_ids`; the contracts state only membership and distinctness there.
- In `_load_locations`, `re.split` is modelled as a split at any single separator character. The escaped `\t` alternative
  of the pattern is read as the tab character.
- Batch sizes are natural numbers, so negative sizes are not modelled. In the source, a negative write, flag or queue
  batch size makes `range(0, n, -k)` empty, so the page writes, flags and enqueues nothing. A negative API batch size
  never equals a batch's length, so all selected titles of a page go out in one final batch.
- `ab_test.py`, `role_norm_events.py`, `events_api.py`, `check_thesaurus.py` and the gunicorn configuration files are
  not part of this model. The AB test service is a parameter.
- UsersDbRollback.RollbackRoutine.SpecificRollback: the rolled-back count is only bounded by the records the rollback
  changed, not exact. The loop keeps only each page's last statement count (`PageRollbackKeepsLastCount` shows the
  gap).
- JobsDbRollback.RollbackRoutine.SpecificRollback: the rolled-back count is only bounded, for the same reason.
- UsersRoleNorm.UsersRoutine.NormalizeRoles: states the four counts and the final reader state. What each page writes,
  flags and enqueues is stated in `NormalizePage`, not summed over pages.
- JobsRoleNorm.JobsRoutine.NormalizeRoles: the same as the users routine.
- RoleNormalizer.Tokens: `line.lower()` lowers only the ASCII and Latin-1 capitals. Python's `str.lower()` lowers
  every Unicode capital (Greek, Cyrillic, the Latin Extended blocks and more). Whitespace is Python's full set.
- RoleNormalizer.Normalizer.Normalize: the lowering step, and the one in the location loader's word cleaning
  (`CleanWord`), cover only the ASCII and Latin-1 capitals. `TÉCNICO` becomes `técnico` as in Python, but a capital
  outside Latin-1 passes unchanged into the later steps.
- RoleNormalizer.Normalizer.Prepare: the same lowering limit as `Normalize`.
- UsersRoleNorm.ComposeWrite: a role without a role id is written as 0. The source would put the token `None` into the
  SQL, which MySQL rejects. The routine never passes such a role: every normalized role carries the reply's first id
  (`UsersRoleNorm.NormalizedRolesMember`).
- JobsRoleNorm.ComposeWrite: the same as for users (`JobsRoleNorm.NormalizedRolesMember`).
- RoleTable.InsertRecord: a batch that repeats a key is inserted row by row, so the second row with that key is skipped.
  MySQL evaluates the `NOT EXISTS` subquery of one `INSERT … SELECT` against the table as it was before the statement.
  Both rows would then be inserted, or, with a unique key on the column, the statement fails. Batches whose keys are
  distinct, which `RoleTable.WrittenDistinctKeys` covers, behave the same in both.
- Exceptions from outside services are not modelled. MySQL, the Role Normalization API, the AB test API, RabbitMQ and
  the events API always answer in the model. In the source, a failure is logged and re-raised (users_role_norm.py
  599-602, 740-747, 872-875, 1013-1016, 1077-1080, 1128-1131; role_normalizer_events.py 280-282, 372-374, after
  `fetch_all`'s third failure). That aborts the routine part-way, after earlier pages were already written. This
  affects `UsersRoleNorm.UsersRoutine.RoleNormalization`, `JobsRoleNorm.JobsRoutine.RoleNormalization`, the two
  `RoleNormalizationRollback` routines, `RoleNormalizerEvents.NormalizeUsrIds` and
  `RoleNormalizerEvents.NormalizeJobIds`. The two events functions take the query answers directly, not through
  `RoleNormalizerEvents.FetchAll`.
