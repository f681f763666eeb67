# Push-notification fan-out and drain queue

This project models the queue at the heart of `PushNotificationController`. Sending a notification to a country writes one `push_notifications` row, then fans it out into one `notification_devices` row per eligible device, inserted chunk by chunk inside a transaction. A periodic cron run drains the queued rows with LIMIT/OFFSET pages, calls the transport once per row and totals sent and failed counts per notification. A details query reports per-status counts for one notification.

Files:

- `schema.dfy` (module `Schema`): the table rows, the status codes 0–3 (Queued, In-Progress, Sent, Failed), the 50-character title limit and the result records.
- `sequences.dfy` (module `Sequences`): filtering, `array_chunk` (`Chunk`), flattening and chunk offsets.
- `queries.dfy` (module `Queries`): each SQL statement as a function over in-memory tables:
  - the device selection;
  - the rows the insert loop writes;
  - the drain query, as a stable sort on `created_at` of the queued, joinable rows, and its LIMIT/OFFSET page;
  - the details query, as written and as documented.
- `aggregation.dfy` (module `Aggregation`): reference counts for the cron result, and the cron `foreach` as the method `Tally`, which works over a dictionary keyed by notification id.
- `store.dfy` (module `NotificationStore`): the class `Store`. Its fields are the two tables and the auto-increment counter. Its methods are the send action, the drain loop and the cron run. Three scenario methods call the send action on concrete inputs.

Each oracle is a parameter:

- `insertOk(m)`: whether delivery insert number `m` of a send call succeeds.
- `send(i)`: what transport call number `i` returns.
- `CHUNK_SIZE` and `USERS_LIMIT` become `chunkSize` and `limit`.
- The creation time becomes `now`.
- The devices and users tables are not owned by the controller, so they are passed in as a `Directory` or a device list.

The model follows the code as written. In particular, the code does the following, and lacks what a reader might expect:

- The notification row is inserted before `beginTransaction`. A failed delivery insert therefore rolls back only the delivery rows, and the notification row stays.
- The drain has no device cap. `limit` is only the page size, and the loop returns every queued row.
- Nothing claims rows (Queued → In-Progress), and the cron run writes no status back. `Cron` has no `modifies` clause at all.
- Title and message are not validated. A title over 50 characters fails only at the database.
- `details` fetches one row of a GROUP BY over status, so it returns a single status group, not four buckets.

## Model

| member | source | states |
|---|---|---|
| Sequences.Filter | app/Controllers/PushNotificationController.php:54-57 | a WHERE clause keeps exactly the rows meeting it, in order, and no more rows than the table has |
| Queries.Eligible | app/Controllers/PushNotificationController.php:54-62 | the device SELECT returns no more devices than the table holds, and every device it returns is unexpired and belongs to a user in the country |
| Queries.EligibleSelectsExactly | app/Controllers/PushNotificationController.php:54-62 | a device is selected iff it is unexpired and its user is in the country; each selected device appears as often as in the devices table |
| Sequences.ChunkSizes | app/Controllers/PushNotificationController.php:89-91 | array_chunk pieces are non-empty and hold at most k devices; all but the last hold exactly k |
| Sequences.Chunk | app/Controllers/PushNotificationController.php:91 | array_chunk of an empty list is empty and of a non-empty one non-empty, with no more chunks than devices |
| Sequences.FlattenChunk | app/Controllers/PushNotificationController.php:91-100 | concatenating the chunks gives back the device list, so the nested loops visit every device once, in order |
| Sequences.ChunkPiece | app/Controllers/PushNotificationController.php:94-95 | chunk i is the slice of the device list starting at its offset, and the offsets advance by chunk length |
| Sequences.ChunksEnd | app/Controllers/PushNotificationController.php:94-100 | the chunk offsets end at the length of the device list |
| Queries.FanOutRowsShape | app/Controllers/PushNotificationController.php:80-99 | one row per selected device, in selection order, each with the new notification id and status Queued |
| Queries.FanOutRows | app/Controllers/PushNotificationController.php:80-99 | the insert loop writes exactly one row per selected device |
| Queries.FanOutRowsAppend | app/Controllers/PushNotificationController.php:94-100 | the rows for two device lists in turn are the rows for their concatenation |
| Queries.FanOutRowsSnoc | app/Controllers/PushNotificationController.php:95-98 | one more insert adds exactly the row for the next device |
| Queries.FanOutRowsQueued | database/migrations/20240110071917_notification_devices.php:13 | new rows take the column default 0, so every status stays among the four codes |
| NotificationStore.Store.InsertChunk | app/Controllers/PushNotificationController.php:95-99 | inserts the chunk's rows in order and stops at the first failing insert; the table grows by the rows of exactly the devices inserted |
| NotificationStore.Store.InsertDeliveries | app/Controllers/PushNotificationController.php:89-100 | success iff every insert of the selection succeeds; on failure the rows of the devices before the failing insert are present; on success the rows of all devices |
| NotificationStore.Store.SendByCountryId | app/Controllers/PushNotificationController.php:48-121 | an over-long title writes nothing; otherwise the notification row is appended with the next id; success iff chunk size ≥ 1 and every delivery insert succeeds; then the table gains the fan-out rows; on failure the delivery table is restored but the notification row stays; after success, details reports the new notification with one queued row per selected device, or not found when none was selected |
| NotificationStore.Store.SendByCountryIdAtomic | app/Controllers/PushNotificationController.php:65-117 | corrected send: on any failure both tables are unchanged; on success as above, including the details report |
| NotificationStore.OrphanedNotification | app/Controllers/PushNotificationController.php:69-116 | one eligible device whose insert fails: the send reports failure, and one notification row remains with no delivery rows |
| NotificationStore.NoOrphanWhenAtomic | app/Controllers/PushNotificationController.php:86-116 | the same call against the corrected send leaves both tables empty |
| NotificationStore.Store.DetailsOfStore | app/Controllers/PushNotificationController.php:143-171 | in every reachable store state, a found notification has an id the store handed out and exactly one non-empty bucket, and the corrected buckets add up to its rows |
| NotificationStore.CreatedReportsQueued | app/Controllers/PushNotificationController.php:77-99 | a notification above every earlier id, right after its fan-out, is reported with all its rows queued, or not found with no device |
| NotificationStore.NoEligibleDevices | app/Controllers/PushNotificationController.php:62-110 | with no eligible device, a notification row is created, no delivery row is, and success is returned with the new id |
| Queries.FindNotification | app/Controllers/PushNotificationController.php:269 | the join finds a row with the requested id iff the table has one |
| Queries.FindDevice | app/Controllers/PushNotificationController.php:270 | the join finds a device with the requested id iff the table has one |
| Queries.JoinRows | app/Controllers/PushNotificationController.php:267-270 | one candidate per queued row, in order, each carrying its notification's title and message and its device's token |
| Queries.SortByCreatedAt | app/Controllers/PushNotificationController.php:272 | ORDER BY created_at gives an ordered permutation of the rows |
| Queries.QueuedView | app/Controllers/PushNotificationController.php:267-272 | the unpaged drain query is ordered oldest first and is a permutation of the joined, queued rows |
| Queries.QueuedViewIsQueue | app/Controllers/PushNotificationController.php:267-274 | the full query result is ordered oldest first and holds each status-0 row whose joins succeed exactly as often as it is in the table, and no other row |
| Queries.ViewCarriesNotification | app/Controllers/PushNotificationController.php:267-270 | every drained candidate belongs to an existing notification and carries its title and message |
| Queries.Page | app/Controllers/PushNotificationController.php:273-283 | a page holds at most limit rows; it is empty iff limit is 0 or the offset is past the end; otherwise it is the slice starting at the offset |
| NotificationStore.Store.QueuePage | app/Controllers/PushNotificationController.php:267-283 | one LIMIT/OFFSET execution returns at most limit rows, the rows of the full query from the offset on, and none iff limit is 0 or the offset is past the end |
| NotificationStore.Store.GetQueuedNotifications | app/Controllers/PushNotificationController.php:259-301 | the loop terminates; with page size 0 it returns nothing; otherwise it returns the whole ordered queue, with no row skipped or duplicated |
| Aggregation.FirstIds | app/Controllers/PushNotificationController.php:225-242 | result keys are distinct; an id is a key iff some candidate has it |
| Aggregation.FirstIndex | app/Controllers/PushNotificationController.php:225-233 | the first sight of an id is a candidate of that id |
| Aggregation.FirstIndexIsFirst | app/Controllers/PushNotificationController.php:225-233 | no candidate before the first sight of an id has that id |
| Aggregation.FirstIdsInOrder | app/Controllers/PushNotificationController.php:225-242 | keys come in order of their first candidate: an earlier key was first seen earlier, as array_values keeps insertion order |
| Aggregation.SentPlusFailed | app/Controllers/PushNotificationController.php:209-221 | each candidate counts as sent or as failed, never both |
| Aggregation.TalliedStep | app/Controllers/PushNotificationController.php:212-237 | counting one more candidate into its entry (created with zero counters on first sight) gives the counters after one more candidate |
| Aggregation.TakenFromFirstStep | app/Controllers/PushNotificationController.php:225-233 | an entry is created only on the first sight of its id, from that candidate, and later candidates change only its counters |
| Aggregation.Tally | app/Controllers/PushNotificationController.php:207-242 | one entry per distinct notification id in first-appearance order; sent is the number of true transport calls for its candidates, failed the number of false ones; id, title and message are those of the first candidate with that id |
| Aggregation.CronAccountsForEveryCandidate | app/Controllers/PushNotificationController.php:207-242 | sent plus failed over the whole result equals the number of drained candidates |
| Aggregation.AggregateEntries | app/Controllers/PushNotificationController.php:225-242 | an id has an entry iff it has a candidate (no zero-filled entries); its sent plus failed equals its number of candidates |
| NotificationStore.Store.Cron | app/Controllers/PushNotificationController.php:200-249 | the result is the aggregate of the drained queue, each entry with the id, title and message of the first drained candidate of its notification, which are those of its notification row; an empty queue or page size 0 gives an empty result; nothing in the store is modified |
| Queries.FirstRowOf | app/Controllers/PushNotificationController.php:161 | the fetched group belongs to a row of the notification |
| Queries.Details | app/Controllers/PushNotificationController.php:143-171 | not found iff the notification is missing or has no delivery rows; otherwise id, title and message are the notification's, the row is the group of some status that has rows: that bucket holds its full count and the other three are 0 |
| Queries.DetailsOneBucket | app/Controllers/PushNotificationController.php:147-161 | with every status among 0..3, a found notification shows exactly one non-empty bucket |
| Queries.DetailsSummary | app/Controllers/PushNotificationController.php:147-155 | corrected details: not found under the same condition; otherwise each of the four buckets is that status's count |
| Queries.SummaryBucketsAddUp | app/Controllers/PushNotificationController.php:148-151 | the corrected buckets sum to the notification's delivery rows, which is positive |
| Queries.BucketsCoverRows | app/Controllers/PushNotificationController.php:148-153 | with every status among 0..3, the four CASE sums add up to the joined row count |
| Queries.StatusCount | app/Controllers/PushNotificationController.php:148-153 | a CASE sum never exceeds the notification's joined row count |
| Queries.CountsAppend | app/Controllers/PushNotificationController.php:148-153 | bucket and row counts are additive over table concatenation |
| Queries.CountsOfFanOut | app/Controllers/PushNotificationController.php:80-99 | a fresh fan-out contributes one Queued row per device and nothing to the other buckets |
| Queries.FirstRowAfter | app/Controllers/PushNotificationController.php:161 | with no earlier row for the notification, the fetched group comes from the newly appended rows |
| Queries.DetailsAfterSend | app/Controllers/PushNotificationController.php:143-171 | right after a send, details reports every new row as queued and the other buckets 0, or not found when no device was selected |
| Queries.DetailsReportsOneGroup | app/Controllers/PushNotificationController.php:155-161 | one queued and one sent row: the query as written reports just the queued bucket; the corrected one reports both |

## Left out

- The PDO connection, DSN and `env(...)` lookups are configuration. The chunk size and page size are parameters.
- `PushNotification::send` is `random_int(1, 10) > 1`, a randomness source. The transport is the oracle `send`.
- Database failures are modelled only for delivery inserts (the oracle `insertOk`), plus the title column limit. A failing device query or notification insert is not modelled, and nor are connection loss and the MySQL transaction engine.
- The `if ($notification_id)` else-branch (lines 107-113) cannot be reached, because an auto-increment id is at least 1. The model always reports success there.
- The messages carried by the `response(...)` envelope, and HTTP routing, are not modelled. Outcomes are `Created(id)` / `SendFailed`, `Option` and plain sequences.
- `getQueuedNotifications` returns a response array on a PDOException (lines 298-300), and `cron` would iterate it. The drain query is modelled as never failing.
- NotificationStore.Store.SendByCountryId: a chunk size below 1 makes PHP 8's `array_chunk` throw a ValueError. `catch (\Exception)` does not catch it, so it escapes the method with the transaction still open. The model reports `SendFailed` with the notification row kept and no delivery rows.
- NotificationStore.Store.SendByCountryId: the title limit assumes strict SQL mode (the insert fails). Non-strict truncation is not modelled, and the limit counts characters.
- The TEXT size bound of `message` is not modelled.
- The delivery table's own auto-increment id is never read by the core and is left out. So is its missing `created_at` column. `ORDER BY created_at` is taken to mean the notification's `created_at`: that is the only table of the query whose schema here has one. The devices table's columns are not part of this model.
- NotificationStore.Store.GetQueuedNotifications: fixes table order for rows with equal `created_at`. MySQL leaves that order unspecified, and under a different order per page, offset paging could skip or repeat tied rows.
- Queries.Eligible: the device SELECT has no ORDER BY, so MySQL returns the devices in an unspecified order. The model fixes directory order. That choice also fixes the order of the delivery rows and, among rows with equal `created_at`, the order of the drain.
- Queries.Details: which status group the single fetch returns is unspecified in MySQL. The model returns the group of the first joined row.
- A negative page size is not modelled (`limit` is a `nat`), since MySQL rejects it.
- The store is taken to be unchanged during a drain. Overlapping cron runs and concurrent sends are out of scope.
- The auto-increment counter is not rolled back by `SendByCountryIdAtomic`, as in InnoDB.
- Atomic claiming, status write-back, stale-claim sweeps, a per-run device cap and retries do not exist in the code and are not added.
- The migration classes serve only for the record types, the status codes and the title limit.

## Findings

| source | as written | input that shows it | evidently intended | confidence | as-written member | corrected member |
|---|---|---|---|---|---|---|
| app/Controllers/PushNotificationController.php:155-161 | GROUP BY d.status yields one row per status and a single fetch returns only one, so only one bucket is reported | notification 1 with one Queued and one Sent delivery row: the result has in_queue 1, sent 0 | one row with all four buckets, as in the documented response at line 138 | not executed; medium: which group comes first is unspecified | Queries.DetailsReportsOneGroup | Queries.DetailsSummary |
| app/Controllers/PushNotificationController.php:74-116 | the notification insert runs before beginTransaction, so rollBack after a failed delivery insert leaves the notification row | one eligible device whose delivery insert fails: failure is returned, and one notification row remains with no delivery rows | the transaction also covers the notification insert, so a failed send leaves no row | not executed; medium | NotificationStore.OrphanedNotification | NotificationStore.Store.SendByCountryIdAtomic |
