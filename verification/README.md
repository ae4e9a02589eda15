# Task manager: cache, adapter and paging

A Dafny model of the task service: the Redis cache-aside decorator, the Postgres adapter under it, the paging service
above it, the request validator, and the clean-up loop of the load test. `dafny verify dfyconfig.toml` checks it.

## What is modelled

**The cache as a concurrent protocol.** `CacheProtocol` is a transition system. Its state is the sequence of tables the
database went through, the cache with its clock and expiries, every random token drawn so far, and a program counter for
each of any number of clients. Every SQL statement, cache command and script is one atomic step of one client. Clients
interleave freely, a step may come arbitrarily late, time may pass, and any key except the count lock may be forgotten at
any moment. A command is `Acked`, `Lost` (no effect) or `Unacked` (took effect, but the caller saw an error), and the
same holds for the commit of a write. The state also carries a history (which writes retired, evicted, invalidated;
when and from which version a value was read) that no guard and no command looks at.

- `CacheHistory` – the timeline of the database, and that each write's cache work is done, lost, or still ahead of its
  client. `CacheProvenance` – every cached, in-flight or returned value was the database's answer at one moment.
- `ListFreshness` – generation tokens and pages. `CountLock`, `CountFreshness` – the lock, its leases, the live count.
  `TaskGuarantee` – single tasks. Each holds one invariant with its preservation by every step. A state with all of them
  but the count's is `Sound`, and `CacheTheorems.RunKeeps` shows that every reachable state is; the count's holds in runs
  that store their counts within their leases (`RunKeepsCount`).
- `CacheTheorems` – what follows for every run from an empty cache. `CacheStaleness` – each cached value traced to the
  steps of the run that read and stored it. `CacheOverlap` – how a cached row comes to be old, in terms of steps.
  `CacheWalks` – following the cursor through the cache. `CacheWitnesses` – schedules that show where the guarantees end:
  the unfenced task key, a write whose reply is lost, and a count call that outlasts its lease.

**The cache as one process runs it.** `CachedTasks.CachedDb` is the decorator as a class, command by command, with the
retry loop of the count lock; `ServeAll` shows that it refines the adapter for any sequence of calls. `Coherence` says
which commands keep the cache in agreement with the database. `Redis` gives the commands once, for both forms. `CacheKeys`
renders and parses key texts, and `Keyspace` shows that commands on texts and on `Key` find the same.

**The adapter and the service.** `TaskTable` is the soft-delete table with its reads and writes; `Statements` gives
meaning to clauses with positional arguments; `PostgresTasks` builds them and is the adapter class; `Database` is the six
operations as one function, with the laws of whole histories. `TaskService` is the limit-plus-one probe, `Paging` the walk
along `next_cursor` while the table changes, `Teardown` the loop that deletes as it pages, `Validation` the validator and
the stored-data invariant.

A Go string is a byte string: a `string` holds one byte per `char`, and `Text.RuneCount` counts characters as Go does.
The environment (random texts, clocks, fates of commands) is passed in as arguments or labels.

## Model

| member | source | states |
|---|---|---|
| CacheTheorems.ListIsFresh | internal/repository/redis/redistask/task.go:99-117 | In every run, the page a `List` call returns is the database's answer for its request at a version no older than any write whose commit and token replacement were over when the call began, and no newer than the return. |
| CacheTheorems.PageLagsOnlyUnretired | internal/repository/redis/redistask/task.go:119-141 | A write newer than what a page under the token in force shows has not replaced the token: its client is still before that step, or the step was lost. |
| CacheTheorems.FillLagsOnlyUnretired | internal/repository/redis/redistask/task.go:107-114 | The same for a page a client is still about to store under the token in force. |
| CacheTheorems.ReachablePagesExact | internal/repository/redis/redistask/task.go:286-292 | With no writer between commit and retirement and none lost, each reachable page is what the database would answer now. |
| CacheTheorems.SpentForever | internal/repository/redis/redistask/task.go:229-245 | A generation token once replaced, expired or evicted never comes into force again, and the set of clients that can reach or fill its pages only shrinks. |
| CacheTheorems.CountIsFreshWithinLease | internal/repository/redis/redistask/task.go:143-182 | In every run in which each fill stores its count before its own lease is over, whatever the timeout of the calls and even if other commands take effect after the time of their calls is over, the count returned is the database's at a version no older than any write whose invalidation was over when the call began. |
| CacheTheorems.ShortCallsHonourLeases | internal/repository/redis/redistask/task.go:172-181 | If a `Count` call cannot outlast the lock lease and no fill lands after its call is over, every run stores its counts within their leases. |
| CacheTheorems.CountIsFresh | internal/repository/redis/redistask/task.go:143-182 | The freshness of counts in every such run. |
| CacheTheorems.ServiceCountIsFresh | cmd/api/main.go:31 | In particular with the 2 s that the service gives a `Count` call. |
| CacheWitnesses.CountIsStaleBeyondLease | internal/repository/redis/redistask/task.go:172-181 | The bound is needed: for every longer timeout there is a run, without late fills, in which a count begun after a finished invalidation misses the insert. |
| CacheTheorems.CachedCountExactWithinLease | internal/repository/redis/redistask/task.go:184-199 | In every run that stores its counts within their leases: once each create's and delete's invalidation is settled, the cached count equals the live count; updates need no invalidation. |
| CacheTheorems.CachedCountExact | internal/repository/redis/redistask/task.go:184-199 | The same for calls that cannot outlast the lease, in every run without late fills. |
| CacheTheorems.CountLagsOnlyUninvalidated | internal/repository/redis/redistask/task.go:184-199 | An insert or deletion newer than what the cached count shows has its invalidation lost or still ahead of its client. |
| CacheTheorems.QuietCacheExact | internal/repository/redis/redistask/task.go:69-199 | With every client between calls and no invalidating command lost, every reachable page and the cached count are what the database would answer now, and so is every cached task whose fill overtook no eviction. |
| CacheTheorems.InvalidationOutwaitsLeases | internal/repository/redis/redistask/task.go:28-31 | From every reachable state, a writer that waits 3 s for the lock, with no one else taking it, gets it whatever lease was left, and a deletion that takes less than another second removes the count. |
| CacheTheorems.LeasesAreExclusive | internal/repository/redis/redistask/task.go:201-221 | Two clients never both hold a lease of the count lock that has not run out. |
| CacheTheorems.LockGoesToOne | internal/repository/redis/redistask/task.go:206-213 | The lock is taken only when no fill and no invalidator has time left on a lease, and right after that its taker alone has. |
| CacheTheorems.LateReleaseHarmless | internal/repository/redis/redistask/task.go:223-227 | A release by a client whose lease ran out leaves the lock of the client that took it since. |
| CacheTheorems.OwnReleaseFrees | internal/repository/redis/redistask/task.go:35-39 | The owner's release while its lease lasts frees the lock. |
| CacheTheorems.CachedTaskLagsIffOvertaken | internal/repository/redis/redistask/task.go:81-97 | With no eviction of a task pending or lost, its cached row is behind some update or deletion if and only if its fill read before that write and stored after that write's eviction; otherwise it is the live row. |
| CacheTheorems.NewerWritesAccounted | internal/repository/redis/redistask/task.go:89-141 | Whatever is lost or pending, each update or deletion newer than the cached row is one its fill overtook, one whose eviction was lost, or one whose eviction is still ahead of its client; and all that is recorded as overtaken is newer. |
| CacheWitnesses.OvertakingLeavesOldRow | internal/repository/redis/redistask/task.go:89-96 | The overlap does happen: from every state of the protocol with a live row, after a miss or a failed lookup, a fill that reads before an update and stores after its eviction leaves the old row cached. |
| CacheWitnesses.SettledYetStale | internal/repository/redis/redistask/task.go:89-96 | From an empty cache, with every command acknowledged, no eviction lost or pending and every client at rest afterwards, the cached row is not the live one. |
| CacheOverlap.CachedRowExplained | internal/repository/redis/redistask/task.go:81-97 | In every run a cached row was read at some step and stored at some later step, the last to store it. If it is not the live row, a change committed after the read; and each such change committed and evicted between the two steps, or is evicted nowhere in the run. |
| CacheOverlap.BehindIffOverlapped | internal/repository/redis/redistask/task.go:81-97 | When every change of the task has been evicted, a change committed after the row's read if and only if one both committed and evicted between the read and the store; otherwise the row is the live one. |
| CacheWitnesses.LostReplyLeavesOldRow | internal/repository/redis/redistask/task.go:119-129 | After a write that commits while its client sees an error no invalidation follows, and a cached row stays behind the live one. |
| CacheStaleness.StalenessBound | internal/repository/redis/redistask/task.go:266-277 | Whatever becomes of the invalidations, a value served from the cache was read by one step of the run, as the database's answer at that moment, and stored for that key by the same client's next step less than one lifetime ago. |
| CacheTheorems.RunKeeps | internal/repository/redis/redistask/task.go:69-292 | Every run of any clients' steps, of all six operations, keeps the invariants of the timeline, the writers, provenance, lists, the lock and single tasks (`Sound`). |
| CacheTheorems.RunKeepsCount | internal/repository/redis/redistask/task.go:143-199 | Every run that stores its counts within their leases keeps the invariant of the count as well. |
| CacheHistory.WritersKept | internal/repository/redis/redistask/task.go:69-141 | Every committed write has evicted, retired and invalidated as its operation demands, or lost that step, or has it still ahead of its client. |
| CacheProvenance.ProvenanceKept | internal/repository/redis/redistask/task.go:247-277 | Each cached, in-flight or returned task, page and count is the database's answer at the snapshot it was read from, and expires one lifetime after it was stored. |
| ListFreshness.ListKept | internal/repository/redis/redistask/task.go:229-292 | The token in force was installed after every retired write had committed, pages are no older than their token, and readers carry tokens younger than the writes retired before they began. |
| ListFreshness.RetireKeepsGeneration | internal/repository/redis/redistask/task.go:286-292 | Replacing the token with a fresh one keeps the generation invariant, makes the write count as retired and leaves no other token in force. |
| CountLock.LockKept | internal/repository/redis/redistask/task.go:201-227 | Every unexpired lease is exactly what the lock key holds, and a client uses only tokens it drew itself. |
| CountFreshness.CountKept | internal/repository/redis/redistask/task.go:143-199 | A step that stores no count beyond its lease keeps this: a stored count is no older than any finished invalidation, and while a fill's lease lasts no write later than its reading has got past the lock. |
| CountFreshness.DeadlinesKept | internal/repository/redis/redistask/task.go:143-182 | While a call's timeout is at most a lease, its deadline is never beyond the lease it takes. |
| TaskGuarantee.TasksKept | internal/repository/redis/redistask/task.go:89-141 | A cached task has missed exactly the evictions recorded for it. |
| TaskGuarantee.RowStands | internal/repository/postgres/postgrestask/task.go:38-51 | Between versions with no update or deletion of a live task its row stays as it is. |
| CachedTasks.CachedDb.ServeAll | internal/repository/redis/redistask/task.go:69-182 | Any sequence of the six operations through the cache leaves the database as Postgres alone would and gets, reply by reply, what Postgres alone would answer; only a read that Postgres could not have served may be answered from the cache, with what Postgres holds. Any expiry, eviction and delay, any failure of a read, fill or lock command; a write's own invalidating commands arrive, in time behind the lease the calls before it can have left, or its statement does not. |
| CachedTasks.CachedDb.Serve | internal/repository/redis/redistask/task.go:49-56 | The same for one call, with the condition on commands that this call depends on: none for reads; the eviction and token replacement for an update; the token replacement and the count's invalidation, behind the lease that is on the lock, for a create; all three for a deletion. |
| CachedTasks.OrdinaryCallsSettle | internal/repository/redis/redistask/task.go:184-199 | With every command answered and the count's deletion taking less than 1 s, every call meets that condition, behind any lease. |
| CachedTasks.CachedDb.Create | internal/repository/redis/redistask/task.go:69-79 | The adapter's result, one new row and no other change; if the token replacement arrives and the count's deletion does within what the four seconds leave after waiting for the lease on the lock (always, if it takes less than 1 s), the cache agrees with the new table although no task key is evicted; a failed create touches no key. |
| CachedTasks.CachedDb.GetByID | internal/repository/redis/redistask/task.go:81-97 | The live row or not-found; a hit needs no database; a row found is cached afterwards, and not-found adds no key. |
| CachedTasks.CachedDb.List | internal/repository/redis/redistask/task.go:99-117 | The database's answer, by the fields of the rows: which are listed, which may be left out, in which order; a hit under the generation in force needs no database; a page read is found again under it; without a generation none is kept. |
| CachedTasks.CachedDb.ListGeneration | internal/repository/redis/redistask/task.go:229-245 | Returns the generation in force, or, if there is none, installs and returns the text just drawn, which was never used before; the cache stays in agreement. |
| CachedTasks.CachedDb.Update | internal/repository/redis/redistask/task.go:119-129 | The adapter's result, field by field: what is supplied replaces, what is not stays, no other row moves; if the eviction and the token replacement arrive the cache agrees with the patched table although the count is not invalidated; a failed update touches no key. |
| CachedTasks.CachedDb.Delete | internal/repository/redis/redistask/task.go:131-141 | The adapter's result, one row marked and no other change; if the eviction and the token replacement arrive, and the count's deletion in time behind the lease on the lock (always, if it takes less than 1 s), the cache agrees with the new table; a failed deletion touches no key. |
| CachedTasks.CachedDb.Count | internal/repository/redis/redistask/task.go:143-182 | The live count; a hit needs no database; a count read is found again; a lock that was free is free again; after a failed lookup the lock is not touched. |
| CachedTasks.CachedDb.CountLocked | internal/repository/redis/redistask/task.go:162-181 | The second look and the fill: the live count, cached for one lifetime when the fill lands before the deadline; no fill after a failed second look. |
| CachedTasks.CachedDb.InvalidateCount | internal/repository/redis/redistask/task.go:184-199 | When the attempts needed to outwait the lease on the lock are answered and the deletion arrives within the four seconds, the count is gone afterwards and the lock is free again; in figures, a deletion that takes less than 1 s is in time behind any lease. |
| CachedTasks.CachedDb.AcquireCountLock | internal/repository/redis/redistask/task.go:201-221 | Ends by its deadline, changes no other key, returns a token only with the lock held for a full 3 s, takes a free lock at once, and facing one abandoned lease gets the lock at the first attempt after its end, less than 10 ms later. |
| CachedTasks.CachedDb.ReleaseCountLock | internal/repository/redis/redistask/task.go:223-227 | Gives the caller's own lock back, leaves another's alone, and keeps the cache in agreement. |
| CachedTasks.CachedDb.RetireLists | internal/repository/redis/redistask/task.go:286-292 | Afterwards no reachable page disagrees with the table, whatever the pages held before. |
| CachedTasks.CachedDb.Evict | internal/repository/redis/redistask/task.go:279-284 | Afterwards the tasks agree with any table with which they agreed but for the evicted one. |
| Coherence.GenerationInstalled | internal/repository/redis/redistask/task.go:40-46 | Installing a text never drawn before leaves no page in reach that disagrees with any table. |
| Coherence.WriteSparesOthers | internal/repository/redis/redistask/task.go:69-79 | A write leaves every other cached task in agreement, and an insert leaves them all, because an id that was not there is not cached. |
| Coherence.UpdateSparesCount | internal/repository/redis/redistask/task.go:119-129 | A cached count that agreed still agrees after an update. |
| CacheKeys.KeyRoundTrip | internal/repository/redis/redistask/task.go:243-244 | Every key text parses back to its key, for any status, cursor and limit and any bytes in the assignee. |
| CacheKeys.KeysDistinct | internal/repository/redis/redistask/task.go:21-26 | Keys with equal texts are equal: page, task, generation, count and lock keys never meet, nor do distinct requests or generations. |
| CacheKeys.KeyTexts | internal/repository/redis/redistask/task.go:20-26 | The text of each key, word for word. |
| CacheKeys.EscapedByte | internal/repository/redis/redistask/task.go:243-244 | Letters, digits and four marks stand for themselves, a blank is a plus, every other byte is two hexadecimal digits after a percent sign. |
| CacheKeys.QueryEscapeRoundTrip | internal/repository/redis/redistask/task.go:244 | Unescaping an escaped byte string gives it back. |
| Text.DecimalRoundTrip | internal/repository/redis/redistask/task.go:294-296 | A signed decimal reads back as its number and holds no colon. |
| Keyspace.CommandsAgree | internal/repository/redis/redistask/task.go:21-47 | Every command and script on the text of a key does what it does on the key, and the two caches stay the same. |
| Keyspace.SequencesAgree | internal/repository/redis/redistask/task.go:21-47 | Any sequence of commands on renderable keys, with time passing and keys forgotten in between, finds the same values in the cache keyed by texts as in the one keyed by `Key`. |
| PostgresTasks.BuildSelect | internal/repository/postgres/postgrestask/task.go:53-76 | Over any table the built statement with its positional arguments yields the first `limit` matching live rows by descending id, and an error exactly for a negative limit. |
| PostgresTasks.BuildUpdate | internal/repository/postgres/postgrestask/task.go:102-130 | Over any table the built statement patches the supplied fields of the one live row and nothing else, or fails with not-found or too-long. |
| PostgresTasks.WithText | internal/repository/postgres/postgrestask/task.go:60-68 | One more text filter narrows the selection by that column and disturbs no earlier placeholder. |
| PostgresTasks.WithSet | internal/repository/postgres/postgrestask/task.go:110-128 | One more assignment sets that column on top of the earlier ones. |
| Statements.Narrowed | internal/repository/postgres/postgrestask/task.go:60-73 | A condition on a fresh last argument is conjoined to the earlier ones. |
| Statements.AssignedMore | internal/repository/postgres/postgrestask/task.go:107-128 | Arguments added later change no earlier assignment. |
| Statements.AssignedField | internal/repository/postgres/postgrestask/task.go:110-128 | An assignment writes its own column and no other. |
| PostgresTasks.PostgresDb.Create | internal/repository/postgres/postgrestask/task.go:24-36 | Inserts one live row under the next id, leaves every other row, and returns it; fails exactly when a column of 200, 2000, 50 or 100 characters overflows, and inserts nothing then. |
| Database.GetReadsLastWrite | internal/repository/postgres/postgrestask/task.go:38-51 | After any history a get answers what the last successful create or update of the id replied, and not-found when there was none or the id was deleted since. |
| PostgresTasks.KeySelects | internal/repository/postgres/postgrestask/task.go:38-51 | The condition on the key selects the one live row with it, and nothing if there is none. |
| PostgresTasks.PostgresDb.List | internal/repository/postgres/postgrestask/task.go:53-100 | The answer to the request over the present table, by the fields of the rows: each row listed is live and has the status and assignee asked for and an id below the cursor; each such row is listed unless the limit is reached by larger ids; ids descend. |
| PostgresTasks.PostgresDb.Update | internal/repository/postgres/postgrestask/task.go:102-142 | The patched row and table, field by field: what is supplied replaces, what is not stays, the id stays, no other row moves; or not-found with the table as it was. |
| PostgresTasks.PostgresDb.Delete | internal/repository/postgres/postgrestask/task.go:144-157 | Marks one live row deleted, or reports not-found with the table as it was. |
| TaskTable.Descending | internal/repository/postgres/postgrestask/task.go:75-76 | Lists exactly the ids of a set, each once, from the largest down. |
| TaskTable.DescendingUnique | internal/repository/postgres/postgrestask/task.go:75-76 | There is only one descending listing of a set. |
| TaskTable.CountAfter | internal/repository/postgres/postgrestask/task.go:159-169 | An insert adds one to the live count, a deletion takes one, an update leaves it. |
| TaskTable.AnswerByFields | internal/repository/postgres/postgrestask/task.go:58-76 | The answer to a list request by the fields of the rows: what is listed, what may be left out, order and number. |
| Database.PatchesMerge | internal/repository/postgres/postgrestask/task.go:102-142 | Two updates of one task are one update by their right-biased merge. |
| Database.CountIsConserved | internal/repository/postgres/postgrestask/task.go:159-169 | Over any history the count moves by successful creates minus successful deletes. |
| Database.CountIsListLength | internal/repository/postgres/postgrestask/task.go:159-169 | From an empty database that number is what the count reports and also the length of an unbounded unfiltered list. |
| Database.DeletedForever | internal/repository/postgres/postgrestask/task.go:38-157 | A deleted id stays not found for each get, update and delete that reaches the database, is never listed and never given out again, in every continuation. |
| Database.IdsNeverReused | internal/repository/postgres/postgrestask/task.go:24-36 | Later creates get larger ids. |
| TaskService.Service.Create | internal/service/taskservice/service.go:28-46 | Over the adapter or the cache: stores the title, description and assignee of the request, with an absent status as `pending` and any other as given, and returns the row under a new id. |
| TaskService.Service.List | internal/service/taskservice/service.go:57-85 | Over the adapter or the cache, by the fields of the rows: the first rows that match, at most 50, 20 by default; a row is left out only if there are more and the page is full of larger ids; the last id as cursor only then. |
| TaskService.Trim | internal/service/taskservice/service.go:68-84 | A probe cut to its page: the rows within the limit, converted in order, and cursor and flag from the extra row. |
| TaskService.ProbeAgrees | internal/service/taskservice/service.go:58-73 | Asking for one row more changes nothing but the extra row, which is there exactly when more rows match. |
| Paging.HasMoreMeaning | internal/service/taskservice/service.go:70-82 | `has_more` holds exactly when a matching row lies below the last one returned. |
| Paging.PageSound | internal/service/taskservice/service.go:57-85 | Rows of a page are live matching rows of their table, with descending ids. |
| Paging.PageComplete | internal/service/taskservice/service.go:57-85 | No matching row at or above the cursor is left off a page. |
| Paging.CursorDescends | internal/service/taskservice/service.go:80-82 | The next cursor is positive and below the one before, which is why walks end. |
| Paging.WalkDescends | internal/service/taskservice/service.go:57-85 | While rows are created, updated and deleted between pages, the ids along a walk strictly decrease: nothing is returned twice. |
| Paging.WalkComplete | internal/service/taskservice/service.go:57-85 | A row that is live and matches each time a page is asked for is returned. |
| Paging.WalkSound | internal/service/taskservice/service.go:57-85 | Every row returned was a live matching row of the table its page was read from. |
| Paging.StaticWalk | internal/repository/postgres/postgrestask/task.go:53-100 | Over an unchanging table the pages concatenate to the full filtered list in order. |
| CacheWalks.WalkIsFresh | internal/service/taskservice/service.go:57-85 | In every run, the pages a client sees following the cursor through the cache, while everyone else reads and writes, are those of a walk over versions of the table no older than the writes that had committed and replaced the token before the walk began. |
| CacheWalks.SeenDescends | internal/service/taskservice/service.go:57-85 | Nothing comes twice in such a walk. |
| CacheWalks.SeenComplete | internal/service/taskservice/service.go:57-85 | A task that is live and matches at every version since those writes is seen. |
| CacheWalks.SeenSound | internal/service/taskservice/service.go:57-85 | Every task seen was a live matching row at one of those versions. |
| Teardown.Clean | loadtest/k6/tasks_load_test.js:103-119 | With every call succeeding and no other client, over the adapter or through the cache: no live task of the assignee is left, each keeps its contents, and every other row is untouched. An empty assignee asks for everyone's tasks. |
| Teardown.CleanPage | loadtest/k6/tasks_load_test.js:106-118 | One round deletes only the assignee's live tasks and leaves only those below the next cursor, which is zero exactly when none are left. |
| Teardown.DeletePage | loadtest/k6/tasks_load_test.js:114-116 | Deletes exactly the listed tasks. |
| Validation.ValidateCreateRequest | internal/validator/taskvalidator/validator.go:114-123 | Accepts exactly the acceptable creates and complains about exactly the offending fields, each with its own message. |
| Validation.ValidateUpdateRequest | internal/validator/taskvalidator/validator.go:125-153 | Accepts exactly the acceptable patches; an empty one is rejected as a whole, otherwise exactly the supplied fields that offend get their own message. |
| Validation.ValidateListRequest | internal/validator/taskvalidator/validator.go:155-163 | Accepts exactly the acceptable list requests and complains about exactly the offending fields, each with its own message. |
| Validation.CheckTitle | internal/validator/taskvalidator/validator.go:38-47 | No complaint exactly for 1 to 200 characters. |
| Validation.TitleMessages | internal/validator/taskvalidator/validator.go:12-47 | Which message an empty title and a long one get, word for word. |
| Validation.LengthMessages | internal/validator/taskvalidator/validator.go:12-63 | Which message a long description and a long assignee get. |
| Validation.StatusMessages | internal/validator/taskvalidator/validator.go:17-97 | Which message an absent status and an unknown one get. |
| Validation.CheckDescription | internal/validator/taskvalidator/validator.go:49-55 | No complaint exactly for at most 2000 characters. |
| Validation.CheckAssignee | internal/validator/taskvalidator/validator.go:57-63 | No complaint exactly for at most 100 characters. |
| Validation.CheckStatus | internal/validator/taskvalidator/validator.go:65-79 | No complaint exactly for one of the three statuses, or for none where none is required. |
| Validation.StoredDataValid | internal/validator/taskvalidator/validator.go:114-153 | After any requests every stored row meets the documented field rules. |
| Validation.StoredFieldsValid | internal/validator/taskvalidator/validator.go:114-153 | From an empty database, in figures: titles of 1 to 200 characters, descriptions up to 2000, assignees up to 100, one of the three statuses. |
| Validation.ValidatedWritesFit | migrations/000001_create_tasks_table.up.sql:1-10 | A validated write never runs into a column width. |
| Text.RuneCountOfText | internal/validator/taskvalidator/validator.go:42-58 | The length of a UTF-8 text is the number of characters it encodes, whatever they are. |
| Text.WideRuneIsEncoded | internal/validator/taskvalidator/validator.go:42-58 | Only the encoding of a character counts as one over several bytes; every other byte counts by itself. |

## Where code and documentation differ

- The repository's README says that single tasks are trivial to invalidate. The code has no fence between a fill's read
  and its store, so an overlapping fill can bring an old row back after the eviction; `OvertakingLeavesOldRow` is the
  schedule, `SettledYetStale` its end with nothing lost or pending, and `CachedTaskLagsIffOvertaken` the exact condition.
- It also presents the count lock as enough to keep a stale count out. That depends on a `Count` call not outlasting the
  3 s lease. The only caller gives it 2 s (`cmd/api/main.go:31`, `:162`), for which `CountIsFresh` applies.

## Left out

- CacheTheorems.CountIsFreshWithinLease: assumes that the lock key is not evicted under memory pressure, and, as the whole
  protocol does, that a command takes effect, if at all, before its caller's next step.
- CacheTheorems.CountIsFresh: assumes besides that the `SET` of a fill whose context has run out is not applied by the
  server after that; every other command may be.
- CacheTheorems.LeasesAreExclusive: assumes, as all lock results, that the lock key is not evicted.
- CacheTheorems.CachedTaskLagsIffOvertaken: says nothing about tasks with an eviction still pending or lost; for those
  `NewerWritesAccounted` says which writes the row can be behind, and `StalenessBound` for how long.
- CachedTasks.CachedDb.AcquireCountLock: its commands take no time of their own; time passes only between retries.
- CachedTasks.CachedDb.ServeAll: excludes a write that commits while its caller sees an error, after which the code
  invalidates nothing and replies can be old (`LostReplyLeavesOldRow`); in the protocol such a write counts as one whose
  invalidations were lost.
- TaskService.Service: `GetByID`, `Update` and `Count` pass their arguments on and are left to the repository.
- Linearizability of lists and counts: the code does not provide it; a reader may hit an older page while a writer is
  between commit and retirement.
- Redis, pgx and the script engine: each command, statement or script is one atomic step. JSON encoding is taken to round
  trip, and undecodable bytes count as a failed load.
- The text of the SQL: a statement is its list of clauses with columns and placeholders, not its characters. The panic of
  `make` with a negative capacity is represented by the error of a negative limit; the service never asks for one.
- Clocks: one clock serves the cache and the database.
- Randomness: random texts never repeat. That they use the base32 alphabet and that an assignee is a string of bytes,
  which makes every key renderable, is assumed where keys become texts and nowhere else.
- Integer width: ids, cursors and limits are unbounded; a limit plus one stays at most 51.
- Encoding errors and NUL characters that Postgres rejects: column widths are modelled, encodings are not.
- Sub-millisecond lifetimes: times are whole milliseconds.
- TaskInfo conversion: the response record has the fields of the task, so a task stands for it.
- The list of status names in the error message: given by its result, without the loop that copies the names.
- HTTP routing and binding, status codes, middleware, logging, metrics, profiling, configuration, migrations, start-up
  and shutdown: plumbing with shallow properties.
