# Models and proofs for the MCP server

Dafny models of the stateful parts of the Go MCP server, with proofs of what those parts are built to guarantee.
`dafny verify dfyconfig.toml` checks the whole project.

## What is modelled

**The asynchronous embedding store** (`MemoryTable`, `EmbedStore`, `EmbedTheorems`, `AsyncStore`, `Fusion`, `Search`).
`EmbedStore` is a state machine. One action is what one goroutine does between two points where another may run:
a client transaction, the test for a closed store that follows its commit and the send that follows the test, a worker's receive, one embedding attempt, the pause after
it, the guarded write-back, the backfill's scan and its enqueues, a worker's exit, shutdown, restart. The state holds
the table, the requests between commit and enqueue, the jobs past the test and not yet sent, the queue, the jobs of the pool and the spilled goroutines with
their attempt and vector, the wait group, the live workers, the backfill phase, the cancelled flag and the logged
failures. A crash is `Restart`: it may happen anywhere and keeps only the table. The invariant has three parts: the
wait group counts exactly the queued and running jobs, a stored vector is the embedding of the content beside it, and
every pending row is owed an embedding of exactly its current content unless a failure was logged or the store was
closed. From it follow: a store at rest holds what a store that embeds inside each request would hold; every schedule
without new requests is bounded by a measure; and the states where nothing can move are characterised exactly.
A flush is shown to return under every schedule exactly under a condition on the state in which it is called.
`AsyncStore.Store` holds the Go methods as imperative code, each proved to be a run of that machine. `MemoryTable`
treats the eviction of the write transaction as a top-20 selection and shows that evicting write by write equals one
global selection. `Fusion` is Reciprocal Rank Fusion with its map walked in an arbitrary order and its in-place
insertion sort; `Search` joins it to the store.

**The owner-scoped event log** (`EventLog`, `EventRuns`). A topic is a sequence of partitions, cursors map a group and
a partition to an offset. `EventLog.Topic` has the publish and the bounded poll as methods; `EventRuns` quantifies over
whole histories of publishes, polls, peeks and failed polls.

**Skill discovery and download** (`SkillTree`, `FanOut`, `Download`, `Finder`, `SkillRef`). The recursive listing
through a shared accumulator against a pre-order of the tree, and against addresses of entries that need no walk, a semaphore-bounded fan-out under every schedule, the
download's totals, the tool-calling loop against an arbitrary model and arbitrary tools, and the reference parser.

**Search analytics** (`Rounding`, `Metrics`, `Overview`, `Compare`). Two-decimal rounding, the impression-weighted mean, and the
period comparison as a full outer join with its ranking and trim.

**API keys** (`KeyFormat`, `Keys`). Minting, memoising resolvers, the cap per user, revocation and its cascade, as a
state machine and as objects whose methods are proved to be runs of it.

Some natural properties hold only under a condition. For each, the exact condition is proved:

- Waiting for the wait group returns under every schedule exactly when, at the call, the store is open, or the wait
  group is down, or nothing is queued and no goroutine is between the test for a closed store and the send
  (`FlushReturnsExactly`). After `Close` both workers may exit while a job is queued; `CloseCanStrandFlush` is such a
  run from the first start.
- Two owner ids share a consumer group for some pair of bases exactly when they are equal or one ends in a dot and the
  other. Among any set of polling owners, an owner gets its events exactly once under every history and every non-empty base
  exactly when no other owner in the set is related to it in that way (`OnceExactly`). Key ids, which the server uses
  as owners, never are (`KeyIdsApart`), so this is not a failure of the server.
- A hit found by both arms outranks every other exactly up to 61 hits per arm (`BothFirstExactly`, `TieAt62`); the arms
  never exceed 20.
- A dimension tuple has a join key of its own, and is never merged into another, exactly when it is a single value or
  holds no separator (`JoinAloneExactly`, `NeverMergedExactly`, `JoinCollision`).
- The reported overall position lies between reported daily positions exactly when something was shown
  (`MeanWithinExactly`): with no impression it is 0.
- A tree URL names its directory exactly when the last segment has no dot, a blob or raw URL exactly when the file name
  has one, and a bare path exactly when its last segment has no dot and the text nowhere contains github.com or
  githubusercontent.com (`TreeExactly`, `BlobExactly`, `RawExactly`, `BareExactly`). The path acme/github.com-skills/pdf
  is taken for a URL on the host acme and refused (`DotFreePathRefused`). All of this is for plain segments: letters,
  digits, hyphen, underscore, dot and tilde. A branch name with a slash is outside it. The comment above the parser
  speaks of paths that point at a file; the code goes by the dot, so a dotted directory loses its last segment and a
  file without an extension is taken for a directory.
- A revoked key can still be admitted by a resolver exactly while the resolver caches it or one of its calls read the
  table before the revocation (`RevokedKey`); `AdmittedAfterRevocation` is such a history for every key.

## Model

| member | source | states |
|---|---|---|
| `EmbedStore.ReachableInv` | internal/memory/store.go:110-389 | after every run from the first start, through crashes, shutdowns and restarts: the wait group equals queued plus running jobs, queue and pool are in bounds, each key holds at most 20 rows, every stored vector embeds the content stored with it, every pending row is owed a job for its current content or excused |
| `EmbedStore.CountedStep` | internal/memory/store.go:166-237 | every step keeps the wait group equal to queued plus running jobs and keeps the bounds, so no job is counted twice or finished twice |
| `EmbedStore.CappedStep` | internal/memory/store.go:317-332 | no step leaves a key with more than 20 rows |
| `EmbedStore.FreshStep` | internal/memory/store.go:228-234 | no interleaving of edits, stale jobs, duplicate jobs and restarts stores a vector of a text the row no longer has |
| `EmbedStore.CoveredStep` | internal/memory/store.go:163-276 | no step forgets a pending row: someone still owes its exact id and content an embedding, or a failure was logged, or the store is closed |
| `EmbedStore.RequestsOwed` | internal/memory/store.go:338-382 | inserting, editing, evicting, deleting and revoking keep every pending row owed |
| `EmbedStore.QueueOwed` | internal/memory/store.go:166-189 | moving an obligation from a request or the backfill past the test, to the queue, a spilled goroutine or a worker loses none |
| `EmbedStore.EmbedOwed` | internal/memory/store.go:204-227 | retrying keeps the obligation, giving up logs it |
| `EmbedStore.WriteBackOwed` | internal/memory/store.go:228-237 | a guarded write-back that matches no row leaves nothing of its own job pending, and one that fails logs it |
| `EmbedTheorems.SyncStep` | internal/memory/store.go:199-397 | each step looks to a reader who fills in missing vectors like the step of a store that embeds inside the request |
| `EmbedTheorems.RestRefinesSync` | internal/memory/store.go:199-280 | flushed, without failure, open and recovered, the table equals that of the synchronous store after the same transactions |
| `EmbedTheorems.MissingVectorsOnly` | internal/memory/store.go:282-286 | at any moment the table differs from the synchronous store's only by vectors still missing |
| `EmbedTheorems.RingIsGlobalTop` | internal/memory/store.go:317-332 | without deletions, a row ever written to a key is there exactly when fewer than 20 ever written to it were created later, or at the same time with a greater id, whatever the order of writing |
| `EmbedTheorems.NewestKept` | internal/memory/store.go:317-332 | with deletions and revocations interleaved: a row with fewer than 20 later ones ever written to its key is there unless it was itself deleted or its key revoked |
| `EmbedTheorems.RevokeTakes` | migrations/0003_api_keys.sql:32-36 | revoking a key takes all its rows and no other's |
| `EmbedTheorems.RingStep` | internal/memory/store.go:295-336 | one step extends that top-20 by the row written |
| `EmbedTheorems.InternalStepCosts` | internal/memory/store.go:180-276 | every step the service takes by itself lowers a measure of queued jobs, attempts left and workers still to exit |
| `EmbedTheorems.DrainBounded` | internal/memory/store.go:278-280 | without new requests every schedule is at most as long as that measure |
| `EmbedTheorems.StuckExactly` | internal/memory/store.go:148-189 | nothing can move exactly when no request, unsent job, running job or backfill work is left, the queue is empty or without workers, and on a closed store all workers have exited; the wait group is then the queue, and 0 on an open store |
| `EmbedTheorems.DrainReachesRest` | internal/memory/store.go:278-280 | every schedule of an open store that cannot go on has flushed, and is at rest when no failure was logged |
| `EmbedTheorems.ScanExists` | internal/memory/store.go:246-247 | the backfill query has an answer for every table, so startup recovery never makes the other claims empty |
| `EmbedTheorems.CanReachRest` | internal/memory/store.go:166-280 | from every open state without logged failure some schedule embeds every row |
| `EmbedTheorems.FlushReturnsExactly` | internal/memory/store.go:145-189 | for every state that keeps the invariant: under every schedule the wait group reaches zero exactly when the store is open, or it is zero, or nothing is queued and nobody is past the test for a closed store with a job still to send |
| `EmbedTheorems.CloseCanStrandFlush` | internal/memory/store.go:145-189 | such a state is reachable: a run from the first start that ends stuck with the wait group at 1 |
| `AsyncStore.RetryRun` | internal/memory/store.go:204-221 | the retry loop from any attempt on, with the store closed at any moment of it, is a run of the machine and ends as the outcomes of its attempts say |
| `AsyncStore.TriedExactly` | internal/memory/store.go:204-227 | the outcome of the attempts: a vector exactly when an attempt that is made succeeds, the store closed exactly when it was or is in an attempt made; an attempt is made when every earlier one failed on a store that stayed open |
| `AsyncStore.PushAllKeeps` | internal/memory/store.go:166-177 | enqueueing any number of jobs loses none: the queue takes them in order and the rest spill, each counted |
| `AsyncStore.CommitRun` | internal/memory/store.go:334-338 | a commit followed by the whole enqueue is a run of the machine: the job passes the test and is sent, or is dropped on a closed store |
| `AsyncStore.BackfillRun` | internal/memory/store.go:243-276 | a whole backfill is a run of the machine that enqueues the scanned jobs in order up to the moment the store is closed, and drops the rest |
| `AsyncStore.Store.constructor` | internal/memory/store.go:110-143 | starts with the table found, an empty queue, at least two workers and a backfill to do |
| `AsyncStore.Store.Close` | internal/memory/store.go:145-148 | only sets the cancellation |
| `AsyncStore.Store.EnqueueEmbed` | internal/memory/store.go:166-177 | dropped when closed, else counted and queued, or spilled when the queue is full |
| `AsyncStore.Store.Write` | internal/memory/store.go:287-340 | insert and evict in one step, then enqueue: at most 20 rows of the key stay, exactly 20 when one goes, each created later than each that goes or at the same time with the greater id; other rows untouched; a failed transaction changes nothing; the whole is a run of the machine |
| `AsyncStore.Store.Update` | internal/memory/store.go:366-384 | replaces the content, clears the vector and enqueues for the owner's row, touches no other row, reports any other id as not found and a database error as one |
| `AsyncStore.Store.Delete` | internal/memory/store.go:387-397 | removes the owner's row and nothing else; not found and database errors change nothing |
| `AsyncStore.Store.TakeJob` | internal/memory/store.go:180-189 | a worker takes the oldest queued job |
| `AsyncStore.Store.TryEmbed` | internal/memory/store.go:202-221 | a vector exactly when one of three attempts succeeds after failures on a store that stayed open; given up exactly when there is none and the store is closed |
| `AsyncStore.Store.RunEmbed` | internal/memory/store.go:199-238 | when an attempt made succeeds and the database answers, a row still pending for exactly this job gets the embedding of its content; no other row changes; a failure is logged exactly when none does or the database fails, on an open store; one Done on every path; the whole is a run of the machine |
| `AsyncStore.Store.BackfillPending` | internal/memory/store.go:243-276 | enqueues every scanned row in order until the store is closed; a failed scan enqueues none |
| `MemoryTable.TopIsSortedPrefix` | internal/memory/store.go:323-328 | the selection used in the proofs is what ORDER BY created_at DESC, id DESC LIMIT n returns |
| `MemoryTable.TopSize` | internal/memory/store.go:317-328 | at most n rows survive, each created later than each evicted row, or at the same time with the greater id |
| `MemoryTable.TopFull` | internal/memory/store.go:24-27 | a row is evicted only when n later ones stay |
| `MemoryTable.TopIncremental` | internal/memory/store.go:317-332 | evicting, adding one and evicting again selects the same as selecting once from everything |
| `MemoryTable.InsertStamps` | internal/memory/store.go:306-332 | a write leaves its key the newest 20 of old and new, changes no surviving row and no other key's row |
| `MemoryTable.WriteKeepsNewest` | internal/memory/store.go:306-332 | the same on the rows themselves: which of a key's rows a write may take, how many stay, and that all else is as it was |
| `Fusion.MergeArms` | internal/memory/store.go:561-574 | the two loops build the merge that `Fusion.MergeSpec` describes |
| `Fusion.MergeSpec` | internal/memory/store.go:561-574 | the merge holds the ids of either arm, each with the sum of 1/(61+rank) over the arms that have it and the vector arm's hit where there is one |
| `Fusion.Fuse` | internal/memory/store.go:556-588 | in every map order the result lists every merged hit once, in falling fused value |
| `Fusion.FusionRanks` | internal/memory/store.go:576-587 | exactly the union of ids, each once, non-increasing in the summed reciprocal ranks |
| `Fusion.FusionReports` | internal/memory/store.go:551-574 | a reported hit is the vector arm's wherever it has the id, marked "both" exactly on the intersection, and otherwise the keyword arm's as it is |
| `Fusion.FusionOrder` | internal/memory/store.go:563-587 | an earlier hit's sum of 1/(61+rank) over the arms that have it is never smaller than a later one's |
| `Fusion.OrderIndependent` | internal/memory/store.go:576-587 | two map orders give the same fused value at every position |
| `Fusion.SmallArmsBothFirst` | internal/memory/store.go:20-22 | with at most 61 hits per arm, twice found strictly outranks once found |
| `Fusion.BothFirstExactly` | internal/memory/store.go:20-22 | that holds for all arms of a size exactly up to 61 |
| `Fusion.TieAt62` | internal/memory/store.go:20-22 | two arms of 62 hits where a hit found twice only ties with one found once |
| `Fusion.BothArmsFirst` | internal/memory/store.go:576-587 | with at most 61 hits per arm every "both" hit precedes every other in the list |
| `Sorting.InsertionSort` | internal/memory/store.go:582-586 | the in-place sort permutes its array into falling keys |
| `Sorting.SortedKeysAgree` | internal/memory/store.go:580-586 | two sorted arrangements of the same elements show the same keys position by position |
| `Search.Search` | internal/memory/store.go:446-484 | fails exactly when an arm fails; otherwise the front of a fusion of the two arms, as long as the limit allows, 5 when none is given |
| `Search.ArmCapped` | internal/memory/store.go:24-27 | an arm never returns more hits than the 20 rows a key may hold, whatever limit is asked for |
| `Search.SearchPromise` | internal/memory/store.go:446-588 | on every reachable store and for every limit, even when the arms read the table at different moments and miss candidates: hits found by both arms come first, a hit the vector arm knows scores the similarity of the text it shows, at least the minimum, and every hit shows a row of the caller's key with one of the tags asked for |
| `EventLog.StampOwner` | internal/event/client.go:172-182 | the caller's headers in some order without any owner header, then the true owner, once |
| `EventLog.FromKafkaHeaders` | internal/event/client.go:357-366 | the map in which a later header of the same name wins |
| `EventLog.StampRoundTrip` | internal/event/client.go:168-182 | reading stamped headers back gives the publisher's map with the true owner, even if the map brought its own owner header |
| `EventLog.ClampMax` | internal/event/tools.go:214-222 | the request itself from 1 to 100, 10 below and 100 above |
| `EventLog.Topic.constructor` | internal/event/client.go:264-289 | an empty topic, every group at the first offset |
| `EventLog.Topic.Publish` | internal/event/tools.go:46-69 | refuses an empty value and reports a broker failure, both without a trace; otherwise appends one stamped record to one partition, reports its offset and touches nothing else |
| `EventLog.Topic.Consume` | internal/event/tools.go:110-197 | reads on until the limit is filled by the last record fetched or the fetch blocks; in group mode from the caller's cursors, earliest from the start of partition 0, latest from its end; returns exactly the caller's records read, each as the log has it without the owner header; commits the new positions in group mode only; any error leaves every cursor alone |
| `EventLog.Gather` | internal/event/tools.go:146-181 | the fetch loop: what it returns, what it collects for the commit, and when it stops |
| `EventLog.DeliverOne` | internal/event/tools.go:161-180 | one more record keeps the delivered sequence exact, own or not |
| `EventLog.OwnedComplete` | internal/event/tools.go:156-180 | every own record between two offsets is among those delivered |
| `EventLog.OwnedOrdered` | internal/event/tools.go:156-180 | and they come in the order of the log |
| `EventLog.CommitTracked` | internal/event/tools.go:183-190 | committing what was fetched moves the group to the read positions, no other group, and never past the log |
| `EventRuns.CommittedIsCommit` | internal/event/tools.go:186-190 | the cursors a poll leaves are those of the history's poll step |
| `EventRuns.SharedGroup` | internal/event/client.go:184-189 | two owners share a group exactly when one id is the other's tail after a dot and the bases make up the rest |
| `EventRuns.ApartGroups` | internal/event/client.go:184-189 | owners neither of which ends in a dot and the other have no group in common, whatever the bases |
| `EventRuns.CommonGroup` | internal/event/client.go:184-189 | any other two owners have one, for bases neither of which is empty |
| `EventRuns.KeyIdsApart` | internal/event/apikey.go:18-24 | ids of one length, or without dots, as key ids are, are always so related |
| `EventRuns.GroupsSeparate` | internal/event/client.go:184-189 | for ids of one length, equal groups mean equal base and owner |
| `EventRuns.CursorsUndisturbed` | internal/event/client.go:264-289 | no poll by owners apart from this one, no peek and no failed poll by anyone moves an owner's cursor, over any history |
| `EventRuns.HandedStep` | internal/event/tools.go:142-190 | one step extends what lies below a group's cursor by exactly what it returned |
| `EventRuns.ExactlyOnce` | internal/event/tools.go:142-190 | over any history in which the other polling owners are apart from this one, what its group was handed from a partition is, in order, its events below the cursor: none twice, none skipped |
| `EventRuns.OnceExactly` | internal/event/tools.go:133-190 | for any set of polling owners, that holds of an owner under every history and every non-empty base exactly when every other owner in the set is apart from it |
| `EventRuns.SharedGroupLosesEvents` | internal/event/client.go:184-189 | whenever two owners share a group, one poll by the other passes over an event for good |
| `EventRuns.ReturnedToPublisher` | internal/event/tools.go:156-180 | whatever is returned was published earlier by its reader, with the headers given then, minus the owner header |
| `SkillTree.List` | internal/skills/github.go:200-264 | the walk terminates for every responder, even one that answers a directory differently each time, and leaves in the accumulator what taking from the pre-order leaves |
| `SkillTree.TakeConcat` | internal/skills/github.go:250-262 | taking from one directory after another is taking from the concatenated pre-order, stopping at the first error |
| `SkillTree.TakeFails` | internal/skills/github.go:200-264 | it fails exactly when a directory refuses before the limit is reached |
| `SkillTree.TakeCuts` | internal/skills/github.go:200-203 | it otherwise holds the first 50 files |
| `SkillTree.WalkDescribed` | internal/skills/github.go:200-264 | the walk meets exactly what addresses of entry indices lead to, entering directories by their path, in the order of the addresses |
| `SkillTree.ListAll` | internal/skills/github.go:147-150 | the files listed, or the files before a refused directory, are what addresses of at most four levels lead to, in order and each once; a steady responder has nothing else before the last of them, and nothing else at all below 50 files; entries of other kinds lead nowhere |
| `FanOut.StepInv` | internal/skills/github.go:157-177 | every step keeps the tokens equal to the goroutines inside and within the capacity, the wait group equal to those not done, and each slot its own result, written once |
| `FanOut.NoDeadlock` | internal/skills/github.go:157-178 | while the wait group is open some goroutine can move |
| `FanOut.EverySchedule` | internal/skills/github.go:155-188 | under every schedule: never more than the capacity inside, at most four steps per goroutine, and at the join slot i holds result i, written exactly once |
| `FanOut.RunAll` | internal/skills/tools.go:57-75 | launching and waiting returns every result in its own slot, whoever moves when, with never more inside than the capacity |
| `Download.FetchRaw` | internal/skills/github.go:294-301 | unchanged up to the cap, cut and marked beyond it, never longer than the cap plus 16 |
| `Download.TotalBounded` | internal/skills/github.go:180-183 | the total is at most the number of files times the bound on each |
| `Download.TotalAdds` | internal/skills/github.go:180-183 | the total of two parts is the sum of their totals, and of one file its size |
| `Download.Download` | internal/skills/github.go:141-189 | one entry per listed file in order, with its path and its body cut at 256 KiB, or its own failure; the total is the sum and at most 50 times the cap plus 16; at most 6 fetches at once; the listing's error, or no files, otherwise |
| `Finder.AppendTurn` | internal/skills/agent.go:119-132 | whole turns followed by a turn are whole turns |
| `Finder.RequestsWellFormed` | internal/skills/agent.go:102-133 | for every model and tools, each completion call sees the opening and whole turns: every earlier call answered once, under its id, in order, right behind its message |
| `Finder.Find` | internal/skills/agent.go:94-136 | at most 8 completion calls, the first on the opening; each later transcript is the one before, the model's message and one tool message per call with the tool's text under the call's id; ends with the model's error, its first answer without calls together with the URLs fetched in order, or not converged after 8 |
| `Finder.Dispatch` | internal/skills/agent.go:119-132 | behind the model's message one tool message per call, in call order, with the text the tool gives for it at that point; the URLs are those of the calls that fetched something, in order |
| `Finder.GatherRequirements` | internal/skills/tools.go:85-96 | exactly the requirements with anything but white space, the single one first, in the order given and untrimmed |
| `Finder.FindAll` | internal/skills/tools.go:46-82 | refused without a requirement; else one result per requirement, in order, equal requirements each with their own, a failure staying in its own slot; at most 4 finders at once |
| `SkillRef.ParseSkillRef` | internal/skills/github.go:90-138 | the imperative parser computes the reference the lemmas below are about |
| `SkillRef.SplitJoin` | internal/skills/github.go:105-130 | splitting joined plain segments gives them back |
| `SkillRef.ReduceJoin` | internal/skills/github.go:133-136 | the last segment is dropped exactly when it has a dot |
| `SkillRef.TreeExactly` | internal/skills/github.go:107-114 | a tree URL is read as its directory exactly when the last directory segment has no dot |
| `SkillRef.BlobExactly` | internal/skills/github.go:107-136 | a blob URL is read as the file's directory exactly when the file name has a dot |
| `SkillRef.RawExactly` | internal/skills/github.go:115-136 | likewise a raw URL |
| `SkillRef.OtherUrls` | internal/skills/github.go:106-114 | any other URL on the site with owner and repository is the repository's root on the default branch; with less it is refused |
| `SkillRef.ShortRawUrls` | internal/skills/github.go:115-120 | a raw URL without a branch is refused |
| `SkillRef.BareExactly` | internal/skills/github.go:97-136 | a bare path is read as its directory, without a branch, exactly when its last segment has no dot and the text contains neither host |
| `SkillRef.HostInPathRefused` | internal/skills/github.go:97-123 | a bare path that contains a host name and does not start with one is refused |
| `SkillRef.DotFreePathRefused` | internal/skills/github.go:97-123 | acme/github.com-skills/pdf is refused |
| `SkillRef.ReferenceFormsAgree` | internal/skills/github.go:80-138 | the four shapes of a link to one skill parse to one reference, the bare path leaving the branch open, exactly when the file has a dot, the directory none at its end and the bare path no host in it |
| `Rounding.Round2Near` | internal/gsc/client.go:175-185 | within half a hundredth |
| `Rounding.Round2Monotone` | internal/gsc/client.go:175-185 | never reverses an order |
| `Rounding.Round2Half` | internal/gsc/client.go:175-185 | a half of a hundredth goes up, and by symmetry away from zero |
| `Rounding.Round2Idempotent` | internal/gsc/client.go:175-185 | rounding again changes nothing |
| `Rounding.Round2Odd` | internal/gsc/client.go:175-185 | symmetric about zero |
| `Overview.PerformanceOverview` | internal/gsc/analytics.go:375-395 | one trend entry per row with its own figures, and the totals of clicks, impressions and impression-weighted position |
| `Overview.SumsAdd` | internal/gsc/analytics.go:386-388 | the three sums grow by a day's clicks, impressions, and position times impressions |
| `Overview.WeightedBounds` | internal/gsc/analytics.go:386-388 | bounds on the positions bound the weighted sum |
| `Overview.MeanSurvivesRounding` | internal/gsc/analytics.go:377-395 | with impressions, the reported position lies between two reported daily positions |
| `Overview.MeanWithinExactly` | internal/gsc/analytics.go:377-395 | for positions from 1 on, it does so exactly when something was shown |
| `Overview.RateSurvivesRounding` | internal/gsc/analytics.go:383-393 | when each day's rate is its clicks over its impressions and something was shown, the overall rate lies between two reported daily rates |
| `Metrics.QuotientsExactly` | internal/gsc/analytics.go:601-623 | the guarded quotients times their divisor give the dividend, in percent where meant, and are 0 for a divisor of 0 |
| `Compare.JoinInjective` | internal/gsc/analytics.go:460-461 | tuples of one arity free of the separator have different join keys |
| `Compare.JoinAloneExactly` | internal/gsc/analytics.go:460-461 | a tuple has a join key of its own among all tuples of its arity exactly when it is one value or free of the separator |
| `Compare.JoinCollision` | internal/gsc/analytics.go:460-461 | two tuples with the separator inside a value that share a join key |
| `Compare.LoopsJoin` | internal/gsc/analytics.go:460-473 | the two loops build the full outer join on the join key, whatever the rows, showing period 1's tuple where it has one |
| `Compare.ComparePeriods` | internal/gsc/analytics.go:455-493 | one comparison per join key of either period, falling period-2 clicks, cut at the limit, 10 when none is given; as many rows as join keys up to the limit, and no join key left out with more period-2 clicks than a row kept |
| `Compare.ComparedRow` | internal/gsc/analytics.go:475-488 | each safe compared tuple shows the clicks, impressions, rate and position of its own row of each period, or zeros where there is none |
| `Compare.ComparedChanges` | internal/gsc/analytics.go:479-488 | the four changes are those of the figures shown; the percentage is 100 from nothing to something and 0 from nothing to nothing |
| `Compare.EveryTupleOnce` | internal/gsc/analytics.go:460-488 | each safe tuple of either period is compared exactly once |
| `Compare.NeverMergedExactly` | internal/gsc/analytics.go:460-488 | that holds of a tuple among all rows of its arity exactly when it is one value or free of the separator |
| `Compare.CleanDistinct` | internal/gsc/analytics.go:460-461 | rows with one row per safe tuple have distinct join keys, so the conservation below holds of them |
| `Compare.ClicksConserved` | internal/gsc/analytics.go:475-488 | before the trim the click deltas sum to the change of the period totals, exactly for whole counts and within half a hundredth per row otherwise |
| `Compare.TrimKeepsTop` | internal/gsc/analytics.go:489-493 | in terms of the rows of the periods: as many rows are kept as there are join keys, up to the limit, and no key left out has more period-2 clicks than a row kept |
| `KeyFormat.GenerateKey` | internal/auth/apikey.go:49-57 | stamps its bytes in place and returns a key of the minted format |
| `KeyFormat.FormatExactly` | internal/auth/apikey.go:32-35 | the format is mcp_ and 32 characters from 0-9 and a-f |
| `KeyFormat.HexByteReads` | internal/auth/apikey.go:56 | a byte is written high half first in those digits |
| `KeyFormat.VersionAndVariant` | internal/auth/apikey.go:54-56 | every minted key reads as version 4, variant 10 (section 4.4 of RFC 4122) |
| `KeyFormat.HexInjective` | internal/auth/apikey.go:56 | hex encoding loses nothing |
| `KeyFormat.SameKeyExactly` | internal/auth/apikey.go:49-57 | two draws give one key exactly when they agree on the 122 bits not stamped |
| `Keys.CapStep` | internal/keysapi/keys.go:101-118 | no step takes a user past two keys |
| `Keys.NamedStep` | internal/auth/apikey.go:80-123 | table, caches and cache fills under way name a key only by the id it was minted with, and the mint history only grows |
| `Keys.ReachableInv` | internal/auth/apikey.go:80-123 | over every run: caches are part of the mint history, no user holds more than two keys, no memory refers to a missing key |
| `Keys.IdNeverChanges` | internal/auth/apikey.go:63-104 | any two answers for a key in one history, by any resolvers at any times, are the same id |
| `Keys.RevokedKey` | migrations/0003_api_keys.sql:32-36 | a revoked key can still be admitted by a resolver, at any later time, exactly while it caches the key or one of its calls read it before; no memory refers to the key and none can be written |
| `Keys.AdmittedAfterRevocation` | internal/auth/apikey.go:85-104 | for every key a history from the first start that creates, resolves and revokes it and then admits it from the cache |
| `Keys.Resolver.Resolve` | internal/auth/apikey.go:80-104 | malformed first, then the memo, then the table; the call is a run of the machine that hands out the id it answers, keeps the memo a mirror of the machine's, and remembers only successes |
| `Keys.Resolver.Create` | internal/auth/apikey.go:109-123 | a run of the machine that mints the key, without an owner, and remembers it under the id the insert returned; nothing changes when the insert fails |
| `Keys.Store.Create` | internal/keysapi/keys.go:105-133 | the machine's step: inserts below the cap and refuses at it; a database error changes nothing, and no other user's keys change |
| `Keys.Store.Delete` | internal/keysapi/keys.go:138-150 | the machine's step: removes only the owner's own key, and with it exactly that key's memories; text that is no id is a miss, a database error an error, and both change nothing |

## Left out

- AsyncStore.Store.RunEmbed: the class methods run without interruption but for the store being closed; other interleavings are the subject of the state machine, whose actions the methods are proved to be made of.
- AsyncStore.Store.EnqueueEmbed: raising the wait group and the send behind it are one step, so the moment at which a job is counted and not yet queued is not a state of its own.
- AsyncStore.Store.Write: metadata, update time and the returned row beyond its id are not kept; a transaction is atomic and its reported outcome is the real one, so a write-back that times out after taking effect is not covered.
- EmbedStore.CappedStep: the 20-row cap is stated for serialized transactions. The code sets no isolation level; overlapping writes to one key are not claimed. The same holds of the two keys per user in `Keys.CapStep`.
- EmbedStore.ReachableInv: one server process at a time works on the table, from an empty table on; the key and rows the migrations seed are not present at the start.
- Search.Search: which of two failing arms reports its error is left open; cancelling the sibling arm, recency and metadata of hits are not modelled. Similarity and full-text match are arbitrary functions. Which candidates the two queries return, and in which order, is left open: the vector index is approximate.
- Fusion.Fuse: reals stand for floats, so rounding of the reciprocal sums is not modelled.
- Rounding.Round2Near: reals stand for floats and the conversion to a 64-bit integer is taken not to overflow.
- EventLog.Topic.Consume: fetches of one group come in log order from its cursor and one commit is atomic; polls of one group do not overlap, nor a poll with a publish. A poll from the latest offset therefore returns nothing here; records that arrive while it waits are not modelled. Broker failures are one error value; timeouts are the fetch that meets the deadline; the timestamp's text form is left out.
- SkillRef.ParseSkillRef: the URL library is a parameter; the exactness lemmas assume of it only that it splits URLs of a plain host and plain segments as written. Segments with other characters, and branches with a slash, are parsed but not characterised. Whitespace beyond Latin-1 is not trimmed.
- Download.FetchRaw: content is a sequence of characters standing for bytes; the host guard, redirects and status codes are one failure outcome.
- Download.Download: the display name of the skill is left out.
- Finder.Find: the opening messages and the tools are parameters; the tool dispatch is an arbitrary total function of everything said so far.
- Compare.ComparePeriods: the naming of dimensions in the output rows is left out; ties keep no particular order because the map they come from has none.
- Keys.Store.Delete: parsing the id is left to the caller, which passes none for text that is no id; ids are abstract.
- Keys.ReachableInv: freshness of minted keys and ids is assumed, as they are random.
- Store.Get, Store.List, the key listing, masking and label clamping, normalisation of the read mode, topic administration, the other analytics tools, middleware, configuration and the web front end: one branch settles each, or they belong to other systems.
- Queries to Postgres, the embedding, search and chat services and the clock appear as parameters or as free choices of the machine.
