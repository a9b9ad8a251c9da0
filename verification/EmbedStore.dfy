/**
 The background embedding protocol as a state machine. One action is the work one goroutine
 does between two points where another may run; every interleaving is a sequence of actions.
 `embed` is the embedder: it may fail at any time, but when it answers it answers `embed(text)`.
 */
module EmbedStore {
  import opened Collections
  import opened Wrappers
  import opened MemoryTable

  const QUEUE_SIZE: nat := 1024
  const EMBED_ATTEMPTS: nat := 3
  const MIN_WORKERS: nat := 2

  datatype Job = Job(id: Id, content: string)

  /** Where a `runEmbed` call stands: inside attempt n, pausing after failed attempt n, or holding a vector. */
  datatype Stage = Trying(attempt: nat) | Sleeping(attempt: nat) | Ready(vec: Vector)

  datatype Task = Task(job: Job, stage: Stage)

  datatype Backfill = NotScanned | Draining(jobs: seq<Job>) | ScanFailed

  /**
   requests: rows committed by a caller that has not reached `enqueueEmbed` yet; cleared: jobs inside
   `enqueueEmbed`, past its test for a closed store and not yet sent;
   pool: jobs held by workers; spilled: jobs in detached goroutines; live: workers that have not exited;
   minted: every row id ever generated; failed: jobs whose failure this process has logged.
   */
  datatype State = State(
    rows: Table, minted: set<Id>,
    requests: seq<Job>, cleared: seq<Job>, queue: seq<Job>, pool: seq<Task>, spilled: seq<Task>,
    wg: int, live: nat, backfill: Backfill, cancelled: bool, failed: set<Job>)

  datatype Action =
      // client transactions
    | Write(id: Id, key: KeyId, content: string, tags: set<string>, created: int)
    | Update(key: KeyId, id: Id, content: string)
    | Delete(key: KeyId, id: Id)
    | Revoke(key: KeyId)
      // enqueueEmbed after a commit: the test for a closed store lets the job pass or drops it; then the send
    | Pass(req: nat)
    | Drop(req: nat)
    | Send(job: nat)
      // workers and runEmbed
    | Pickup
    | EmbedOk(pooled: bool, at: nat)
    | EmbedErr(pooled: bool, at: nat)
    | Wake(pooled: bool, at: nat)
    | Abandon(pooled: bool, at: nat)
    | WriteOk(pooled: bool, at: nat)
    | WriteErr(pooled: bool, at: nat)
    | WorkerExit
      // backfillPending
    | Scan(found: seq<Job>)
    | ScanErr
    | Refill
    | RefillDrop
      // shutdown; a crash or a shutdown followed by the next start
    | Close
    | Restart(cpus: nat)

  // ---------- transitions ----------

  function RemoveAt<T>(xs: seq<T>, i: nat): seq<T>
    requires i < |xs|
  {
    xs[..i] + xs[i + 1..]
  }

  function Tasks(s: State, pooled: bool): seq<Task> {
    if pooled then s.pool else s.spilled
  }

  function WithTasks(s: State, pooled: bool, tasks: seq<Task>): State {
    if pooled then s.(pool := tasks) else s.(spilled := tasks)
  }

  function Advance(s: State, pooled: bool, i: nat, stage: Stage): State
    requires i < |Tasks(s, pooled)|
  {
    var tasks := Tasks(s, pooled);
    WithTasks(s, pooled, tasks[i := tasks[i].(stage := stage)])
  }

  /** The deferred `embedWG.Done()`. */
  function Finish(s: State, pooled: bool, i: nat): State
    requires i < |Tasks(s, pooled)|
  {
    WithTasks(s, pooled, RemoveAt(Tasks(s, pooled), i)).(wg := s.wg - 1)
  }

  /** `enqueueEmbed` on an open store: to the queue, or to a detached goroutine when it is full. */
  function Push(s: State, job: Job): State {
    if |s.queue| < QUEUE_SIZE then
      s.(wg := s.wg + 1, queue := s.queue + [job])
    else
      s.(wg := s.wg + 1, spilled := s.spilled + [Task(job, Trying(1))])
  }

  /** UPDATE ... WHERE id = job.id AND content = job.content AND embedding IS NULL. */
  function WriteBack(rows: Table, job: Job, vec: Vector): Table {
    if job.id in rows && rows[job.id].content == job.content && rows[job.id].embedding.None? then
      rows[job.id := rows[job.id].(embedding := Some(vec))]
    else
      rows
  }

  predicate Owns(rows: Table, key: KeyId, id: Id) {
    id in rows && rows[id].key == key
  }

  predicate Pending(rows: Table, job: Job) {
    job.id in rows && rows[job.id].content == job.content && rows[job.id].embedding.None?
  }

  /** The answer of the backfill query: every pending row once, oldest first. */
  ghost predicate IsScan(rows: Table, jobs: seq<Job>) {
    && (forall k :: 0 <= k < |jobs| ==> Pending(rows, jobs[k]))
    && (forall j, k :: 0 <= j < k < |jobs| ==> jobs[j].id != jobs[k].id)
    && (forall j, k :: 0 <= j < k < |jobs| ==> rows[jobs[j].id].created <= rows[jobs[k].id].created)
    && (forall job :: Pending(rows, job) ==> job in jobs)
  }

  ghost predicate Enabled(s: State, a: Action) {
    match a
    case Write(id, _, _, _, _) => id !in s.minted
    case Update(key, id, _) => Owns(s.rows, key, id)
    case Delete(key, id) => Owns(s.rows, key, id)
    case Revoke(_) => true
    case Pass(i) => i < |s.requests| && !s.cancelled
    case Drop(i) => i < |s.requests| && s.cancelled
    case Send(i) => i < |s.cleared|
    case Pickup => s.queue != [] && |s.pool| < s.live
    case EmbedOk(p, i) => i < |Tasks(s, p)| && Tasks(s, p)[i].stage.Trying?
    case EmbedErr(p, i) => i < |Tasks(s, p)| && Tasks(s, p)[i].stage.Trying?
    case Wake(p, i) => i < |Tasks(s, p)| && Tasks(s, p)[i].stage.Sleeping?
    case Abandon(p, i) => i < |Tasks(s, p)| && Tasks(s, p)[i].stage.Sleeping? && s.cancelled
    case WriteOk(p, i) => i < |Tasks(s, p)| && Tasks(s, p)[i].stage.Ready?
    case WriteErr(p, i) => i < |Tasks(s, p)| && Tasks(s, p)[i].stage.Ready?
    case WorkerExit => s.cancelled && |s.pool| < s.live
    case Scan(jobs) => s.backfill.NotScanned? && IsScan(s.rows, jobs)
    case ScanErr => s.backfill.NotScanned?
    case Refill => s.backfill.Draining? && s.backfill.jobs != [] && !s.cancelled
    case RefillDrop => s.backfill.Draining? && s.backfill.jobs != [] && s.cancelled
    case Close => true
    case Restart(_) => true
  }

  function Boot(rows: Table, minted: set<Id>, cpus: nat): State {
    State(rows, minted, [], [], [], [], [], 0, if cpus < MIN_WORKERS then MIN_WORKERS else cpus, NotScanned, false, {})
  }

  function AfterEmbedErr(s: State, p: bool, i: nat): State
    requires i < |Tasks(s, p)| && Tasks(s, p)[i].stage.Trying?
  {
    var t := Tasks(s, p)[i];
    if s.cancelled then
      Finish(s, p, i)
    else if t.stage.attempt < EMBED_ATTEMPTS then
      Advance(s, p, i, Sleeping(t.stage.attempt))
    else
      Finish(s, p, i).(failed := s.failed + {t.job})
  }

  function AfterWriteErr(s: State, p: bool, i: nat): State
    requires i < |Tasks(s, p)|
  {
    Finish(s, p, i).(failed := if s.cancelled then s.failed else s.failed + {Tasks(s, p)[i].job})
  }

  function Edit(rows: Table, id: Id, content: string): Table
    requires id in rows
  {
    rows[id := rows[id].(content := content, embedding := None)]
  }

  function Without(rows: Table, key: KeyId): Table {
    map id | id in rows && rows[id].key != key :: rows[id]
  }

  ghost function Apply(embed: string -> Vector, s: State, a: Action): State
    requires Enabled(s, a)
  {
    match a
    case Write(id, key, content, tags, created) =>
      s.(rows := Insert(s.rows, id, Row(key, content, tags, created, None)),
         minted := s.minted + {id},
         requests := s.requests + [Job(id, content)])
    case Update(_, id, content) =>
      s.(rows := Edit(s.rows, id, content), requests := s.requests + [Job(id, content)])
    case Delete(_, id) => s.(rows := s.rows - {id})
    case Revoke(key) => s.(rows := Without(s.rows, key))
    case Pass(i) => s.(requests := RemoveAt(s.requests, i), cleared := s.cleared + [s.requests[i]])
    case Drop(i) => s.(requests := RemoveAt(s.requests, i))
    case Send(i) => Push(s.(cleared := RemoveAt(s.cleared, i)), s.cleared[i])
    case Pickup => s.(queue := s.queue[1..], pool := s.pool + [Task(s.queue[0], Trying(1))])
    case EmbedOk(p, i) => Advance(s, p, i, Ready(embed(Tasks(s, p)[i].job.content)))
    case EmbedErr(p, i) => AfterEmbedErr(s, p, i)
    case Wake(p, i) => Advance(s, p, i, Trying(Tasks(s, p)[i].stage.attempt + 1))
    case Abandon(p, i) => Finish(s, p, i)
    case WriteOk(p, i) =>
      var t := Tasks(s, p)[i];
      Finish(s, p, i).(rows := WriteBack(s.rows, t.job, t.stage.vec))
    case WriteErr(p, i) => AfterWriteErr(s, p, i)
    case WorkerExit => s.(live := s.live - 1)
    case Scan(jobs) => s.(backfill := Draining(jobs))
    case ScanErr => s.(backfill := ScanFailed)
    case Refill =>
      s.(backfill := Draining(s.backfill.jobs[1..]), cleared := s.cleared + [s.backfill.jobs[0]])
    case RefillDrop => s.(backfill := Draining(s.backfill.jobs[1..]))
    case Close => s.(cancelled := true)
    case Restart(cpus) => Boot(s.rows, s.minted, cpus)
  }

  ghost predicate Legal(embed: string -> Vector, s: State, acts: seq<Action>)
    decreases |acts|
  {
    acts == [] || (Enabled(s, acts[0]) && Legal(embed, Apply(embed, s, acts[0]), acts[1..]))
  }

  ghost function Exec(embed: string -> Vector, s: State, acts: seq<Action>): State
    requires Legal(embed, s, acts)
    decreases |acts|
  {
    if acts == [] then s else Exec(embed, Apply(embed, s, acts[0]), acts[1..])
  }

  /** The first start of the service, on an empty table. */
  function Start(cpus: nat): State {
    Boot(map[], {}, cpus)
  }

  // ---------- what every reachable state satisfies ----------

  ghost predicate StageOk(embed: string -> Vector, t: Task) {
    match t.stage
    case Trying(n) => 1 <= n <= EMBED_ATTEMPTS
    case Sleeping(n) => 1 <= n < EMBED_ATTEMPTS
    case Ready(v) => v == embed(t.job.content)
  }

  /** The wait group counts exactly the queued and running jobs; the bounds of queue and pool hold. */
  ghost predicate Counted(s: State) {
    && s.wg == |s.queue| + |s.pool| + |s.spilled|
    && |s.queue| <= QUEUE_SIZE
    && |s.pool| <= s.live
    && (s.live < MIN_WORKERS ==> s.cancelled)
    && s.rows.Keys <= s.minted
    && Capped(s.rows)
  }

  /** A stored vector is the embedding of the text now stored beside it. */
  ghost predicate Fresh(embed: string -> Vector, s: State) {
    && (forall id :: id in s.rows && s.rows[id].embedding.Some? ==> s.rows[id].embedding.value == embed(s.rows[id].content))
    && StagesOk(embed, s.pool)
    && StagesOk(embed, s.spilled)
  }

  ghost predicate StagesOk(embed: string -> Vector, tasks: seq<Task>) {
    forall t :: t in tasks ==> StageOk(embed, t)
  }

  ghost predicate Running(tasks: seq<Task>, job: Job) {
    exists t :: t in tasks && t.job == job
  }

  /** Someone still owes this exact (id, content) an embedding. */
  ghost predicate Owed(s: State, job: Job) {
    || job in s.requests
    || job in s.cleared
    || job in s.queue
    || Running(s.pool, job)
    || Running(s.spilled, job)
    || s.backfill.NotScanned?
    || (s.backfill.Draining? && job in s.backfill.jobs)
  }

  ghost predicate Excused(s: State, job: Job) {
    s.cancelled || s.backfill.ScanFailed? || job in s.failed
  }

  /** No pending row is forgotten unless a failure was logged or the store was closed. */
  ghost predicate Covered(s: State) {
    forall job :: Pending(s.rows, job) ==> Owed(s, job) || Excused(s, job)
  }

  ghost predicate Inv(embed: string -> Vector, s: State) {
    Counted(s) && Fresh(embed, s) && Covered(s)
  }

  // ---------- one step keeps the invariant ----------

  lemma RemovedAt<T>(xs: seq<T>, i: nat)
    requires i < |xs|
    ensures forall x :: x in xs ==> x == xs[i] || x in RemoveAt(xs, i)
    ensures forall x :: x in RemoveAt(xs, i) ==> x in xs
    ensures |RemoveAt(xs, i)| == |xs| - 1
  {
    var rest := RemoveAt(xs, i);
    forall x | x in xs
      ensures x == xs[i] || x in rest
    {
      var k :| 0 <= k < |xs| && xs[k] == x;
      if k < i {
        assert rest[k] == x;
      } else if k > i {
        assert rest[k - 1] == x;
      }
    }
  }

  lemma CappedStep(embed: string -> Vector, s: State, a: Action)
    requires Counted(s) && Enabled(s, a)
    ensures Capped(Apply(embed, s, a).rows)
  {
    var rows := Apply(embed, s, a).rows;
    forall key
      ensures |Stamps(rows, key)| <= MAX_PER_KEY
    {
      match a
      case Write(id, k, content, tags, created) =>
        InsertStamps(s.rows, id, Row(k, content, tags, created, None));
        if key == k {
          TopSize(Stamps(s.rows, k) + {Stamp(created, id)}, MAX_PER_KEY);
        }
      case _ =>
        assert Stamps(rows, key) <= Stamps(s.rows, key);
        SubsetSize(Stamps(rows, key), Stamps(s.rows, key));
    }
  }

  lemma CountedTaskStep(embed: string -> Vector, s: State, a: Action)
    requires Counted(s) && Enabled(s, a)
    requires a.EmbedOk? || a.EmbedErr? || a.Wake? || a.Abandon? || a.WriteErr? || a.WriteOk?
    ensures Counted(Apply(embed, s, a))
  {
    CappedStep(embed, s, a);
    RemovedAt(Tasks(s, a.pooled), a.at);
  }

  lemma CountedTableStep(embed: string -> Vector, s: State, a: Action)
    requires Counted(s) && Enabled(s, a)
    requires a.Write? || a.Update? || a.Delete? || a.Revoke? || a.Restart?
    ensures Counted(Apply(embed, s, a))
  {
    CappedStep(embed, s, a);
  }

  lemma CountedStep(embed: string -> Vector, s: State, a: Action)
    requires Counted(s) && Enabled(s, a)
    ensures Counted(Apply(embed, s, a))
  {
    if a.EmbedOk? || a.EmbedErr? || a.Wake? || a.Abandon? || a.WriteErr? || a.WriteOk? {
      CountedTaskStep(embed, s, a);
    } else if a.Write? || a.Update? || a.Delete? || a.Revoke? || a.Restart? {
      CountedTableStep(embed, s, a);
    } else {
      assert Apply(embed, s, a).rows == s.rows && Apply(embed, s, a).minted == s.minted;
    }
  }

  lemma StagesAt(embed: string -> Vector, tasks: seq<Task>, i: nat)
    requires StagesOk(embed, tasks) && i < |tasks|
    ensures StageOk(embed, tasks[i])
    ensures StagesOk(embed, RemoveAt(tasks, i))
    ensures forall t :: StageOk(embed, t) ==> StagesOk(embed, tasks[i := t])
  {
    RemovedAt(tasks, i);
    assert tasks[i] in tasks;
  }

  lemma FreshTaskStep(embed: string -> Vector, s: State, a: Action)
    requires Fresh(embed, s) && Enabled(s, a)
    requires a.EmbedOk? || a.EmbedErr? || a.Wake? || a.Abandon? || a.WriteErr?
    ensures Fresh(embed, Apply(embed, s, a))
  {
    StagesAt(embed, Tasks(s, a.pooled), a.at);
  }

  lemma FreshWriteBack(embed: string -> Vector, s: State, a: Action)
    requires Fresh(embed, s) && Enabled(s, a) && a.WriteOk?
    ensures Fresh(embed, Apply(embed, s, a))
  {
    StagesAt(embed, Tasks(s, a.pooled), a.at);
  }

  lemma FreshStep(embed: string -> Vector, s: State, a: Action)
    requires Fresh(embed, s) && Enabled(s, a)
    ensures Fresh(embed, Apply(embed, s, a))
  {
    if a.EmbedOk? || a.EmbedErr? || a.Wake? || a.Abandon? || a.WriteErr? {
      FreshTaskStep(embed, s, a);
    } else if a.WriteOk? {
      FreshWriteBack(embed, s, a);
    }
  }

  lemma PushOwes(s: State, job: Job)
    ensures Owed(Push(s, job), job)
    ensures forall other :: Owed(s, other) ==> Owed(Push(s, job), other)
  {
    var after := Push(s, job);
    if |s.queue| < QUEUE_SIZE {
      assert after.queue[|s.queue|] == job;
    } else {
      assert after.spilled[|s.spilled|] == Task(job, Trying(1));
      forall other | Running(s.spilled, other)
        ensures Running(after.spilled, other)
      {
        var t :| t in s.spilled && t.job == other;
        assert t in after.spilled;
      }
    }
  }

  lemma AdvanceOwes(s: State, p: bool, i: nat, stage: Stage)
    requires i < |Tasks(s, p)|
    ensures forall job :: Owed(s, job) ==> Owed(Advance(s, p, i, stage), job)
  {
    var before, after := Tasks(s, p), Tasks(Advance(s, p, i, stage), p);
    forall job | Running(before, job)
      ensures Running(after, job)
    {
      var k :| 0 <= k < |before| && before[k].job == job;
      assert after[k].job == job && after[k] in after;
    }
  }

  lemma FinishOwes(s: State, p: bool, i: nat)
    requires i < |Tasks(s, p)|
    ensures forall job :: Owed(s, job) && job != Tasks(s, p)[i].job ==> Owed(Finish(s, p, i), job)
  {
    RemovedAt(Tasks(s, p), i);
    var before, after := Tasks(s, p), Tasks(Finish(s, p, i), p);
    forall job | Running(before, job) && job != before[i].job
      ensures Running(after, job)
    {
      var t :| t in before && t.job == job;
      assert t in after;
    }
  }

  lemma RequestsOwed(embed: string -> Vector, s: State, a: Action)
    requires Covered(s) && Enabled(s, a)
    requires a.Write? || a.Update? || a.Delete? || a.Revoke?
    ensures Covered(Apply(embed, s, a))
  {
    var after := Apply(embed, s, a);
    if a.Write? || a.Update? {
      assert after.requests[|s.requests|] == Job(a.id, a.content);
    }
    forall job | Pending(after.rows, job)
      ensures Owed(after, job) || Excused(after, job)
    {
      if a.Write? {
        if job != Job(a.id, a.content) {
          assert Pending(s.rows[a.id := Row(a.key, a.content, a.tags, a.created, None)], job);
          assert Pending(s.rows, job);
        }
      } else if job.id in s.rows && after.rows[job.id] == s.rows[job.id] {
        assert Pending(s.rows, job);
      }
    }
  }

  /** Coverage carries over a step that makes no row pending and only discharges or excuses jobs. */
  lemma CoverageCarries(s: State, after: State)
    requires Covered(s)
    requires forall job :: Pending(after.rows, job) ==> Pending(s.rows, job)
    requires forall job :: Pending(after.rows, job) && Owed(s, job) ==> Owed(after, job) || Excused(after, job)
    requires forall job :: Excused(s, job) ==> Excused(after, job)
    ensures Covered(after)
  {
  }

  lemma QueueOwed(embed: string -> Vector, s: State, a: Action)
    requires Covered(s) && Enabled(s, a)
    requires a.Pass? || a.Send? || a.Pickup? || a.Refill?
    ensures Covered(Apply(embed, s, a))
  {
    var after := Apply(embed, s, a);
    forall job | Owed(s, job)
      ensures Owed(after, job)
    {
      match a
      case Pass(i) =>
        RemovedAt(s.requests, i);
        assert after.cleared[|s.cleared|] == s.requests[i];
        assert forall other :: other in s.cleared ==> other in after.cleared;
      case Send(i) =>
        var mid := s.(cleared := RemoveAt(s.cleared, i));
        RemovedAt(s.cleared, i);
        PushOwes(mid, s.cleared[i]);
        assert Owed(mid, job) || job == s.cleared[i];
      case Pickup =>
        assert after.pool[|s.pool|] == Task(s.queue[0], Trying(1));
        assert job in s.queue ==> job == s.queue[0] || job in s.queue[1..];
        assert forall t :: t in s.pool ==> t in after.pool;
      case Refill =>
        var jobs := s.backfill.jobs;
        assert after.cleared[|s.cleared|] == jobs[0];
        assert job in jobs ==> job == jobs[0] || job in jobs[1..];
        assert forall other :: other in s.cleared ==> other in after.cleared;
    }
    CoverageCarries(s, after);
  }

  lemma EmbedOwed(embed: string -> Vector, s: State, a: Action)
    requires Covered(s) && Enabled(s, a)
    requires a.EmbedOk? || a.EmbedErr? || a.Wake?
    ensures Covered(Apply(embed, s, a))
  {
    var p, i := a.pooled, a.at;
    var t := Tasks(s, p)[i];
    match a
    case EmbedOk(_, _) => AdvanceOwes(s, p, i, Ready(embed(t.job.content)));
    case Wake(_, _) => AdvanceOwes(s, p, i, Trying(t.stage.attempt + 1));
    case EmbedErr(_, _) =>
      FinishOwes(s, p, i);
      if !s.cancelled && t.stage.attempt < EMBED_ATTEMPTS {
        AdvanceOwes(s, p, i, Sleeping(t.stage.attempt));
      }
  }

  lemma WriteBackOwed(embed: string -> Vector, s: State, a: Action)
    requires Covered(s) && Enabled(s, a)
    requires a.WriteOk? || a.WriteErr?
    ensures Covered(Apply(embed, s, a))
  {
    var after := Apply(embed, s, a);
    var job := Tasks(s, a.pooled)[a.at].job;
    FinishOwes(s, a.pooled, a.at);
    assert forall other :: Pending(after.rows, other) ==> Pending(s.rows, other);
    assert a.WriteOk? ==> !Pending(after.rows, job);
    assert forall other :: Owed(Finish(s, a.pooled, a.at), other) ==> Owed(after, other);
    CoverageCarries(s, after);
  }

  lemma CoveredStep(embed: string -> Vector, s: State, a: Action)
    requires Covered(s) && Enabled(s, a)
    ensures Covered(Apply(embed, s, a))
  {
    if a.Write? || a.Update? || a.Delete? || a.Revoke? {
      RequestsOwed(embed, s, a);
    } else if a.Pass? || a.Send? || a.Pickup? || a.Refill? {
      QueueOwed(embed, s, a);
    } else if a.EmbedOk? || a.EmbedErr? || a.Wake? {
      EmbedOwed(embed, s, a);
    } else if a.WriteOk? || a.WriteErr? {
      WriteBackOwed(embed, s, a);
    } else if a.Scan? {
      assert forall job :: Pending(s.rows, job) ==> job in a.found;
    }
  }

  lemma InvStep(embed: string -> Vector, s: State, a: Action)
    requires Inv(embed, s) && Enabled(s, a)
    ensures Inv(embed, Apply(embed, s, a))
  {
    CountedStep(embed, s, a);
    FreshStep(embed, s, a);
    CoveredStep(embed, s, a);
  }

  lemma {:induction false} InvRun(embed: string -> Vector, s: State, acts: seq<Action>)
    requires Inv(embed, s) && Legal(embed, s, acts)
    ensures Inv(embed, Exec(embed, s, acts))
    decreases |acts|
  {
    if acts != [] {
      InvStep(embed, s, acts[0]);
      InvRun(embed, Apply(embed, s, acts[0]), acts[1..]);
    }
  }

  /** Wait group, coverage, freshness and the 20-row cap hold after every run, through crashes and restarts. */
  lemma ReachableInv(embed: string -> Vector, cpus: nat, acts: seq<Action>)
    requires Legal(embed, Start(cpus), acts)
    ensures Inv(embed, Exec(embed, Start(cpus), acts))
  {
    forall key
      ensures |Stamps(Start(cpus).rows, key)| <= MAX_PER_KEY
    {
      assert Stamps(Start(cpus).rows, key) == {};
    }
    InvRun(embed, Start(cpus), acts);
  }
}
