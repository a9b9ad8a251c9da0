/** What runs of the embedding protocol promise: refinement, eviction history, drain and flush. */
module EmbedTheorems {
  import opened Collections
  import opened Wrappers
  import opened MemoryTable
  import opened EmbedStore

  // ---------- refinement of a store that embeds inside the request ----------

  function Filled(embed: string -> Vector, rows: Table): Table {
    map id | id in rows :: rows[id].(embedding := Some(embed(rows[id].content)))
  }

  /** The synchronous store: each client transaction stores the vector itself; all else is invisible. */
  function Sync(embed: string -> Vector, rows: Table, a: Action): Table {
    match a
    case Write(id, key, content, tags, created) =>
      Insert(rows, id, Row(key, content, tags, created, Some(embed(content))))
    case Update(key, id, content) =>
      if Owns(rows, key, id) then rows[id := rows[id].(content := content, embedding := Some(embed(content)))] else rows
    case Delete(key, id) => if Owns(rows, key, id) then rows - {id} else rows
    case Revoke(key) => Without(rows, key)
    case _ => rows
  }

  function SyncRun(embed: string -> Vector, rows: Table, acts: seq<Action>): Table
    decreases |acts|
  {
    if acts == [] then rows else SyncRun(embed, Sync(embed, rows, acts[0]), acts[1..])
  }

  lemma FilledStamps(embed: string -> Vector, rows: Table)
    ensures forall key :: Stamps(Filled(embed, rows), key) == Stamps(rows, key)
  {
  }

  lemma FilledEvict(embed: string -> Vector, rows: Table, key: KeyId)
    ensures Filled(embed, Evict(rows, key)) == Evict(Filled(embed, rows), key)
  {
    FilledStamps(embed, rows);
    assert Stamps(Filled(embed, rows), key) == Stamps(rows, key);
  }

  lemma SyncWrite(embed: string -> Vector, s: State, a: Action)
    requires Enabled(s, a) && a.Write?
    ensures Filled(embed, Apply(embed, s, a).rows) == Sync(embed, Filled(embed, s.rows), a)
  {
    var mid := s.rows[a.id := Row(a.key, a.content, a.tags, a.created, None)];
    FilledEvict(embed, mid, a.key);
    assert Filled(embed, s.rows)[a.id := Row(a.key, a.content, a.tags, a.created, Some(embed(a.content)))]
        == Filled(embed, mid);
  }

  lemma SyncEdit(embed: string -> Vector, s: State, a: Action)
    requires Enabled(s, a) && (a.Update? || a.Delete? || a.Revoke?)
    ensures Filled(embed, Apply(embed, s, a).rows) == Sync(embed, Filled(embed, s.rows), a)
  {
  }

  /** Writing a vector back changes nothing the synchronous store can see. */
  lemma FilledWriteBack(embed: string -> Vector, rows: Table, job: Job, vec: Vector)
    ensures Filled(embed, WriteBack(rows, job, vec)) == Filled(embed, rows)
  {
  }

  lemma SyncStep(embed: string -> Vector, s: State, a: Action)
    requires Enabled(s, a)
    ensures Filled(embed, Apply(embed, s, a).rows) == Sync(embed, Filled(embed, s.rows), a)
  {
    if a.Write? {
      SyncWrite(embed, s, a);
    } else if a.Update? || a.Delete? || a.Revoke? {
      SyncEdit(embed, s, a);
    } else if a.WriteOk? {
      var t := Tasks(s, a.pooled)[a.at];
      FilledWriteBack(embed, s.rows, t.job, t.stage.vec);
    } else {
      Unseen(embed, s, a);
    }
  }

  lemma Unseen(embed: string -> Vector, s: State, a: Action)
    requires Enabled(s, a) && !a.Write? && !a.Update? && !a.Delete? && !a.Revoke? && !a.WriteOk?
    ensures Apply(embed, s, a).rows == s.rows
  {
    if a.EmbedOk? || a.EmbedErr? || a.Wake? || a.Abandon? || a.WriteErr? {
      UnseenTask(embed, s, a);
    }
  }

  lemma UnseenTask(embed: string -> Vector, s: State, a: Action)
    requires Enabled(s, a) && (a.EmbedOk? || a.EmbedErr? || a.Wake? || a.Abandon? || a.WriteErr?)
    ensures Apply(embed, s, a).rows == s.rows
  {
  }

  lemma {:induction false} SyncRefined(embed: string -> Vector, s: State, acts: seq<Action>)
    requires Legal(embed, s, acts)
    ensures Filled(embed, Exec(embed, s, acts).rows) == SyncRun(embed, Filled(embed, s.rows), acts)
    decreases |acts|
  {
    if acts != [] {
      SyncStep(embed, s, acts[0]);
      SyncRefined(embed, Apply(embed, s, acts[0]), acts[1..]);
    }
  }

  /** Flushed, nothing logged as failed, store open, startup recovery over. */
  ghost predicate AtRest(s: State) {
    s.wg == 0 && s.requests == [] && s.cleared == [] && s.failed == {} && !s.cancelled && s.backfill == Draining([])
  }

  lemma RestHasVector(embed: string -> Vector, s: State, job: Job)
    requires Inv(embed, s) && AtRest(s)
    ensures !Pending(s.rows, job)
  {
    assert Pending(s.rows, job) ==> Owed(s, job) || Excused(s, job);
    assert |s.queue| == 0 && |s.pool| == 0 && |s.spilled| == 0;
  }

  /**
   After any run from the first start, crashes and restarts included, a store at rest holds
   exactly the table the synchronous store would hold after the same client transactions.
   */
  lemma RestRefinesSync(embed: string -> Vector, cpus: nat, acts: seq<Action>)
    requires Legal(embed, Start(cpus), acts)
    requires AtRest(Exec(embed, Start(cpus), acts))
    ensures Exec(embed, Start(cpus), acts).rows == SyncRun(embed, map[], acts)
  {
    var s := Exec(embed, Start(cpus), acts);
    ReachableInv(embed, cpus, acts);
    SyncRefined(embed, Start(cpus), acts);
    assert Filled(embed, Start(cpus).rows) == map[];
    forall id | id in s.rows
      ensures s.rows[id].embedding == Some(embed(s.rows[id].content))
    {
      RestHasVector(embed, s, Job(id, s.rows[id].content));
    }
    assert s.rows == Filled(embed, s.rows);
  }

  /** At any moment, not only at rest: what is stored differs from the synchronous store only by missing vectors. */
  lemma MissingVectorsOnly(embed: string -> Vector, cpus: nat, acts: seq<Action>, id: Id)
    requires Legal(embed, Start(cpus), acts)
    ensures id in Exec(embed, Start(cpus), acts).rows <==> id in SyncRun(embed, map[], acts)
    ensures id in SyncRun(embed, map[], acts) ==>
              var row, full := Exec(embed, Start(cpus), acts).rows[id], SyncRun(embed, map[], acts)[id];
              row == full || row == full.(embedding := None)
  {
    ReachableInv(embed, cpus, acts);
    SyncRefined(embed, Start(cpus), acts);
    assert Filled(embed, Start(cpus).rows) == map[];
  }

  /** Revoking a key takes all its rows and no other key's, and nothing else moves. */
  lemma RevokeTakes(embed: string -> Vector, s: State, key: KeyId)
    ensures var after := Apply(embed, s, Revoke(key));
            && after == s.(rows := after.rows)
            && (forall j :: j in after.rows <==> j in s.rows && s.rows[j].key != key)
            && (forall j :: j in after.rows ==> after.rows[j] == s.rows[j])
  {
  }

  // ---------- the ring buffer over whole runs ----------

  /** Stamps of every row ever inserted for a key. */
  function Ever(acts: seq<Action>, key: KeyId): set<Stamp> {
    if acts == [] then {} else Written(acts[0], key) + Ever(acts[1..], key)
  }

  function Written(a: Action, key: KeyId): set<Stamp> {
    if a.Write? && a.key == key then {Stamp(a.created, a.id)} else {}
  }

  predicate OnlyEvicts(acts: seq<Action>) {
    forall a :: a in acts ==> !a.Delete? && !a.Revoke?
  }

  lemma OtherStamps(embed: string -> Vector, s: State, a: Action, key: KeyId)
    requires Enabled(s, a) && !a.Write?
    ensures Stamps(Apply(embed, s, a).rows, key) <= Stamps(s.rows, key)
    ensures !a.Delete? && !a.Revoke? ==> Stamps(Apply(embed, s, a).rows, key) == Stamps(s.rows, key)
  {
    var after := Apply(embed, s, a).rows;
    forall st: Stamp | st in Stamps(s.rows, key) && !a.Delete? && !a.Revoke?
      ensures st in Stamps(after, key)
    {
      assert st.id in after;
    }
  }

  lemma RingStep(embed: string -> Vector, s: State, a: Action, key: KeyId, past: set<Stamp>)
    requires s.rows.Keys <= s.minted && Enabled(s, a) && !a.Delete? && !a.Revoke?
    requires Stamps(s.rows, key) == Top(past, MAX_PER_KEY)
    ensures Stamps(Apply(embed, s, a).rows, key) == Top(past + Written(a, key), MAX_PER_KEY)
    ensures Apply(embed, s, a).rows.Keys <= Apply(embed, s, a).minted
  {
    if a.Write? {
      InsertStamps(s.rows, a.id, Row(a.key, a.content, a.tags, a.created, None));
      TopIncremental(past, Stamp(a.created, a.id), MAX_PER_KEY);
      assert past + {} == past;
    } else {
      OtherStamps(embed, s, a, key);
      assert past + Written(a, key) == past;
    }
  }

  lemma {:induction false} RingRun(embed: string -> Vector, s: State, acts: seq<Action>, key: KeyId, past: set<Stamp>)
    requires s.rows.Keys <= s.minted && Legal(embed, s, acts) && OnlyEvicts(acts)
    requires Stamps(s.rows, key) == Top(past, MAX_PER_KEY)
    ensures Stamps(Exec(embed, s, acts).rows, key) == Top(past + Ever(acts, key), MAX_PER_KEY)
    decreases |acts|
  {
    if acts == [] {
      assert past + Ever(acts, key) == past;
    } else {
      var a := acts[0];
      var now := past + Written(a, key);
      assert a in acts;
      RingStep(embed, s, a, key, past);
      RingRun(embed, Apply(embed, s, a), acts[1..], key, now);
      assert past + Ever(acts, key) == now + Ever(acts[1..], key);
    }
  }

  /**
   Evicting write by write, in any timestamp order and through crashes, leaves each key with the
   newest 20 of everything ever written to it, provided nothing else removes rows.
   */
  lemma RingIsGlobalTop(embed: string -> Vector, cpus: nat, acts: seq<Action>, key: KeyId)
    requires Legal(embed, Start(cpus), acts) && OnlyEvicts(acts)
    ensures Stamps(Exec(embed, Start(cpus), acts).rows, key) == Top(Ever(acts, key), MAX_PER_KEY)
    ensures forall x :: x in Ever(acts, key) ==>
              (Present(Exec(embed, Start(cpus), acts).rows, key, x) <==>
               |set y | y in Ever(acts, key) && (y.created > x.created || (y.created == x.created && y.id > x.id))| < 20)
  {
    assert Stamps(Start(cpus).rows, key) == Top({}, MAX_PER_KEY);
    RingRun(embed, Start(cpus), acts, key, {});
    assert {} + Ever(acts, key) == Ever(acts, key);
    forall x | x in Ever(acts, key)
      ensures x in Top(Ever(acts, key), MAX_PER_KEY) <==>
              |set y | y in Ever(acts, key) && (y.created > x.created || (y.created == x.created && y.id > x.id))| < 20
    {
      TopByStamp(Ever(acts, key), MAX_PER_KEY, x);
    }
  }

  predicate Present(rows: Table, key: KeyId, st: Stamp) {
    st.id in rows && rows[st.id].key == key && rows[st.id].created == st.created
  }

  /** No step takes the row with this stamp away by name: by deleting it or by revoking its key. */
  predicate NeverRemoved(acts: seq<Action>, key: KeyId, st: Stamp) {
    forall a :: a in acts ==> !(a.Delete? && a.id == st.id) && !(a.Revoke? && a.key == key)
  }

  lemma TopOfFewer(fewer: set<Stamp>, all: set<Stamp>, st: Stamp, n: nat)
    requires fewer <= all && st in Top(all, n) && st in fewer
    ensures st in Top(fewer, n)
  {
    assert Above(fewer, st) <= Above(all, st);
    SubsetSize(Above(fewer, st), Above(all, st));
  }

  lemma KeptStep(embed: string -> Vector, s: State, a: Action, key: KeyId, st: Stamp, past: set<Stamp>, ever: set<Stamp>)
    requires s.rows.Keys <= s.minted && Enabled(s, a) && NeverRemoved([a], key, st)
    requires Stamps(s.rows, key) <= past && past + Written(a, key) <= ever && st in Top(ever, MAX_PER_KEY)
    requires st in past ==> st in Stamps(s.rows, key)
    ensures var after := Apply(embed, s, a);
            && after.rows.Keys <= after.minted && Stamps(after.rows, key) <= past + Written(a, key)
            && (st in past + Written(a, key) ==> st in Stamps(after.rows, key))
  {
    assert a in [a];
    if a.Write? {
      InsertStamps(s.rows, a.id, Row(a.key, a.content, a.tags, a.created, None));
      var now := Stamps(s.rows, key) + Written(a, key);
      if a.key == key && st in now {
        TopOfFewer(now, ever, st, MAX_PER_KEY);
      }
    } else {
      OtherStamps(embed, s, a, key);
      if st in Stamps(s.rows, key) {
        RowStays(embed, s, a, key, st);
      }
    }
  }

  lemma RowStays(embed: string -> Vector, s: State, a: Action, key: KeyId, st: Stamp)
    requires Enabled(s, a) && !a.Write? && NeverRemoved([a], key, st) && st in Stamps(s.rows, key)
    ensures st in Stamps(Apply(embed, s, a).rows, key)
  {
    assert a in [a];
    if !a.Delete? && !a.Revoke? {
      OtherStamps(embed, s, a, key);
    }
  }

  lemma {:induction false} KeptRun(embed: string -> Vector, s: State, acts: seq<Action>, key: KeyId, st: Stamp, past: set<Stamp>)
    requires s.rows.Keys <= s.minted && Legal(embed, s, acts) && NeverRemoved(acts, key, st)
    requires Stamps(s.rows, key) <= past && st in Top(past + Ever(acts, key), MAX_PER_KEY)
    requires st in past ==> st in Stamps(s.rows, key)
    ensures st in Stamps(Exec(embed, s, acts).rows, key)
    decreases |acts|
  {
    if acts != [] {
      var a, now := acts[0], past + Written(acts[0], key);
      assert past + Ever(acts, key) == now + Ever(acts[1..], key);
      KeptStep(embed, s, a, key, st, past, now + Ever(acts[1..], key));
      KeptRun(embed, Apply(embed, s, a), acts[1..], key, st, now);
    }
  }

  /**
   With deletions and revocations too: a row among the newest 20 of everything ever written to its key is
   there unless it was itself deleted or its key revoked. Eviction alone never takes it.
   */
  lemma NewestKept(embed: string -> Vector, cpus: nat, acts: seq<Action>, key: KeyId, st: Stamp)
    requires Legal(embed, Start(cpus), acts)
    requires st in Ever(acts, key) && NeverRemoved(acts, key, st)
    requires |set y | y in Ever(acts, key) && (y.created > st.created || (y.created == st.created && y.id > st.id))| < 20
    ensures Present(Exec(embed, Start(cpus), acts).rows, key, st)
  {
    TopByStamp(Ever(acts, key), MAX_PER_KEY, st);
    assert {} + Ever(acts, key) == Ever(acts, key);
    KeptRun(embed, Start(cpus), acts, key, st, {});
  }

  // ---------- draining ----------

  /** Steps the service takes by itself. */
  predicate Internal(a: Action) {
    !a.Write? && !a.Update? && !a.Delete? && !a.Revoke? && !a.Close? && !a.Restart?
  }

  function StageCost(stage: Stage): nat {
    match stage
    case Trying(n) => if n <= EMBED_ATTEMPTS then 2 * (EMBED_ATTEMPTS - n) + 2 else 2
    case Sleeping(n) => if n <= EMBED_ATTEMPTS then 2 * (EMBED_ATTEMPTS - n) + 1 else 1
    case Ready(_) => 1
  }

  function TaskCost(tasks: seq<Task>): nat {
    if tasks == [] then 0 else StageCost(tasks[0].stage) + TaskCost(tasks[1..])
  }

  function BackfillCost(s: State): nat {
    match s.backfill
    case NotScanned => 9 * |s.rows| + 1
    case Draining(jobs) => 9 * |jobs|
    case ScanFailed => 0
  }

  /** Remaining work: jobs not yet running, attempts left of those that are, and workers still to exit. */
  function Cost(s: State): nat {
    9 * |s.requests| + 8 * |s.cleared| + 7 * |s.queue| + TaskCost(s.pool) + TaskCost(s.spilled) + BackfillCost(s) + s.live
  }

  lemma {:induction false} TaskCostSplit(a: seq<Task>, b: seq<Task>)
    ensures TaskCost(a + b) == TaskCost(a) + TaskCost(b)
  {
    if a == [] {
      assert a + b == b;
    } else {
      assert (a + b)[1..] == a[1..] + b;
      TaskCostSplit(a[1..], b);
    }
  }

  lemma TaskCostAt(tasks: seq<Task>, i: nat, t: Task)
    requires i < |tasks|
    ensures TaskCost(tasks[i := t]) == TaskCost(tasks) - StageCost(tasks[i].stage) + StageCost(t.stage)
    ensures TaskCost(RemoveAt(tasks, i)) == TaskCost(tasks) - StageCost(tasks[i].stage)
  {
    assert tasks == tasks[..i] + ([tasks[i]] + tasks[i + 1..]);
    assert tasks[i := t] == tasks[..i] + ([t] + tasks[i + 1..]);
    TaskCostSplit(tasks[..i], [tasks[i]] + tasks[i + 1..]);
    TaskCostSplit(tasks[..i], [t] + tasks[i + 1..]);
    TaskCostSplit(tasks[..i], tasks[i + 1..]);
  }

  lemma ScanSize(rows: Table, jobs: seq<Job>)
    requires IsScan(rows, jobs)
    ensures |jobs| <= |rows|
  {
    var ids := seq(|jobs|, k requires 0 <= k < |jobs| => jobs[k].id);
    DistinctSize(ids);
    assert forall k :: 0 <= k < |jobs| ==> ids[k] == jobs[k].id && Pending(rows, jobs[k]);
    assert |rows.Keys| == |rows|;
    SubsetSize(Elements(ids), rows.Keys);
  }

  lemma FinishCosts(s: State, p: bool, i: nat)
    requires i < |Tasks(s, p)|
    ensures Cost(Finish(s, p, i)) < Cost(s)
  {
    TaskCostAt(Tasks(s, p), i, Tasks(s, p)[i]);
  }

  lemma AdvanceCosts(s: State, p: bool, i: nat, stage: Stage)
    requires i < |Tasks(s, p)| && StageCost(stage) < StageCost(Tasks(s, p)[i].stage)
    ensures Cost(Advance(s, p, i, stage)) < Cost(s)
  {
    TaskCostAt(Tasks(s, p), i, Tasks(s, p)[i].(stage := stage));
  }

  lemma EmbedStepCosts(embed: string -> Vector, s: State, a: Action)
    requires Fresh(embed, s) && Enabled(s, a)
    requires a.EmbedOk? || a.EmbedErr? || a.Wake?
    ensures Cost(Apply(embed, s, a)) < Cost(s)
  {
    var p, i := a.pooled, a.at;
    var t := Tasks(s, p)[i];
    StagesAt(embed, Tasks(s, p), i);
    if a.EmbedOk? {
      AdvanceCosts(s, p, i, Ready(embed(t.job.content)));
    } else if a.Wake? {
      AdvanceCosts(s, p, i, Trying(t.stage.attempt + 1));
    } else if !s.cancelled && t.stage.attempt < EMBED_ATTEMPTS {
      AdvanceCosts(s, p, i, Sleeping(t.stage.attempt));
    } else {
      FinishCosts(s, p, i);
    }
  }

  lemma EndStepCosts(embed: string -> Vector, s: State, a: Action)
    requires Enabled(s, a)
    requires a.Abandon? || a.WriteOk? || a.WriteErr?
    ensures Cost(Apply(embed, s, a)) < Cost(s)
  {
    FinishCosts(s, a.pooled, a.at);
    if a.WriteOk? {
      var t := Tasks(s, a.pooled)[a.at];
      var after := WriteBack(s.rows, t.job, t.stage.vec);
      assert after.Keys == s.rows.Keys && |after.Keys| == |after| && |s.rows.Keys| == |s.rows|;
    }
  }

  lemma PushCosts(s: State, job: Job)
    ensures Cost(Push(s, job)) <= Cost(s) + 7
  {
    TaskCostSplit(s.spilled, [Task(job, Trying(1))]);
    assert TaskCost([Task(job, Trying(1))]) == 6 + TaskCost([]);
  }

  lemma QueueStepCosts(embed: string -> Vector, s: State, a: Action)
    requires Inv(embed, s) && Enabled(s, a)
    requires a.Pass? || a.Send? || a.Drop? || a.Pickup? || a.WorkerExit? || a.Scan? || a.ScanErr? || a.Refill? || a.RefillDrop?
    ensures Cost(Apply(embed, s, a)) < Cost(s)
  {
    match a
    case Pickup =>
      TaskCostSplit(s.pool, [Task(s.queue[0], Trying(1))]);
      assert TaskCost([Task(s.queue[0], Trying(1))]) == 6 + TaskCost([]);
    case Send(i) => PushCosts(s.(cleared := RemoveAt(s.cleared, i)), s.cleared[i]);
    case Refill =>
    case Pass(_) =>
    case Scan(jobs) => ScanSize(s.rows, jobs);
    case Drop(_) =>
    case WorkerExit =>
    case ScanErr =>
    case RefillDrop =>
  }

  lemma InternalStepCosts(embed: string -> Vector, s: State, a: Action)
    requires Inv(embed, s) && Enabled(s, a) && Internal(a)
    ensures Cost(Apply(embed, s, a)) < Cost(s)
  {
    if a.EmbedOk? || a.EmbedErr? || a.Wake? {
      EmbedStepCosts(embed, s, a);
    } else if a.Abandon? || a.WriteOk? || a.WriteErr? {
      EndStepCosts(embed, s, a);
    } else {
      QueueStepCosts(embed, s, a);
    }
  }

  /** Without new requests every schedule is finite, and its length is bounded in advance. */
  lemma {:induction false} DrainBounded(embed: string -> Vector, s: State, acts: seq<Action>)
    requires Inv(embed, s) && Legal(embed, s, acts)
    requires forall a :: a in acts ==> Internal(a)
    ensures |acts| + Cost(Exec(embed, s, acts)) <= Cost(s)
    decreases |acts|
  {
    if acts != [] {
      InternalStepCosts(embed, s, acts[0]);
      InvStep(embed, s, acts[0]);
      DrainBounded(embed, Apply(embed, s, acts[0]), acts[1..]);
    }
  }

  ghost predicate Stuck(s: State) {
    forall a :: Enabled(s, a) ==> !Internal(a)
  }

  /** The backfill query always has an answer. */
  lemma {:induction false} ScanExists(rows: Table) returns (jobs: seq<Job>)
    ensures IsScan(rows, jobs)
    decreases |rows|
  {
    var waiting := set id | id in rows && rows[id].embedding.None? :: Stamp(rows[id].created, id);
    if waiting == {} {
      jobs := [];
      assert forall job :: Pending(rows, job) ==> Stamp(rows[job.id].created, job.id) in waiting;
    } else {
      var last := Newest(waiting);
      var rest := rows - {last.id};
      assert |rest| < |rows| by {
        assert rows == rest[last.id := rows[last.id]];
      }
      jobs := ScanExists(rest);
      forall job | job in jobs
        ensures rows[job.id].created <= last.created
      {
        assert Stamp(rows[job.id].created, job.id) in waiting;
      }
      jobs := jobs + [Job(last.id, rows[last.id].content)];
      assert forall job :: Pending(rows, job) ==> job.id == last.id || Pending(rest, job);
    }
  }

  /**
   Where draining ends. No goroutine can move exactly when nobody is between commit and enqueue, no job
   is running and the backfill is over; then the wait group is the queue, and what is left in the queue
   has no worker to take it, which only a closed store can cause.
   */
  lemma StuckExactly(embed: string -> Vector, s: State)
    requires Inv(embed, s)
    ensures Stuck(s) <==>
              && s.requests == [] && s.cleared == [] && s.pool == [] && s.spilled == []
              && (s.backfill.ScanFailed? || s.backfill == Draining([]))
              && (s.queue == [] || s.live == 0)
              && (s.cancelled ==> s.live == 0)
    ensures Stuck(s) ==> s.wg == |s.queue|
    ensures Stuck(s) && !s.cancelled ==> s.wg == 0
  {
    if Stuck(s) {
      assert Internal(Pass(0)) && Internal(Drop(0)) && Internal(RefillDrop);
      assert !Enabled(s, Pass(0)) && !Enabled(s, Drop(0)) && !Enabled(s, RefillDrop);
      assert Internal(Send(0)) && Internal(Pickup) && Internal(WorkerExit) && Internal(ScanErr) && Internal(Refill);
      assert !Enabled(s, Send(0)) && !Enabled(s, Pickup) && !Enabled(s, WorkerExit) && !Enabled(s, ScanErr) && !Enabled(s, Refill);
      TasksStuck(s, true);
      TasksStuck(s, false);
    }
  }

  lemma TasksStuck(s: State, p: bool)
    requires Stuck(s)
    ensures Tasks(s, p) == []
  {
    assert Internal(EmbedOk(p, 0)) && Internal(Wake(p, 0)) && Internal(WriteOk(p, 0));
    assert !Enabled(s, EmbedOk(p, 0)) && !Enabled(s, Wake(p, 0)) && !Enabled(s, WriteOk(p, 0));
  }

  /** Every schedule of an open store that cannot go on has flushed; without logged failures, it is at rest. */
  lemma DrainReachesRest(embed: string -> Vector, cpus: nat, acts: seq<Action>, drain: seq<Action>)
    requires Legal(embed, Start(cpus), acts)
    requires Legal(embed, Exec(embed, Start(cpus), acts), drain)
    requires forall a :: a in drain ==> Internal(a)
    requires !Exec(embed, Start(cpus), acts).cancelled
    ensures |drain| <= Cost(Exec(embed, Start(cpus), acts))
    ensures var end := Exec(embed, Exec(embed, Start(cpus), acts), drain);
            Stuck(end) ==> end.wg == 0 && (end.failed == {} && !end.backfill.ScanFailed? ==> AtRest(end))
  {
    var mid := Exec(embed, Start(cpus), acts);
    ReachableInv(embed, cpus, acts);
    DrainBounded(embed, mid, drain);
    InvRun(embed, mid, drain);
    StaysOpen(embed, mid, drain);
    StuckExactly(embed, Exec(embed, mid, drain));
  }

  lemma {:induction false} StaysOpen(embed: string -> Vector, s: State, acts: seq<Action>)
    requires Legal(embed, s, acts)
    requires forall a :: a in acts ==> Internal(a)
    ensures Exec(embed, s, acts).cancelled == s.cancelled
    decreases |acts|
  {
    if acts != [] {
      assert Internal(acts[0]);
      StaysOpen(embed, Apply(embed, s, acts[0]), acts[1..]);
    }
  }

  /** A step that loses nothing: the embedder and the database answer. */
  lemma GoodStep(embed: string -> Vector, s: State) returns (a: Action)
    requires Inv(embed, s) && !s.cancelled && s.failed == {} && !s.backfill.ScanFailed? && !AtRest(s)
    ensures Enabled(s, a) && Internal(a)
    ensures var after := Apply(embed, s, a);
            !after.cancelled && after.failed == {} && !after.backfill.ScanFailed?
  {
    if s.backfill.NotScanned? {
      var jobs := ScanExists(s.rows);
      a := Scan(jobs);
    } else if s.backfill.jobs != [] {
      a := Refill;
    } else if s.requests != [] {
      a := Pass(0);
    } else if s.cleared != [] {
      a := Send(0);
    } else if s.pool != [] || s.spilled != [] {
      var p := s.pool != [];
      match Tasks(s, p)[0].stage
      case Trying(_) => a := EmbedOk(p, 0);
      case Sleeping(_) => a := Wake(p, 0);
      case Ready(_) => a := WriteOk(p, 0);
    } else {
      a := Pickup;
    }
  }

  /** From every state of an open store that has logged no failure, some schedule embeds every row. */
  lemma {:induction false} CanReachRest(embed: string -> Vector, s: State) returns (drain: seq<Action>)
    requires Inv(embed, s) && !s.cancelled && s.failed == {} && !s.backfill.ScanFailed?
    ensures Legal(embed, s, drain) && (forall a :: a in drain ==> Internal(a))
    ensures AtRest(Exec(embed, s, drain))
    decreases Cost(s)
  {
    if AtRest(s) {
      drain := [];
    } else {
      var a := GoodStep(embed, s);
      InternalStepCosts(embed, s, a);
      InvStep(embed, s, a);
      var rest := CanReachRest(embed, Apply(embed, s, a));
      drain := [a] + rest;
      assert drain[1..] == rest;
    }
  }

  lemma {:induction false} RunSnoc(embed: string -> Vector, s: State, acts: seq<Action>, a: Action)
    requires Legal(embed, s, acts) && Enabled(Exec(embed, s, acts), a)
    ensures Legal(embed, s, acts + [a])
    ensures Exec(embed, s, acts + [a]) == Apply(embed, Exec(embed, s, acts), a)
    decreases |acts|
  {
    if acts == [] {
      assert acts + [a] == [a];
    } else {
      assert (acts + [a])[1..] == acts[1..] + [a];
      RunSnoc(embed, Apply(embed, s, acts[0]), acts[1..], a);
    }
  }

  /** A run after which one job is queued and nothing else is going on. */
  lemma OneQueued(embed: string -> Vector) returns (acts: seq<Action>)
    ensures Legal(embed, Start(2), acts)
    ensures var s := Exec(embed, Start(2), acts);
            s.queue == [Job(0, "note")] && s == Start(2).(rows := s.rows, minted := {0}, queue := s.queue, wg := 1, backfill := Draining([]))
  {
    var s := Start(2);
    acts := NothingScanned(embed);
    var scanned := s.(backfill := Draining([]));
    var write := Write(0, 0, "note", {}, 0);
    RunSnoc(embed, s, acts, write);
    acts := acts + [write];
    var written := Apply(embed, scanned, write);
    PassFirst(embed, scanned, written, Job(0, "note"));
    RunSnoc(embed, s, acts, Pass(0));
    acts := acts + [Pass(0)];
    RunSnoc(embed, s, acts, Send(0));
    acts := acts + [Send(0)];
  }

  lemma NothingScanned(embed: string -> Vector) returns (acts: seq<Action>)
    ensures Legal(embed, Start(2), acts)
    ensures Exec(embed, Start(2), acts) == Start(2).(backfill := Draining([]))
  {
    assert IsScan(Start(2).rows, []);
    RunSnoc(embed, Start(2), [], Scan([]));
    acts := [] + [Scan([])];
  }

  lemma PassFirst(embed: string -> Vector, before: State, after: State, job: Job)
    requires before.queue == [] && before.requests == [] && before.cleared == [] && !before.cancelled
    requires after == before.(rows := after.rows, minted := after.minted, requests := [job])
    ensures Enabled(after, Pass(0)) && Enabled(Apply(embed, after, Pass(0)), Send(0))
    ensures Apply(embed, Apply(embed, after, Pass(0)), Send(0)) == after.(requests := [], queue := [job], wg := after.wg + 1)
  {
  }

  // ---------- when a flush returns ----------

  /** The wait group reaches zero at some moment of the run, which is when a waiter is let through. */
  ghost predicate PassesZero(embed: string -> Vector, s: State, acts: seq<Action>)
    requires Legal(embed, s, acts)
    decreases |acts|
  {
    s.wg == 0 || (acts != [] && PassesZero(embed, Apply(embed, s, acts[0]), acts[1..]))
  }

  /** A flush called here returns, whatever the scheduler does without new requests. */
  ghost predicate FlushReturns(embed: string -> Vector, s: State) {
    forall drain :: Legal(embed, s, drain) && AllInternal(drain) && Stuck(Exec(embed, s, drain)) ==>
      PassesZero(embed, s, drain)
  }

  predicate AllInternal(acts: seq<Action>) {
    forall a :: a in acts ==> Internal(a)
  }

  lemma {:induction false} EndsAtZero(embed: string -> Vector, s: State, acts: seq<Action>)
    requires Legal(embed, s, acts) && Exec(embed, s, acts).wg == 0
    ensures PassesZero(embed, s, acts)
    decreases |acts|
  {
    if acts != [] {
      EndsAtZero(embed, Apply(embed, s, acts[0]), acts[1..]);
    }
  }

  /** A closed store with nothing queued and nobody past the test for a closed store. */
  predicate QuietlyClosed(s: State) {
    s.cancelled && s.queue == [] && s.cleared == []
  }

  lemma {:induction false} QuietRun(embed: string -> Vector, s: State, drain: seq<Action>)
    requires QuietlyClosed(s) && Legal(embed, s, drain) && AllInternal(drain)
    ensures QuietlyClosed(Exec(embed, s, drain))
    decreases |drain|
  {
    if drain != [] {
      assert Internal(drain[0]);
      QuietRun(embed, Apply(embed, s, drain[0]), drain[1..]);
    }
  }

  lemma ConsInternal(embed: string -> Vector, s: State, a: Action, rest: seq<Action>)
    requires Enabled(s, a) && Internal(a) && Legal(embed, Apply(embed, s, a), rest) && AllInternal(rest)
    ensures Legal(embed, s, [a] + rest) && AllInternal([a] + rest)
    ensures Exec(embed, s, [a] + rest) == Exec(embed, Apply(embed, s, a), rest)
    ensures PassesZero(embed, s, [a] + rest) <==> s.wg == 0 || PassesZero(embed, Apply(embed, s, a), rest)
  {
    assert ([a] + rest)[1..] == rest;
  }

  /** On a closed store some goroutine can always give up its work without taking a job from the queue. */
  lemma GiveUp(s: State) returns (a: Action)
    requires Counted(s) && s.cancelled && !Stuck(s)
    ensures Enabled(s, a) && Internal(a) && !a.Pickup?
  {
    if s.requests != [] {
      a := Drop(0);
    } else if s.cleared != [] {
      a := Send(0);
    } else if s.pool != [] || s.spilled != [] {
      var p := s.pool != [];
      match Tasks(s, p)[0].stage
      case Trying(_) => a := EmbedErr(p, 0);
      case Sleeping(_) => a := Abandon(p, 0);
      case Ready(_) => a := WriteErr(p, 0);
    } else if s.backfill.NotScanned? {
      a := ScanErr;
    } else if s.backfill.Draining? && s.backfill.jobs != [] {
      a := RefillDrop;
    } else {
      var b :| Enabled(s, b) && Internal(b);
      a := WorkerExit;
    }
  }

  lemma QueueStays(embed: string -> Vector, s: State, a: Action)
    requires Enabled(s, a) && Internal(a) && !a.Pickup? && s.cancelled && s.queue != []
    ensures Apply(embed, s, a).cancelled && Apply(embed, s, a).queue != []
  {
  }

  /** Once a job is queued on a closed store, every worker may exit and leave it there. */
  lemma {:induction false} Strand(embed: string -> Vector, s: State) returns (drain: seq<Action>)
    requires Inv(embed, s) && s.cancelled && s.queue != []
    ensures Legal(embed, s, drain) && AllInternal(drain)
    ensures Stuck(Exec(embed, s, drain)) && !PassesZero(embed, s, drain)
    decreases Cost(s)
  {
    if Stuck(s) {
      drain := [];
    } else {
      var a := GiveUp(s);
      InternalStepCosts(embed, s, a);
      InvStep(embed, s, a);
      QueueStays(embed, s, a);
      var rest := Strand(embed, Apply(embed, s, a));
      ConsInternal(embed, s, a, rest);
      drain := [a] + rest;
    }
  }

  /**
   A flush returns under every schedule exactly when, at the call, the store is open, or the wait group is
   already down, or nothing is queued and nobody is between the test for a closed store and the send.
   */
  lemma FlushReturnsExactly(embed: string -> Vector, s: State)
    requires Inv(embed, s)
    ensures FlushReturns(embed, s) <==> !s.cancelled || s.wg == 0 || (s.queue == [] && s.cleared == [])
  {
    if !s.cancelled || s.wg == 0 || QuietlyClosed(s) {
      forall drain | Legal(embed, s, drain) && AllInternal(drain) && Stuck(Exec(embed, s, drain))
        ensures PassesZero(embed, s, drain)
      {
        if s.wg != 0 {
          FlushEnds(embed, s, drain);
        }
      }
    } else if s.queue != [] {
      var drain := Strand(embed, s);
    } else {
      var after := Apply(embed, s, Send(0));
      InvStep(embed, s, Send(0));
      var rest := Strand(embed, after);
      ConsInternal(embed, s, Send(0), rest);
    }
  }

  lemma FlushEnds(embed: string -> Vector, s: State, drain: seq<Action>)
    requires Inv(embed, s) && (!s.cancelled || QuietlyClosed(s))
    requires Legal(embed, s, drain) && AllInternal(drain) && Stuck(Exec(embed, s, drain))
    ensures PassesZero(embed, s, drain)
  {
    InvRun(embed, s, drain);
    StuckExactly(embed, Exec(embed, s, drain));
    if s.cancelled {
      QuietRun(embed, s, drain);
    } else {
      StaysOpen(embed, s, drain);
    }
    EndsAtZero(embed, s, drain);
  }

  /** After Close a flush can wait for ever: both workers exit while one job is still queued. */
  lemma CloseCanStrandFlush(embed: string -> Vector)
    ensures exists acts :: Legal(embed, Start(2), acts)
                        && var s := Exec(embed, Start(2), acts); Stuck(s) && s.cancelled && s.wg == 1
  {
    var queued := OneQueued(embed);
    RunSnoc(embed, Start(2), queued, Close);
    RunSnoc(embed, Start(2), queued + [Close], WorkerExit);
    RunSnoc(embed, Start(2), queued + [Close] + [WorkerExit], WorkerExit);
    var acts := queued + [Close] + [WorkerExit] + [WorkerExit];
    ReachableInv(embed, 2, acts);
    StuckExactly(embed, Exec(embed, Start(2), acts));
  }
}
