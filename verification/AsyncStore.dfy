/**
 The store object. Each method is the body of one Go function, proved to be a run of the machine of
 `EmbedStore`, so every invariant of that machine holds of the object too. Nothing else happens during a
 call, except that the store may be closed during `RunEmbed` and `BackfillPending`. Ghost fields hold what lives in goroutine stacks
 and in the database's history.
 */
module AsyncStore {
  import opened Wrappers
  import opened MemoryTable
  import opened EmbedStore
  import opened EmbedTheorems

  datatype Error = NotFound | Database

  /** What one whole `runEmbed` call leaves behind; ok: a vector was computed and the UPDATE was accepted. */
  function Settled(embed: string -> Vector, s: State, pooled: bool, at: nat, ok: bool): State
    requires at < |Tasks(s, pooled)|
  {
    var job := Tasks(s, pooled)[at].job;
    Finish(s, pooled, at).(
      rows := if ok then WriteBack(s.rows, job, embed(job.content)) else s.rows,
      failed := if ok || s.cancelled then s.failed else s.failed + {job})
  }

  /** Enqueueing one job after another. */
  function PushAll(s: State, jobs: seq<Job>): State
    decreases |jobs|
  {
    if jobs == [] then s else PushAll(Push(s, jobs[0]), jobs[1..])
  }

  lemma {:induction false} PushAllSnoc(s: State, jobs: seq<Job>, job: Job)
    ensures PushAll(s, jobs + [job]) == Push(PushAll(s, jobs), job)
    decreases |jobs|
  {
    if jobs == [] {
      assert jobs + [job] == [job];
    } else {
      assert (jobs + [job])[1..] == jobs[1..] + [job];
      PushAllSnoc(Push(s, jobs[0]), jobs[1..], job);
    }
  }

  function Detached(jobs: seq<Job>): seq<Task> {
    seq(|jobs|, k requires 0 <= k < |jobs| => Task(jobs[k], Trying(1)))
  }

  /** However many jobs a backfill finds, none is lost: the queue fills in order and the rest spill. */
  lemma {:induction false} PushAllKeeps(s: State, jobs: seq<Job>)
    requires |s.queue| <= QUEUE_SIZE
    ensures var room := QUEUE_SIZE - |s.queue|;
            var cut := if |jobs| <= room then |jobs| else room;
            var after := PushAll(s, jobs);
            && after.queue == s.queue + jobs[..cut]
            && after.spilled == s.spilled + Detached(jobs[cut..])
            && after.wg == s.wg + |jobs|
    decreases |jobs|
  {
    if jobs != [] {
      PushAllKeeps(Push(s, jobs[0]), jobs[1..]);
      var room := QUEUE_SIZE - |s.queue|;
      if room > 0 {
        var cut := if |jobs| <= room then |jobs| else room;
        assert jobs[..cut] == [jobs[0]] + jobs[1..][..cut - 1];
        assert jobs[cut..] == jobs[1..][cut - 1..];
      } else {
        assert jobs[..0] == [] && jobs[1..][..0] == [] && jobs[0..] == jobs && jobs[1..][0..] == jobs[1..];
        assert Detached(jobs) == [Task(jobs[0], Trying(1))] + Detached(jobs[1..]);
      }
    }
  }

  lemma Prepend(embed: string -> Vector, s: State, a: Action, rest: seq<Action>)
    requires Enabled(s, a) && Legal(embed, Apply(embed, s, a), rest)
    ensures Legal(embed, s, [a] + rest)
    ensures Exec(embed, s, [a] + rest) == Exec(embed, Apply(embed, s, a), rest)
    ensures (Internal(a) || a == Close) && OwnRun(rest) ==> OwnRun([a] + rest)
  {
    assert ([a] + rest)[1..] == rest;
  }

  /**
   One embedding attempt: whether the store is closed while it runs, whether it produces a vector, and
   whether the store is closed in the pause after it, which ends the job.
   */
  datatype Attempt = Attempt(closing: bool, ok: bool, leaves: bool)

  datatype Outcome = Outcome(got: bool, cancelled: bool)

  /** What a series of attempts comes to: a vector or not, and the store closed or not. */
  function Tried(attempts: seq<Attempt>, cancelled: bool): Outcome {
    if attempts == [] then Outcome(false, cancelled)
    else
      var closed := cancelled || attempts[0].closing;
      if attempts[0].ok then Outcome(true, closed)
      else if closed then Outcome(false, true)
      else if |attempts| == 1 then Outcome(false, false)
      else if attempts[0].leaves then Outcome(false, true)
      else Tried(attempts[1..], false)
  }

  /** Attempt k is made: it is the first, or every earlier one failed on a store that stayed open. */
  predicate Made(attempts: seq<Attempt>, cancelled: bool, k: nat)
    requires k < |attempts|
  {
    k == 0 || (!cancelled && forall j :: 0 <= j < k ==> !attempts[j].ok && !attempts[j].closing && !attempts[j].leaves)
  }

  lemma MadeNext(attempts: seq<Attempt>, cancelled: bool, k: nat)
    requires 0 < k < |attempts|
    ensures Made(attempts, cancelled, k) <==>
              !cancelled && !attempts[0].ok && !attempts[0].closing && !attempts[0].leaves && Made(attempts[1..], false, k - 1)
  {
    if Made(attempts[1..], false, k - 1) {
      assert forall j :: 0 < j < k ==> attempts[j] == attempts[1..][j - 1];
    }
    if Made(attempts, cancelled, k) {
      assert forall j :: 0 <= j < k - 1 ==> attempts[1..][j] == attempts[j + 1];
    }
  }

  /** A vector comes exactly from an attempt that is made and succeeds; the store ends closed exactly if it was, or is in an attempt made. */
  lemma {:induction false} TriedExactly(attempts: seq<Attempt>, cancelled: bool)
    ensures Tried(attempts, cancelled).got <==> exists k :: 0 <= k < |attempts| && Made(attempts, cancelled, k) && attempts[k].ok
    ensures Tried(attempts, cancelled).cancelled <==>
              cancelled || exists k :: 0 <= k < |attempts| && Made(attempts, cancelled, k) && Closes(attempts, k)
  {
    if attempts != [] {
      var rest := attempts[1..];
      TriedExactly(rest, false);
      assert Made(attempts, cancelled, 0);
      forall k | 0 < k < |attempts|
        ensures Made(attempts, cancelled, k) <==>
                  !cancelled && !attempts[0].ok && !attempts[0].closing && !attempts[0].leaves && Made(rest, false, k - 1)
        ensures attempts[k] == rest[k - 1] && (Closes(attempts, k) <==> Closes(rest, k - 1))
      {
        MadeNext(attempts, cancelled, k);
      }
      forall k | 0 <= k < |rest|
        ensures rest[k] == attempts[k + 1] && (Closes(rest, k) <==> Closes(attempts, k + 1))
        ensures !cancelled && !attempts[0].ok && !attempts[0].closing && !attempts[0].leaves && Made(rest, false, k) ==>
                  Made(attempts, cancelled, k + 1)
      {
        MadeNext(attempts, cancelled, k + 1);
      }
    }
  }

  /** The store is closed during attempt k, or in the pause after it, which only a failure that is not the last has. */
  predicate Closes(attempts: seq<Attempt>, k: nat)
    requires k < |attempts|
  {
    attempts[k].closing || (!attempts[k].ok && k < |attempts| - 1 && attempts[k].leaves)
  }

  /** The service's own steps, and closing it. */
  predicate OwnRun(acts: seq<Action>) {
    forall a :: a in acts ==> Internal(a) || a == Close
  }

  function Closing(s: State, closing: bool): State {
    s.(cancelled := s.cancelled || closing)
  }

  /** Closing the store first, if it is closed. */
  lemma PrependClosing(embed: string -> Vector, s: State, closing: bool, rest: seq<Action>) returns (acts: seq<Action>)
    requires Legal(embed, Closing(s, closing), rest) && OwnRun(rest)
    ensures Legal(embed, s, acts) && OwnRun(acts)
    ensures Exec(embed, s, acts) == Exec(embed, Closing(s, closing), rest)
  {
    acts := rest;
    if closing {
      assert Apply(embed, s, Close) == Closing(s, closing);
      Prepend(embed, s, Close, rest);
      acts := [Close] + rest;
    }
  }

  lemma EndRun(embed: string -> Vector, s: State, p: bool, at: nat, dbOk: bool) returns (acts: seq<Action>)
    requires at < |Tasks(s, p)| && Tasks(s, p)[at].stage == Ready(embed(Tasks(s, p)[at].job.content))
    ensures Legal(embed, s, acts) && OwnRun(acts)
    ensures Exec(embed, s, acts) == Settled(embed, s, p, at, dbOk)
  {
    var last := if dbOk then WriteOk(p, at) else WriteErr(p, at);
    Prepend(embed, s, last, []);
    acts := [last] + [];
  }

  lemma SettledAdvance(embed: string -> Vector, s: State, p: bool, at: nat, stage: Stage, ok: bool)
    requires at < |Tasks(s, p)|
    ensures Settled(embed, Advance(s, p, at, stage), p, at, ok) == Settled(embed, s, p, at, ok)
  {
    var tasks := Tasks(s, p);
    assert RemoveAt(tasks[at := tasks[at].(stage := stage)], at) == RemoveAt(tasks, at);
  }

  lemma WakeUp(embed: string -> Vector, s: State, p: bool, at: nat, n: nat)
    requires at < |Tasks(s, p)| && Tasks(s, p)[at].stage == Sleeping(n) && !s.cancelled
    ensures Enabled(s, Wake(p, at)) && Apply(embed, s, Wake(p, at)) == Advance(s, p, at, Trying(n + 1))
  {
  }

  /** A failed attempt and the pause after it, put before a run of the next attempt. */
  lemma PrependPause(embed: string -> Vector, s: State, p: bool, at: nat, n: nat, rest: seq<Action>)
    requires at < |Tasks(s, p)| && Tasks(s, p)[at].stage == Trying(n) && n < EMBED_ATTEMPTS && !s.cancelled
    requires Legal(embed, Advance(Advance(s, p, at, Sleeping(n)), p, at, Trying(n + 1)), rest)
    ensures var acts := [EmbedErr(p, at)] + ([Wake(p, at)] + rest);
            && Legal(embed, s, acts) && (OwnRun(rest) ==> OwnRun(acts))
            && Exec(embed, s, acts) == Exec(embed, Advance(Advance(s, p, at, Sleeping(n)), p, at, Trying(n + 1)), rest)
  {
    var asleep := Advance(s, p, at, Sleeping(n));
    assert Enabled(s, EmbedErr(p, at)) && Apply(embed, s, EmbedErr(p, at)) == asleep;
    WakeUp(embed, asleep, p, at, n);
    Prepend(embed, asleep, Wake(p, at), rest);
    Prepend(embed, s, EmbedErr(p, at), [Wake(p, at)] + rest);
  }

  /** A failed attempt, after which the store is closed during the pause and the job given up. */
  lemma LeaveRun(embed: string -> Vector, s: State, p: bool, at: nat, n: nat) returns (acts: seq<Action>)
    requires at < |Tasks(s, p)| && Tasks(s, p)[at].stage == Trying(n) && n < EMBED_ATTEMPTS && !s.cancelled
    ensures Legal(embed, s, acts) && OwnRun(acts)
    ensures Exec(embed, s, acts) == Settled(embed, s.(cancelled := true), p, at, false)
  {
    var asleep := Advance(s, p, at, Sleeping(n));
    assert Apply(embed, s, EmbedErr(p, at)) == asleep;
    var closed := asleep.(cancelled := true);
    SettledAdvance(embed, s.(cancelled := true), p, at, Sleeping(n), false);
    Prepend(embed, closed, Abandon(p, at), []);
    Prepend(embed, asleep, Close, [Abandon(p, at)] + []);
    Prepend(embed, s, EmbedErr(p, at), [Close] + ([Abandon(p, at)] + []));
    acts := [EmbedErr(p, at)] + ([Close] + ([Abandon(p, at)] + []));
  }

  lemma EmbeddedRun(embed: string -> Vector, s: State, p: bool, at: nat, dbOk: bool) returns (acts: seq<Action>)
    requires at < |Tasks(s, p)| && Tasks(s, p)[at].stage.Trying?
    ensures Legal(embed, s, acts) && OwnRun(acts)
    ensures Exec(embed, s, acts) == Settled(embed, s, p, at, dbOk)
  {
    var ready := Apply(embed, s, EmbedOk(p, at));
    SettledAdvance(embed, s, p, at, Ready(embed(Tasks(s, p)[at].job.content)), dbOk);
    var rest := EndRun(embed, ready, p, at, dbOk);
    Prepend(embed, s, EmbedOk(p, at), rest);
    acts := [EmbedOk(p, at)] + rest;
  }

  /** A failed attempt that is the last, or on a closed store. */
  lemma GiveUpRun(embed: string -> Vector, s: State, p: bool, at: nat) returns (acts: seq<Action>)
    requires at < |Tasks(s, p)| && Tasks(s, p)[at].stage.Trying?
    requires s.cancelled || Tasks(s, p)[at].stage.attempt >= EMBED_ATTEMPTS
    ensures Legal(embed, s, acts) && OwnRun(acts)
    ensures Exec(embed, s, acts) == Settled(embed, s, p, at, false)
  {
    Prepend(embed, s, EmbedErr(p, at), []);
    acts := [EmbedErr(p, at)] + [];
  }

  /** What the attempts come to, said of the whole job. */
  function Ended(embed: string -> Vector, s: State, p: bool, at: nat, attempts: seq<Attempt>, dbOk: bool): State
    requires at < |Tasks(s, p)|
  {
    var end := Tried(attempts, s.cancelled);
    Settled(embed, s.(cancelled := end.cancelled), p, at, dbOk && end.got)
  }

  /** The retry loop is a run of the machine: from attempt n on, it ends the job as `Ended` says. */
  lemma {:induction false} RetryRun(embed: string -> Vector, s: State, p: bool, at: nat, attempts: seq<Attempt>, dbOk: bool)
    returns (acts: seq<Action>)
    requires 1 <= |attempts| <= EMBED_ATTEMPTS
    requires at < |Tasks(s, p)| && Tasks(s, p)[at].stage == Trying(EMBED_ATTEMPTS + 1 - |attempts|)
    ensures Legal(embed, s, acts) && OwnRun(acts)
    ensures Exec(embed, s, acts) == Ended(embed, s, p, at, attempts, dbOk)
    decreases |attempts|
  {
    var n := EMBED_ATTEMPTS + 1 - |attempts|;
    var now, end := Closing(s, attempts[0].closing), Tried(attempts, s.cancelled);
    assert now.(cancelled := end.cancelled) == s.(cancelled := end.cancelled);
    var rest: seq<Action>;
    if attempts[0].ok {
      rest := EmbeddedRun(embed, now, p, at, dbOk);
    } else if now.cancelled || |attempts| == 1 {
      rest := GiveUpRun(embed, now, p, at);
    } else if attempts[0].leaves {
      rest := LeaveRun(embed, now, p, at, n);
    } else {
      rest := PausedRun(embed, now, p, at, attempts, dbOk);
    }
    acts := PrependClosing(embed, s, attempts[0].closing, rest);
  }

  /** A failed attempt on an open store, the pause, and the attempts left. */
  lemma {:induction false} PausedRun(embed: string -> Vector, s: State, p: bool, at: nat, attempts: seq<Attempt>, dbOk: bool)
    returns (acts: seq<Action>)
    requires 1 < |attempts| <= EMBED_ATTEMPTS && !s.cancelled
    requires at < |Tasks(s, p)| && Tasks(s, p)[at].stage == Trying(EMBED_ATTEMPTS + 1 - |attempts|)
    ensures Legal(embed, s, acts) && OwnRun(acts)
    ensures Exec(embed, s, acts) == Ended(embed, s, p, at, attempts[1..], dbOk)
    decreases |attempts|, 0
  {
    var n := EMBED_ATTEMPTS + 1 - |attempts|;
    var asleep := Advance(s, p, at, Sleeping(n));
    var awake := Advance(asleep, p, at, Trying(n + 1));
    var rest := RetryRun(embed, awake, p, at, attempts[1..], dbOk);
    PrependPause(embed, s, p, at, n, rest);
    acts := [EmbedErr(p, at)] + ([Wake(p, at)] + rest);
    var end := Tried(attempts[1..], false);
    PauseSettles(embed, s, p, at, n, end.cancelled, dbOk && end.got);
  }

  lemma PauseSettles(embed: string -> Vector, s: State, p: bool, at: nat, n: nat, closed: bool, ok: bool)
    requires at < |Tasks(s, p)|
    ensures var awake := Advance(Advance(s, p, at, Sleeping(n)), p, at, Trying(n + 1));
            Settled(embed, awake.(cancelled := closed), p, at, ok) == Settled(embed, s.(cancelled := closed), p, at, ok)
  {
    SettledAdvance(embed, s.(cancelled := closed), p, at, Sleeping(n), ok);
    SettledAdvance(embed, Advance(s, p, at, Sleeping(n)).(cancelled := closed), p, at, Trying(n + 1), ok);
  }

  lemma RefillSend(embed: string -> Vector, s: State, jobs: seq<Job>) returns (after: State)
    requires s.backfill == Draining(jobs) && jobs != [] && !s.cancelled
    ensures Enabled(s, Refill) && Enabled(Apply(embed, s, Refill), Send(|s.cleared|))
    ensures after == Apply(embed, Apply(embed, s, Refill), Send(|s.cleared|))
    ensures after == Push(s.(backfill := Draining(jobs[1..])), jobs[0])
  {
    after := Apply(embed, Apply(embed, s, Refill), Send(|s.cleared|));
    RemoveLast(s.cleared, jobs[0]);
  }

  /** Draining: the first k jobs are enqueued, the rest dropped because the store is or gets closed. */
  lemma {:induction false} DrainRun(embed: string -> Vector, s: State, jobs: seq<Job>, k: nat) returns (acts: seq<Action>)
    requires s.backfill == Draining(jobs) && k <= |jobs| && (s.cancelled ==> k == 0)
    ensures Legal(embed, s, acts) && OwnRun(acts)
    ensures Exec(embed, s, acts) == Closing(PushAll(s.(backfill := Draining([])), jobs[..k]), k < |jobs|)
    decreases |jobs|
  {
    if jobs == [] {
      acts := [];
    } else if k == 0 {
      var closed := s.(cancelled := true);
      var rest := DrainRun(embed, Apply(embed, closed, RefillDrop), jobs[1..], 0);
      Prepend(embed, closed, RefillDrop, rest);
      acts := PrependClosing(embed, s, true, [RefillDrop] + rest);
    } else {
      var after := RefillSend(embed, s, jobs);
      var rest := DrainRun(embed, after, jobs[1..], k - 1);
      Prepend(embed, Apply(embed, s, Refill), Send(|s.cleared|), rest);
      Prepend(embed, s, Refill, [Send(|s.cleared|)] + rest);
      acts := [Refill] + ([Send(|s.cleared|)] + rest);
      assert jobs[..k][1..] == jobs[1..][..k - 1];
    }
  }

  /** Where a backfill stands after i jobs of which k get enqueued before the store is closed. */
  function Enqueued(idle: State, jobs: seq<Job>, k: nat, i: nat): State
    requires k <= |jobs| && i <= |jobs|
  {
    if i <= k then PushAll(idle, jobs[..i]) else Closing(PushAll(idle, jobs[..k]), true)
  }

  lemma EnqueuedNext(idle: State, jobs: seq<Job>, k: nat, i: nat, closing: bool)
    requires k <= |jobs| && i < |jobs| && (idle.cancelled ==> k == 0)
    requires i < k ==> !closing
    requires i == k ==> closing || idle.cancelled
    ensures var now := Closing(Enqueued(idle, jobs, k, i), closing);
            Enqueued(idle, jobs, k, i + 1) == if now.cancelled then now else Push(now, jobs[i])
  {
    PushAllOpen(idle, jobs[..if i <= k then i else k]);
    if i < k {
      PushAllSnoc(idle, jobs[..i], jobs[i]);
      assert jobs[..i + 1] == jobs[..i] + [jobs[i]];
    }
  }

  lemma {:induction false} PushAllOpen(s: State, jobs: seq<Job>)
    ensures PushAll(s, jobs).cancelled == s.cancelled
    decreases |jobs|
  {
    if jobs != [] {
      PushAllOpen(Push(s, jobs[0]), jobs[1..]);
    }
  }

  /** A whole backfill is a run of the machine that enqueues the scanned jobs up to the moment the store is closed. */
  lemma BackfillRun(embed: string -> Vector, s: State, jobs: seq<Job>, k: nat) returns (acts: seq<Action>)
    requires s.backfill.NotScanned? && IsScan(s.rows, jobs) && k <= |jobs| && (s.cancelled ==> k == 0)
    ensures Legal(embed, s, acts) && OwnRun(acts)
    ensures Exec(embed, s, acts) == Closing(PushAll(s.(backfill := Draining([])), jobs[..k]), k < |jobs|)
  {
    var rest := DrainRun(embed, s.(backfill := Draining(jobs)), jobs, k);
    Prepend(embed, s, Scan(jobs), rest);
    acts := [Scan(jobs)] + rest;
  }

  // ---------- enqueueing after a commit ----------

  /** The steps of `enqueueEmbed` for a request added behind those of s. */
  function Enqueueing(s: State): seq<Action> {
    if s.cancelled then [Drop(|s.requests|)] else [Pass(|s.requests|), Send(|s.cleared|)]
  }

  lemma RemoveLast<T>(xs: seq<T>, x: T)
    ensures RemoveAt(xs + [x], |xs|) == xs && (xs + [x])[|xs|] == x
  {
  }

  /** A commit and the enqueue behind it; base is the state of the commit without its request. */
  lemma CommitRun(embed: string -> Vector, s: State, commit: Action, base: State, job: Job)
    requires Enabled(s, commit) && Apply(embed, s, commit) == base.(requests := s.requests + [job])
    requires base.requests == s.requests && base.cleared == s.cleared && base.cancelled == s.cancelled
    ensures Legal(embed, s, [commit] + Enqueueing(s))
    ensures Exec(embed, s, [commit] + Enqueueing(s)) == if s.cancelled then base else Push(base, job)
  {
    EnqueueRun(embed, base, job);
    Prepend(embed, s, commit, Enqueueing(s));
  }

  lemma EnqueueRun(embed: string -> Vector, base: State, job: Job)
    ensures var s := base.(requests := base.requests + [job]);
            && Legal(embed, s, Enqueueing(base))
            && Exec(embed, s, Enqueueing(base)) == if base.cancelled then base else Push(base, job)
  {
    var s := base.(requests := base.requests + [job]);
    RemoveLast(base.requests, job);
    RemoveLast(base.cleared, job);
    if base.cancelled {
      Prepend(embed, s, Drop(|base.requests|), []);
      assert Enqueueing(base) == [Drop(|base.requests|)] + [];
    } else {
      var passed := Apply(embed, s, Pass(|base.requests|));
      assert passed == base.(cleared := base.cleared + [job]);
      Prepend(embed, passed, Send(|base.cleared|), []);
      Prepend(embed, s, Pass(|base.requests|), [Send(|base.cleared|)] + []);
      assert Enqueueing(base) == [Pass(|base.requests|)] + ([Send(|base.cleared|)] + []);
    }
  }

  // ---------- the object ----------

  class Store {
    const embed: string -> Vector
    var rows: Table
    var queue: seq<Job>
    var wg: int
    var cancelled: bool
    ghost var minted: set<Id>
    ghost var requests: seq<Job>
    ghost var cleared: seq<Job>
    ghost var pool: seq<Task>
    ghost var spilled: seq<Task>
    ghost var live: nat
    ghost var backfill: Backfill
    ghost var failed: set<Job>

    ghost function View(): State
      reads this
    {
      State(rows, minted, requests, cleared, queue, pool, spilled, wg, live, backfill, cancelled, failed)
    }

    /** NewStore: workers and the backfill goroutine start on whatever the table holds. */
    constructor (embed: string -> Vector, rows: Table, ghost minted: set<Id>, cpus: nat)
      ensures this.embed == embed
      ensures View() == Boot(rows, minted, cpus)
      ensures this.rows == rows && queue == [] && wg == 0 && !cancelled && backfill.NotScanned?
      ensures live == if cpus < 2 then 2 else cpus
    {
      var workers := cpus;
      if workers < MIN_WORKERS {
        workers := MIN_WORKERS;
      }
      this.embed := embed;
      this.rows := rows;
      this.minted := minted;
      queue, wg, cancelled := [], 0, false;
      requests, cleared, pool, spilled, failed := [], [], [], [], {};
      backfill := NotScanned;
      live := workers;
    }

    method Close()
      modifies this
      ensures View() == old(View()).(cancelled := true)
    {
      cancelled := true;
    }

    method EnqueueEmbed(id: Id, content: string)
      modifies this`wg, this`queue, this`spilled
      ensures View() == if cancelled then old(View()) else Push(old(View()), Job(id, content))
      ensures !cancelled ==> wg == old(wg) + 1
      ensures !cancelled && |old(queue)| < 1024 ==> queue == old(queue) + [Job(id, content)] && spilled == old(spilled)
      ensures !cancelled && |old(queue)| >= 1024 ==> queue == old(queue) && spilled == old(spilled) + [Task(Job(id, content), Trying(1))]
    {
      if cancelled {
        return;
      }
      wg := wg + 1;
      var job := Job(id, content);
      if |queue| < QUEUE_SIZE {
        queue := queue + [job];
      } else {
        spilled := spilled + [Task(job, Trying(1))];
      }
    }

    /** id and created are what the database generates; dbOk is whether the transaction committed. */
    method Write(key: KeyId, content: string, tags: set<string>, id: Id, created: int, dbOk: bool)
      returns (r: Result<Id, Error>, ghost acts: seq<Action>)
      requires id !in minted
      modifies this
      ensures r == if dbOk then Ok(id) else Err(Database)
      ensures !dbOk ==> View() == old(View())
      ensures dbOk ==> rows == Insert(old(rows), id, Row(key, content, tags, created, None))
      ensures dbOk ==> NewestSurvive(old(rows)[id := Row(key, content, tags, created, None)], rows, key)
      ensures dbOk ==> acts == [Action.Write(id, key, content, tags, created)] + Enqueueing(old(View()))
      ensures dbOk ==> Legal(embed, old(View()), acts) && View() == Exec(embed, old(View()), acts)
    {
      acts := [];
      if !dbOk {
        return Err(Database), acts;
      }
      ghost var start := View();
      ghost var commit := Action.Write(id, key, content, tags, created);
      WriteKeepsNewest(rows, id, Row(key, content, tags, created, None));
      rows := Insert(rows, id, Row(key, content, tags, created, None));
      minted := minted + {id};
      CommitRun(embed, start, commit, View(), Job(id, content));
      acts := [commit] + Enqueueing(start);
      EnqueueEmbed(id, content);
      r := Ok(id);
    }

    /** dbOk: whether the database answers. */
    method Update(key: KeyId, id: Id, content: string, dbOk: bool) returns (r: Result<Id, Error>, ghost acts: seq<Action>)
      modifies this
      ensures r == if !dbOk then Err(Database) else if id in old(rows) && old(rows)[id].key == key then Ok(id) else Err(NotFound)
      ensures r.Err? ==> View() == old(View())
      ensures r.Ok? ==> rows.Keys == old(rows).Keys && rows[id] == old(rows)[id].(content := content, embedding := None)
      ensures r.Ok? ==> forall j :: j in rows && j != id ==> rows[j] == old(rows)[j]
      ensures r.Ok? ==> acts == [Action.Update(key, id, content)] + Enqueueing(old(View()))
      ensures r.Ok? ==> Legal(embed, old(View()), acts) && View() == Exec(embed, old(View()), acts)
    {
      acts := [];
      if !dbOk {
        return Err(Database), acts;
      }
      if !Owns(rows, key, id) {
        return Err(NotFound), acts;
      }
      ghost var start := View();
      ghost var commit := Action.Update(key, id, content);
      rows := rows[id := rows[id].(content := content, embedding := None)];
      CommitRun(embed, start, commit, View(), Job(id, content));
      acts := [commit] + Enqueueing(start);
      EnqueueEmbed(id, content);
      r := Ok(id);
    }

    /** dbOk: whether the database answers. */
    method Delete(key: KeyId, id: Id, dbOk: bool) returns (r: Result<Id, Error>)
      modifies this`rows
      ensures r == if !dbOk then Err(Database) else if id in old(rows) && old(rows)[id].key == key then Ok(id) else Err(NotFound)
      ensures r.Ok? ==> rows == old(rows) - {id}
      ensures r.Ok? ==> Enabled(old(View()), Action.Delete(key, id)) && View() == Apply(embed, old(View()), Action.Delete(key, id))
      ensures r.Err? ==> View() == old(View())
    {
      if !dbOk {
        return Err(Database);
      }
      if !Owns(rows, key, id) {
        return Err(NotFound);
      }
      rows := rows - {id};
      r := Ok(id);
    }

    /** A worker receiving from the queue. */
    method TakeJob() returns (job: Job)
      requires Enabled(View(), Pickup)
      modifies this`queue, this`pool
      ensures [job] + queue == old(queue) && pool == old(pool) + [Task(job, Trying(1))]
      ensures View() == Apply(embed, old(View()), Pickup)
    {
      job := queue[0];
      queue := queue[1..];
      pool := pool + [Task(job, Trying(1))];
    }

    /** The deferred Done. */
    method Done(ghost pooled: bool, ghost at: nat)
      requires at < |Tasks(View(), pooled)|
      modifies this`pool, this`spilled, this`wg
      ensures View() == Finish(old(View()), pooled, at)
    {
      wg := wg - 1;
      if pooled {
        pool := RemoveAt(pool, at);
      } else {
        spilled := RemoveAt(spilled, at);
      }
    }

    /** The attempts: the vector if one is computed; gone when the job is given up because the store is closed. */
    method TryEmbed(content: string, attempts: seq<Attempt>) returns (vec: Option<Vector>, gone: bool)
      requires |attempts| == EMBED_ATTEMPTS
      modifies this`cancelled
      ensures Outcome(vec.Some?, cancelled) == Tried(attempts, old(cancelled))
      ensures vec.Some? <==> exists k :: 0 <= k < 3 && Made(attempts, old(cancelled), k) && attempts[k].ok
      ensures cancelled <==> old(cancelled) || exists k :: 0 <= k < 3 && Made(attempts, old(cancelled), k) && Closes(attempts, k)
      ensures vec.Some? ==> vec.value == embed(content)
      ensures gone <==> vec.None? && cancelled
    {
      vec, gone := None, false;
      TriedExactly(attempts, cancelled);
      for attempt := 1 to EMBED_ATTEMPTS + 1
        invariant attempt > 1 ==> !cancelled
        invariant Tried(attempts, old(cancelled)) == Tried(attempts[attempt - 1..], cancelled)
      {
        var current := attempts[attempt - 1];
        assert attempts[attempt - 1..][1..] == attempts[attempt..];
        if current.closing {
          cancelled := true;
        }
        if current.ok {
          vec := Some(embed(content));
          return;
        }
        if cancelled {
          gone := true;
          return;
        }
        if attempt < EMBED_ATTEMPTS && current.leaves {
          cancelled, gone := true, true;
          return;
        }
      }
    }

    /**
     attempts: how each embedding attempt would go; dbOk: whether the UPDATE is accepted. Retries stop at the
     first success, at the third failure, at the first failure once the store is closed, or when it is closed
     in a pause.
     */
    method RunEmbed(job: Job, attempts: seq<Attempt>, dbOk: bool, ghost pooled: bool, ghost at: nat)
      returns (ghost acts: seq<Action>)
      requires |attempts| == EMBED_ATTEMPTS
      requires at < |Tasks(View(), pooled)| && Tasks(View(), pooled)[at] == Task(job, Trying(1))
      modifies this
      ensures View() == Ended(embed, old(View()), pooled, at, attempts, dbOk)
      ensures wg == old(wg) - 1
      ensures var got := exists k :: 0 <= k < 3 && Made(attempts, old(cancelled), k) && attempts[k].ok;
              var due := job.id in old(rows) && old(rows)[job.id].content == job.content && old(rows)[job.id].embedding.None?;
              && (got && dbOk && due ==> rows == old(rows)[job.id := old(rows)[job.id].(embedding := Some(embed(job.content)))])
              && (!(got && dbOk && due) ==> rows == old(rows))
              && failed == (if (got && dbOk) || cancelled then old(failed) else old(failed) + {job})
      ensures Legal(embed, old(View()), acts) && View() == Exec(embed, old(View()), acts)
      ensures OwnRun(acts)
    {
      acts := RetryRun(embed, View(), pooled, at, attempts, dbOk);
      ghost var start, end := View(), Tried(attempts, cancelled);
      var vec, gone := TryEmbed(job.content, attempts);
      assert View() == start.(cancelled := end.cancelled);
      if gone {
        Done(pooled, at);
        return;
      }
      if vec.None? {
        failed := failed + {job};
        Done(pooled, at);
        return;
      }
      if dbOk {
        rows := WriteBack(rows, job, vec.value);
      } else if !cancelled {
        failed := failed + {job};
      }
      Done(pooled, at);
    }

    /**
     found: what the startup query returns, or None when it fails; closeAfter: how many jobs are enqueued
     when the store is closed, if that happens before all are.
     */
    method BackfillPending(found: Option<seq<Job>>, closeAfter: nat) returns (ghost acts: seq<Action>)
      requires backfill.NotScanned?
      requires found.Some? ==> IsScan(rows, found.value)
      modifies this
      ensures found.None? ==> View() == old(View()).(backfill := ScanFailed)
      ensures found.Some? ==>
                var k := if old(cancelled) then 0 else if closeAfter < |found.value| then closeAfter else |found.value|;
                View() == Closing(PushAll(old(View()).(backfill := Draining([])), found.value[..k]), k < |found.value|)
      ensures Legal(embed, old(View()), acts) && View() == Exec(embed, old(View()), acts)
    {
      if found.None? {
        RunSnoc(embed, View(), [], ScanErr);
        acts := [] + [ScanErr];
        backfill := ScanFailed;
        return;
      }
      var jobs := found.value;
      ghost var idle := View().(backfill := Draining([]));
      ghost var k := if cancelled then 0 else if closeAfter < |jobs| then closeAfter else |jobs|;
      acts := BackfillRun(embed, View(), jobs, k);
      backfill := Draining([]);
      for i := 0 to |jobs|
        invariant View() == Enqueued(idle, jobs, k, i)
      {
        EnqueuedNext(idle, jobs, k, i, i == closeAfter);
        if i == closeAfter {
          cancelled := true;
        }
        EnqueueEmbed(jobs[i].id, jobs[i].content);
      }
    }
  }
}
