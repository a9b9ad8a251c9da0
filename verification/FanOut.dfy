/**
 Semaphore-bounded fan-out: one goroutine per input takes a token, computes, fills its own slot, gives
 the token back and reports to the wait group. `work[i]` is whatever goroutine i computes.
 */
module FanOut {

  datatype Phase = Waiting | Holding | Written | Released | Reported

  /** tokens: length of the semaphore channel; wg: the wait group; writes: how often each slot was assigned. */
  datatype State<R> = State(phases: seq<Phase>, tokens: int, wg: int, slots: seq<R>, writes: seq<nat>)

  function Start<R>(blank: seq<R>): State<R> {
    State(seq(|blank|, _ => Waiting), 0, |blank|, blank, seq(|blank|, _ => 0))
  }

  /** Sending on a full semaphore blocks, and so does receiving from an empty one. */
  predicate Enabled<R>(s: State<R>, cap: nat, i: nat) {
    && i < |s.phases| && s.phases[i] != Reported
    && (s.phases[i] == Waiting ==> s.tokens < cap)
    && (s.phases[i] == Written ==> s.tokens > 0)
  }

  function Step<R>(s: State<R>, work: seq<R>, i: nat): State<R>
    requires i < |s.phases| == |s.slots| == |s.writes| == |work|
  {
    match s.phases[i]
    case Waiting => s.(phases := s.phases[i := Holding], tokens := s.tokens + 1)
    case Holding => s.(phases := s.phases[i := Written], slots := s.slots[i := work[i]], writes := s.writes[i := s.writes[i] + 1])
    case Written => s.(phases := s.phases[i := Released], tokens := s.tokens - 1)
    case Released => s.(phases := s.phases[i := Reported], wg := s.wg - 1)
    case Reported => s
  }

  // ---------- counting goroutines ----------

  function Count(phases: seq<Phase>, which: set<Phase>): nat {
    if phases == [] then 0 else (if phases[0] in which then 1 else 0) + Count(phases[1..], which)
  }

  const INSIDE := {Holding, Written}
  const OPEN := {Waiting, Holding, Written, Released}

  lemma {:induction false} CountUpdate(phases: seq<Phase>, which: set<Phase>, i: nat, p: Phase)
    requires i < |phases|
    ensures Count(phases[i := p], which)
         == Count(phases, which) - (if phases[i] in which then 1 else 0) + (if p in which then 1 else 0)
  {
    if i > 0 {
      assert phases[i := p][1..] == phases[1..][i - 1 := p];
      CountUpdate(phases[1..], which, i - 1, p);
    } else {
      assert phases[i := p][1..] == phases[1..];
    }
  }

  lemma {:induction false} CountZero(phases: seq<Phase>, which: set<Phase>)
    ensures Count(phases, which) == 0 <==> forall i :: 0 <= i < |phases| ==> phases[i] !in which
  {
    if phases != [] {
      CountZero(phases[1..], which);
      assert forall i :: 0 < i < |phases| ==> phases[i] == phases[1..][i - 1];
      assert phases[0] == phases[0];
    }
  }

  /** What every schedule keeps: at most cap goroutines inside, each slot written at most once, with its own result. */
  ghost predicate Inv<R>(s: State<R>, work: seq<R>, cap: nat) {
    && |s.phases| == |s.slots| == |s.writes| == |work|
    && s.tokens == Count(s.phases, INSIDE) <= cap
    && s.wg == Count(s.phases, OPEN)
    && (forall i :: 0 <= i < |work| ==> s.writes[i] == if s.phases[i] in {Written, Released, Reported} then 1 else 0)
    && (forall i :: 0 <= i < |work| && s.writes[i] > 0 ==> s.slots[i] == work[i])
  }

  lemma {:induction false} StartCounts(n: nat)
    ensures Count(seq(n, _ => Waiting), INSIDE) == 0 && Count(seq(n, _ => Waiting), OPEN) == n
  {
    if n > 0 {
      assert seq(n, _ => Waiting)[1..] == seq(n - 1, _ => Waiting);
      StartCounts(n - 1);
    }
  }

  lemma StartInv<R>(blank: seq<R>, work: seq<R>, cap: nat)
    requires |blank| == |work|
    ensures Inv(Start(blank), work, cap)
  {
    StartCounts(|blank|);
  }

  lemma StepInv<R>(s: State<R>, work: seq<R>, cap: nat, i: nat)
    requires Inv(s, work, cap) && Enabled(s, cap, i)
    ensures Inv(Step(s, work, i), work, cap)
  {
    var p := Step(s, work, i).phases[i];
    CountUpdate(s.phases, INSIDE, i, p);
    CountUpdate(s.phases, OPEN, i, p);
  }

  /** No schedule deadlocks: while the wait group is open some goroutine can move. */
  lemma NoDeadlock<R>(s: State<R>, work: seq<R>, cap: nat) returns (i: nat)
    requires Inv(s, work, cap) && cap > 0 && s.wg != 0
    ensures Enabled(s, cap, i)
  {
    CountZero(s.phases, OPEN);
    CountZero(s.phases, INSIDE);
    if s.tokens > 0 {
      i :| i < |s.phases| && s.phases[i] in INSIDE;
    } else {
      i :| i < |s.phases| && s.phases[i] in OPEN;
    }
  }

  function Togo(p: Phase): nat {
    match p
    case Waiting => 4
    case Holding => 3
    case Written => 2
    case Released => 1
    case Reported => 0
  }

  function Remaining(phases: seq<Phase>): nat {
    if phases == [] then 0 else Togo(phases[0]) + Remaining(phases[1..])
  }

  lemma {:induction false} RemainingUpdate(phases: seq<Phase>, i: nat, p: Phase)
    requires i < |phases|
    ensures Remaining(phases[i := p]) == Remaining(phases) - Togo(phases[i]) + Togo(p)
  {
    if i > 0 {
      assert phases[i := p][1..] == phases[1..][i - 1 := p];
      RemainingUpdate(phases[1..], i - 1, p);
    } else {
      assert phases[i := p][1..] == phases[1..];
    }
  }

  lemma StepProgress<R>(s: State<R>, work: seq<R>, cap: nat, i: nat)
    requires Inv(s, work, cap) && Enabled(s, cap, i)
    ensures Remaining(Step(s, work, i).phases) == Remaining(s.phases) - 1
  {
    RemainingUpdate(s.phases, i, Step(s, work, i).phases[i]);
  }

  // ---------- schedules ----------

  ghost predicate Legal<R>(s: State<R>, work: seq<R>, cap: nat, schedule: seq<nat>)
    decreases |schedule|
  {
    schedule == []
    || (|s.phases| == |s.slots| == |s.writes| == |work| && Enabled(s, cap, schedule[0])
        && Legal(Step(s, work, schedule[0]), work, cap, schedule[1..]))
  }

  ghost function Exec<R>(s: State<R>, work: seq<R>, cap: nat, schedule: seq<nat>): State<R>
    requires Legal(s, work, cap, schedule)
    decreases |schedule|
  {
    if schedule == [] then s else Exec(Step(s, work, schedule[0]), work, cap, schedule[1..])
  }

  lemma {:induction false} ScheduleInv<R>(s: State<R>, work: seq<R>, cap: nat, schedule: seq<nat>)
    requires Inv(s, work, cap) && Legal(s, work, cap, schedule)
    ensures Inv(Exec(s, work, cap, schedule), work, cap)
    ensures Remaining(Exec(s, work, cap, schedule).phases) + |schedule| == Remaining(s.phases)
    decreases |schedule|
  {
    if schedule != [] {
      StepInv(s, work, cap, schedule[0]);
      StepProgress(s, work, cap, schedule[0]);
      ScheduleInv(Step(s, work, schedule[0]), work, cap, schedule[1..]);
    }
  }

  lemma {:induction false} StartRemaining(n: nat)
    ensures Remaining(seq(n, _ => Waiting)) == 4 * n
  {
    if n > 0 {
      assert seq(n, _ => Waiting)[1..] == seq(n - 1, _ => Waiting);
      StartRemaining(n - 1);
    }
  }

  lemma Joined<R>(s: State<R>, work: seq<R>, cap: nat)
    requires Inv(s, work, cap) && s.wg == 0
    ensures s.slots == work && forall i :: 0 <= i < |work| ==> s.writes[i] == 1
  {
    CountZero(s.phases, OPEN);
    forall i | 0 <= i < |work|
      ensures s.writes[i] == 1 && s.slots[i] == work[i]
    {
      assert s.phases[i] !in OPEN && s.phases[i].Reported?;
    }
  }

  /**
   Whatever the goroutine schedule: never more than cap inside, at most four steps per goroutine, and when
   the wait group lets the caller through, slot i holds result i, written exactly once.
   */
  lemma EverySchedule<R>(blank: seq<R>, work: seq<R>, cap: nat, schedule: seq<nat>)
    requires |blank| == |work| && Legal(Start(blank), work, cap, schedule)
    ensures var s := Exec(Start(blank), work, cap, schedule);
            && |s.phases| == |work| && Count(s.phases, INSIDE) <= cap
            && |schedule| <= 4 * |work|
            && s.wg >= 0
            && |s.slots| == |s.writes| == |work|
            && (forall i :: 0 <= i < |work| ==> s.writes[i] <= 1)
            && (s.wg == 0 ==> s.slots == work && forall i :: 0 <= i < |work| ==> s.writes[i] == 1)
  {
    StartInv(blank, work, cap);
    StartRemaining(|blank|);
    ScheduleInv(Start(blank), work, cap, schedule);
    var s := Exec(Start(blank), work, cap, schedule);
    if s.wg == 0 {
      Joined(s, work, cap);
    }
  }

  /** Launch all goroutines and wait; the choice of who moves next is arbitrary. peak is the most that were inside at once. */
  method RunAll<R>(blank: R, work: seq<R>, cap: nat) returns (slots: array<R>, ghost peak: int)
    requires cap > 0
    ensures fresh(slots) && slots[..] == work
    ensures peak <= cap
  {
    slots := new R[|work|](_ => blank);
    var s := Start(slots[..]);
    peak := 0;
    StartInv(slots[..], work, cap);
    while s.wg != 0
      invariant Inv(s, work, cap)
      invariant slots[..] == s.slots
      invariant s.tokens <= peak <= cap
      decreases Remaining(s.phases)
    {
      ghost var someone := NoDeadlock(s, work, cap);
      assert someone < |s.phases|;
      var i: nat :| i < |s.phases| && Enabled(s, cap, i);
      StepInv(s, work, cap, i);
      StepProgress(s, work, cap, i);
      if s.phases[i] == Holding {
        slots[i] := work[i];
      }
      s := Step(s, work, i);
      if s.tokens > peak {
        peak := s.tokens;
      }
    }
    Joined(s, work, cap);
  }
}
