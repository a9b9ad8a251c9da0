/** Owner-stamped events on a shared topic: publishing, the bounded poll and its cursors. */
module EventLog {
  import opened Wrappers

  const OWNER_HEADER := "x-mcp-owner"
  const DEFAULT_MAX: nat := 10
  const MAX_MAX: nat := 100

  datatype Header = Header(key: string, value: string)

  datatype Record = Record(key: string, value: string, headers: seq<Header>, time: int)

  type Log = seq<seq<Record>>

  /** (group, partition) to the next offset to read; a missing entry starts at the first offset. */
  datatype Slot = Slot(group: string, partition: nat)

  type Cursors = map<Slot, nat>

  datatype Message = Message(partition: nat, offset: nat, key: string, value: string, headers: map<string, string>, time: int)

  // ---------- headers ----------

  /** The publisher's headers in some order, without any owner header of its own, then the real owner. */
  ghost predicate IsStamped(headers: map<string, string>, owner: string, out: seq<Header>) {
    && out != [] && out[|out| - 1] == Header(OWNER_HEADER, owner)
    && (forall k :: 0 <= k < |out| - 1 ==>
          out[k].key != OWNER_HEADER && out[k].key in headers && headers[out[k].key] == out[k].value)
    && (forall j, k :: 0 <= j < k < |out| ==> out[j].key != out[k].key)
    && (forall name :: name in headers && name != OWNER_HEADER ==> Header(name, headers[name]) in out)
  }

  method StampOwner(headers: map<string, string>, owner: string) returns (out: seq<Header>)
    ensures IsStamped(headers, owner, out)
  {
    out := [];
    var left := headers.Keys;
    while left != {}
      invariant left <= headers.Keys
      invariant forall k :: 0 <= k < |out| ==>
                  out[k].key != OWNER_HEADER && out[k].key in headers.Keys - left && headers[out[k].key] == out[k].value
      invariant forall j, k :: 0 <= j < k < |out| ==> out[j].key != out[k].key
      invariant forall name :: name in headers.Keys - left && name != OWNER_HEADER ==> Header(name, headers[name]) in out
      decreases |left|
    {
      var name :| name in left;
      left := left - {name};
      if name == OWNER_HEADER {
        continue;
      }
      out := out + [Header(name, headers[name])];
    }
    out := out + [Header(OWNER_HEADER, owner)];
  }

  function HeaderMap(headers: seq<Header>): map<string, string> {
    if headers == [] then map[]
    else
      var n := |headers| - 1;
      HeaderMap(headers[..n])[headers[n].key := headers[n].value]
  }

  method FromKafkaHeaders(headers: seq<Header>) returns (out: map<string, string>)
    ensures out == HeaderMap(headers)
  {
    out := map[];
    for i := 0 to |headers|
      invariant out == HeaderMap(headers[..i])
    {
      assert headers[..i + 1][..i] == headers[..i];
      out := out[headers[i].key := headers[i].value];
    }
    assert headers[..|headers|] == headers;
  }

  lemma {:induction false} HeaderMapSpec(headers: seq<Header>)
    requires forall j, k :: 0 <= j < k < |headers| ==> headers[j].key != headers[k].key
    ensures forall k :: 0 <= k < |headers| ==> headers[k].key in HeaderMap(headers) && HeaderMap(headers)[headers[k].key] == headers[k].value
    ensures forall name :: name in HeaderMap(headers) ==> Header(name, HeaderMap(headers)[name]) in headers
  {
    if headers != [] {
      HeaderMapSpec(headers[..|headers| - 1]);
    }
  }

  /** Reading stamped headers back gives the publisher's own map and the true owner, whatever the map held. */
  lemma StampRoundTrip(headers: map<string, string>, owner: string, out: seq<Header>)
    requires IsStamped(headers, owner, out)
    ensures HeaderMap(out) == (headers - {OWNER_HEADER})[OWNER_HEADER := owner]
    ensures HeaderMap(out) - {OWNER_HEADER} == headers - {OWNER_HEADER}
  {
    HeaderMapSpec(out);
    var back, want := HeaderMap(out), (headers - {OWNER_HEADER})[OWNER_HEADER := owner];
    assert out[|out| - 1].key in back;
    forall name
      ensures name in back <==> name in want
      ensures name in back ==> back[name] == want[name]
    {
      if name in back {
        var k :| 0 <= k < |out| && out[k] == Header(name, back[name]);
        assert k < |out| - 1 ==> name in headers && name != OWNER_HEADER;
      }
      if name in want && name != OWNER_HEADER {
        var k :| 0 <= k < |out| && out[k] == Header(name, headers[name]);
        assert out[k].key in back;
      }
    }
  }

  // ---------- what a poll delivers ----------

  function OwnerOf(rec: Record): string {
    var headers := HeaderMap(rec.headers);
    if OWNER_HEADER in headers then headers[OWNER_HEADER] else ""
  }

  function Deliver(p: nat, offset: nat, rec: Record): Message {
    Message(p, offset, rec.key, rec.value, HeaderMap(rec.headers) - {OWNER_HEADER}, rec.time)
  }

  /** The owner's events of partition p with offsets in [lo, hi), in log order. */
  function Owned(owner: string, p: nat, records: seq<Record>, lo: nat, hi: nat): seq<Message>
    requires hi <= |records|
    decreases hi
  {
    if lo >= hi then []
    else Owned(owner, p, records, lo, hi - 1)
         + if OwnerOf(records[hi - 1]) == owner then [Deliver(p, hi - 1, records[hi - 1])] else []
  }

  function OfPartition(msgs: seq<Message>, p: nat): seq<Message> {
    if msgs == [] then []
    else
      var n := |msgs| - 1;
      OfPartition(msgs[..n], p) + if msgs[n].partition == p then [msgs[n]] else []
  }

  function ScopedGroup(base: string, owner: string): string {
    base + "." + owner
  }

  function ClampMax(n: int): (max: nat)
    ensures 1 <= max <= MAX_MAX
    ensures 1 <= n <= MAX_MAX ==> max == n
    ensures n <= 0 ==> max == 10
    ensures n > 100 ==> max == 100
  {
    if n <= 0 then DEFAULT_MAX else if n > MAX_MAX then MAX_MAX else n
  }

  function Cursor(cursors: Cursors, group: string, p: nat): nat {
    if Slot(group, p) in cursors then cursors[Slot(group, p)] else 0
  }

  datatype Mode = Group | Earliest | Latest

  /** Cursors never run ahead of the log. */
  predicate InLog(log: Log, cursors: Cursors) {
    forall key :: key in cursors ==> key.partition < |log| && cursors[key] <= |log[key.partition]|
  }

  function StartAt(log: Log, cursors: Cursors, mode: Mode, group: string, p: nat): (start: nat)
    requires p < |log| && InLog(log, cursors)
    ensures start <= |log[p]|
  {
    match mode
    case Group => Cursor(cursors, group, p)
    case Earliest => 0
    case Latest => |log[p]|
  }

  /** Where a reader of this mode starts in each partition. */
  function Starts(log: Log, cursors: Cursors, mode: Mode, group: string): seq<nat>
    requires InLog(log, cursors)
  {
    seq(|log|, p requires 0 <= p < |log| => StartAt(log, cursors, mode, group, p))
  }

  /** Returned messages are, partition by partition, exactly the owner's events between starts and ends. */
  ghost predicate Delivered(log: Log, starts: seq<nat>, ends: seq<nat>, owner: string, msgs: seq<Message>) {
    && |starts| == |ends| == |log|
    && (forall p :: 0 <= p < |log| ==>
          starts[p] <= ends[p] <= |log[p]| && OfPartition(msgs, p) == Owned(owner, p, log[p], starts[p], ends[p]))
    && (forall m :: m in msgs ==> m.partition < |log|)
  }

  /** Cursors after committing: the group moves to `ends` in every partition it read from. */
  ghost predicate Committed(before: Cursors, after: Cursors, group: string, starts: seq<nat>, ends: seq<nat>)
    requires |starts| == |ends|
  {
    && (forall p :: 0 <= p < |ends| && ends[p] > starts[p] ==> Slot(group, p) in after && after[Slot(group, p)] == ends[p])
    && (forall g, p: nat :: g != group || p >= |ends| || ends[p] == starts[p] ==>
          (Slot(g, p) in after <==> Slot(g, p) in before) && (Slot(g, p) in before ==> after[Slot(g, p)] == before[Slot(g, p)]))
  }

  datatype Ref = Ref(partition: nat, offset: nat)

  /** CommitMessages: per partition the highest offset of the batch, plus one. */
  function CommitOffsets(refs: seq<Ref>): map<nat, nat> {
    if refs == [] then map[]
    else
      var n := |refs| - 1;
      var rest := CommitOffsets(refs[..n]);
      if refs[n].partition in rest && rest[refs[n].partition] > refs[n].offset then rest
      else rest[refs[n].partition := refs[n].offset + 1]
  }

  /** What the next FetchMessage does: hand over partition p's next record, run into the deadline, or fail. */
  datatype Answer = From(partition: nat) | Deadline | Broken

  datatype PublishError = ValueRequired | BrokerFailed

  datatype PollError = FetchFailed | CommitFailed

  class Topic {
    var log: Log
    var cursors: Cursors

    ghost predicate Valid()
      reads this
    {
      InLog(log, cursors)
    }

    constructor (partitions: nat)
      ensures Valid()
      ensures |log| == partitions && (forall p :: 0 <= p < partitions ==> log[p] == [])
      ensures cursors == map[]
    {
      log := seq(partitions, _ => []);
      cursors := map[];
    }

    /** partition is the balancer's choice; brokerOk: whether the broker takes the record. An empty value is refused. */
    method Publish(owner: string, partition: nat, key: string, value: string, headers: map<string, string>, time: int, brokerOk: bool)
      returns (r: Result<nat, PublishError>)
      requires Valid() && partition < |log|
      modifies this`log
      ensures Valid()
      ensures r == if value == "" then Err(ValueRequired)
                   else if !brokerOk then Err(BrokerFailed)
                   else Ok(|old(log)[partition]|)
      ensures r.Err? ==> log == old(log)
      ensures r.Ok? ==> exists stamped :: (
                && IsStamped(headers, owner, stamped)
                && log == old(log)[partition := old(log)[partition] + [Record(key, value, stamped, time)]])
    {
      if value == "" {
        return Err(ValueRequired);
      }
      var stamped := StampOwner(headers, owner);
      if !brokerOk {
        return Err(BrokerFailed);
      }
      r := Ok(|log[partition]|);
      log := log[partition := log[partition] + [Record(key, value, stamped, time)]];
    }

    /**
     One bounded poll, then, in group mode, one commit of everything fetched, other owners' events
     included. A failed fetch or commit reports an error and moves no cursor.
     fetched counts the records handed over before the poll stopped.
     */
    method Consume(owner: string, base: string, mode: Mode, max: int, script: seq<Answer>, commitOk: bool)
      returns (r: Result<seq<Message>, PollError>, ghost ends: seq<nat>, ghost fetched: nat)
      requires Valid()
      modifies this`cursors
      ensures Valid()
      ensures r.Err? || mode != Group ==> cursors == old(cursors)
      ensures ReadUpTo(Starts(log, old(cursors), mode, ScopedGroup(base, owner)), ends, script, fetched)
      ensures r == Err(FetchFailed) ==> fetched < |script| && script[fetched] == Broken
      ensures r == Err(CommitFailed) ==> mode == Group && !commitOk && fetched > 0
      ensures mode == Group && !commitOk && fetched > 0 ==> r.Err?
      ensures r.Ok? ==> Stopped(log, mode, ClampMax(max), script, fetched, ends, r.value)
      ensures r.Ok? ==> Delivered(log, Starts(log, old(cursors), mode, ScopedGroup(base, owner)), ends, owner, r.value)
      ensures r.Ok? ==> Reads(log, old(cursors), base + "." + owner, mode, owner, fetched, ends, r.value)
      ensures r.Ok? && mode == Group ==>
                Committed(old(cursors), cursors, ScopedGroup(base, owner), Starts(log, old(cursors), mode, ScopedGroup(base, owner)), ends)
    {
      var group := ScopedGroup(base, owner);
      var starts := Starts(log, cursors, mode, group);
      var ok, msgs, collected, pos := Gather(log, starts, mode, owner, ClampMax(max), script);
      ends, fetched := pos, |collected|;
      ReadsFound(log, cursors, group, mode, owner, script, fetched, ends, msgs);
      if !ok {
        return Err(FetchFailed), ends, fetched;
      }
      if mode == Group && collected != [] {
        if !commitOk {
          return Err(CommitFailed), ends, fetched;
        }
        CommitTracked(log, cursors, group, starts, ends, CommitOffsets(collected));
        cursors := Commit(cursors, group, CommitOffsets(collected));
      } else if mode == Group {
        NothingCommitted(cursors, group, starts, ends);
      }
      r := Ok(msgs);
    }
  }

  /** m is a record of the log below the read position, with the owner's header, shown without it. */
  ghost predicate Shown(log: Log, ends: seq<nat>, owner: string, m: Message)
    requires |ends| == |log|
  {
    && m.partition < |log| && m.offset < ends[m.partition] && m.offset < |log[m.partition]|
    && var rec := log[m.partition][m.offset];
       var headers := HeaderMap(rec.headers);
       && (if OWNER_HEADER in headers then headers[OWNER_HEADER] else "") == owner
       && m.key == rec.key && m.value == rec.value && m.time == rec.time && m.headers == headers - {OWNER_HEADER}
  }

  lemma MessagesShown(log: Log, starts: seq<nat>, ends: seq<nat>, owner: string, msgs: seq<Message>)
    requires Delivered(log, starts, ends, owner, msgs)
    ensures forall m :: m in msgs ==> Shown(log, ends, owner, m)
  {
    forall m | m in msgs
      ensures Shown(log, ends, owner, m)
    {
      var p := m.partition;
      OfPartitionMember(msgs, m);
      OwnedMember(owner, p, log[p], starts[p], ends[p], m);
    }
  }

  lemma {:induction false} OwnedMember(owner: string, p: nat, records: seq<Record>, lo: nat, hi: nat, m: Message)
    requires hi <= |records| && m in Owned(owner, p, records, lo, hi)
    ensures lo <= m.offset < hi && OwnerOf(records[m.offset]) == owner && m == Deliver(p, m.offset, records[m.offset])
    decreases hi
  {
    if m in Owned(owner, p, records, lo, hi - 1) {
      OwnedMember(owner, p, records, lo, hi - 1, m);
    }
  }

  lemma {:induction false} OfPartitionMember(msgs: seq<Message>, m: Message)
    requires m in msgs
    ensures m in OfPartition(msgs, m.partition)
  {
    var n := |msgs| - 1;
    if m != msgs[n] {
      OfPartitionMember(msgs[..n], m);
    }
  }

  ghost predicate InOrder(msgs: seq<Message>, p: nat, lo: nat, hi: nat) {
    && (forall i, j :: 0 <= i < j < |msgs| ==> msgs[i].offset < msgs[j].offset)
    && (forall i :: 0 <= i < |msgs| ==> lo <= msgs[i].offset < hi && msgs[i].partition == p)
  }

  lemma InOrderSnoc(msgs: seq<Message>, p: nat, lo: nat, hi: nat, m: Message)
    requires InOrder(msgs, p, lo, hi) && lo <= hi && m.offset == hi && m.partition == p
    ensures InOrder(msgs + [m], p, lo, hi + 1)
  {
  }

  /** Owned lists own records between the two offsets, in the order of the log, */
  lemma {:induction false} OwnedOrdered(owner: string, p: nat, records: seq<Record>, lo: nat, hi: nat)
    requires hi <= |records|
    ensures InOrder(Owned(owner, p, records, lo, hi), p, lo, hi)
    decreases hi
  {
    if lo < hi {
      OwnedOrdered(owner, p, records, lo, hi - 1);
      if OwnerOf(records[hi - 1]) == owner {
        InOrderSnoc(Owned(owner, p, records, lo, hi - 1), p, lo, hi - 1, Deliver(p, hi - 1, records[hi - 1]));
      } else {
        assert Owned(owner, p, records, lo, hi) == Owned(owner, p, records, lo, hi - 1);
      }
    }
  }

  /** and every one of them. */
  lemma {:induction false} OwnedComplete(owner: string, p: nat, records: seq<Record>, lo: nat, hi: nat, k: nat)
    requires lo <= k < hi <= |records| && OwnerOf(records[k]) == owner
    ensures Deliver(p, k, records[k]) in Owned(owner, p, records, lo, hi)
    decreases hi
  {
    if k < hi - 1 {
      OwnedComplete(owner, p, records, lo, hi - 1, k);
    }
  }

  lemma {:induction false} AllFromZero(script: seq<Answer>)
    requires forall i :: 0 <= i < |script| ==> script[i] == From(0)
    ensures Handovers(script, 0) == |script| && forall p :: p != 0 ==> Handovers(script, p) == 0
  {
    if script != [] {
      AllFromZero(script[..|script| - 1]);
    }
  }

  lemma {:induction false} OnePartition(msgs: seq<Message>, p: nat)
    requires forall m :: m in msgs ==> m.partition == p
    ensures OfPartition(msgs, p) == msgs
  {
    if msgs != [] {
      OnePartition(msgs[..|msgs| - 1], p);
      assert msgs[|msgs| - 1] in msgs;
    }
  }

  /** Outside group mode only partition 0 is read. */
  predicate FirstOnly(mode: Mode, script: seq<Answer>, n: nat)
    requires n <= |script|
  {
    mode != Group ==> forall i :: 0 <= i < n ==> script[i] == From(0)
  }

  ghost predicate NoneFrom(msgs: seq<Message>, p: nat) {
    forall m :: m in msgs ==> m.partition != p
  }

  lemma NothingElsewhere(log: Log, starts: seq<nat>, ends: seq<nat>, owner: string, msgs: seq<Message>, p: nat)
    requires Delivered(log, starts, ends, owner, msgs) && p < |log| && starts[p] == ends[p]
    ensures NoneFrom(msgs, p)
  {
    forall m | m in msgs
      ensures m.partition != p
    {
      OfPartitionMember(msgs, m);
    }
  }

  /** A read of partition 0 alone returns from partition 0 alone. */
  lemma PeekReads(log: Log, starts: seq<nat>, ends: seq<nat>, owner: string, msgs: seq<Message>, script: seq<Answer>)
    requires Delivered(log, starts, ends, owner, msgs)
    requires forall i :: 0 <= i < |script| ==> script[i] == From(0)
    requires forall p :: 0 <= p < |log| ==> ends[p] == starts[p] + Handovers(script, p)
    ensures forall m :: m in msgs ==> m.partition == 0
    ensures log != [] ==> ends[0] == starts[0] + |script| && msgs == Owned(owner, 0, log[0], starts[0], ends[0])
  {
    AllFromZero(script);
    forall p | 0 < p < |log|
      ensures NoneFrom(msgs, p)
    {
      NothingElsewhere(log, starts, ends, owner, msgs, p);
    }
    assert forall m :: m in msgs && m.partition != 0 ==> !NoneFrom(msgs, m.partition);
    OnePartition(msgs, 0);
  }

  /** A group reads every partition from its cursor, or from the first offset. */
  ghost predicate ReadsGroup(log: Log, before: Cursors, group: string, owner: string, ends: seq<nat>, msgs: seq<Message>)
    requires |ends| == |log|
  {
    forall p :: 0 <= p < |log| ==>
      var start := if Slot(group, p) in before then before[Slot(group, p)] else 0;
      start <= ends[p] <= |log[p]| && OfPartition(msgs, p) == Owned(owner, p, log[p], start, ends[p])
  }

  /** The other modes read partition 0 alone: earliest from its start, latest from its end, where there is nothing yet. */
  ghost predicate ReadsFirst(log: Log, mode: Mode, owner: string, fetched: nat, ends: seq<nat>, msgs: seq<Message>)
    requires |ends| == |log|
  {
    && (forall m :: m in msgs ==> m.partition == 0)
    && (mode == Earliest && log != [] ==> ends[0] == fetched <= |log[0]| && msgs == Owned(owner, 0, log[0], 0, fetched))
    && (mode == Latest ==> msgs == [] && (log != [] ==> fetched == 0))
  }

  /** What a poll reads, mode by mode: fetched records were handed over and the reads ended at ends. */
  ghost predicate Reads(log: Log, before: Cursors, group: string, mode: Mode, owner: string, fetched: nat, ends: seq<nat>, msgs: seq<Message>) {
    && |ends| == |log|
    && (forall m :: m in msgs ==> Shown(log, ends, owner, m))
    && if mode == Group then ReadsGroup(log, before, group, owner, ends, msgs) else ReadsFirst(log, mode, owner, fetched, ends, msgs)
  }

  lemma FirstRead(log: Log, mode: Mode, owner: string, starts: seq<nat>, script: seq<Answer>, ends: seq<nat>, msgs: seq<Message>)
    requires mode != Group && Delivered(log, starts, ends, owner, msgs) && FirstOnly(mode, script, |script|)
    requires forall p :: 0 <= p < |log| ==> ends[p] == starts[p] + Handovers(script, p)
    requires log != [] ==> starts[0] == if mode == Earliest then 0 else |log[0]|
    ensures ReadsFirst(log, mode, owner, |script|, ends, msgs)
  {
    PeekReads(log, starts, ends, owner, msgs, script);
    assert msgs != [] ==> msgs[0] in msgs;
  }

  lemma ReadsFound(log: Log, before: Cursors, group: string, mode: Mode, owner: string, script: seq<Answer>, fetched: nat,
                   ends: seq<nat>, msgs: seq<Message>)
    requires InLog(log, before) && ReadUpTo(Starts(log, before, mode, group), ends, script, fetched)
    requires FirstOnly(mode, script, fetched) && Delivered(log, Starts(log, before, mode, group), ends, owner, msgs)
    ensures Reads(log, before, group, mode, owner, fetched, ends, msgs)
  {
    var starts := Starts(log, before, mode, group);
    MessagesShown(log, starts, ends, owner, msgs);
    if mode != Group {
      FirstRead(log, mode, owner, starts, script[..fetched], ends, msgs);
    }
  }

  /** The fetch cannot return before the deadline. */
  predicate Blocks(log: Log, mode: Mode, pos: seq<nat>, answer: Answer)
    requires |pos| == |log|
  {
    answer == Deadline
    || (answer.From? && (answer.partition >= |log| || (mode != Group && answer.partition != 0)
                         || pos[answer.partition] >= |log[answer.partition]|))
  }

  function Handovers(script: seq<Answer>, p: nat): nat {
    if script == [] then 0
    else
      var n := |script| - 1;
      Handovers(script[..n], p) + if script[n] == From(p) then 1 else 0
  }

  /** The first n answers each handed over a record, and the read positions moved by exactly those. */
  ghost predicate ReadUpTo(starts: seq<nat>, ends: seq<nat>, script: seq<Answer>, n: nat) {
    && n <= |script| && |starts| == |ends|
    && (forall i :: 0 <= i < n ==> script[i].From?)
    && (forall p :: 0 <= p < |starts| ==> ends[p] == starts[p] + Handovers(script[..n], p))
  }

  lemma ReadOneMore(starts: seq<nat>, pos: seq<nat>, script: seq<Answer>, n: nat)
    requires ReadUpTo(starts, pos, script, n) && n < |script| && script[n].From? && script[n].partition < |pos|
    ensures ReadUpTo(starts, pos[script[n].partition := pos[script[n].partition] + 1], script, n + 1)
  {
    assert script[..n + 1][..n] == script[..n];
  }

  /** A poll ends with the last record it may return, or with nothing more to be had before the deadline. */
  ghost predicate Stopped(log: Log, mode: Mode, limit: nat, script: seq<Answer>, n: nat, ends: seq<nat>, msgs: seq<Message>)
    requires |ends| == |log|
  {
    && n <= |script| && |msgs| <= limit
    && (|msgs| == limit ==> LastHandedOver(script, n, ends, msgs))
    && (|msgs| < limit && n < |script| && script[n] != Deadline ==>
          && script[n].From?
          && var p := script[n].partition;
             p >= |log| || (mode != Group && p != 0) || ends[p] >= |log[p]|)
  }

  predicate LastHandedOver(script: seq<Answer>, n: nat, ends: seq<nat>, msgs: seq<Message>) {
    0 < n <= |script| && msgs != [] &&
    var p, last := script[n - 1], msgs[|msgs| - 1];
    p == From(last.partition) && last.partition < |ends| && ends[last.partition] == last.offset + 1
  }

  /**
   The fetch loop. script answers the fetches one by one; past its end, or when it names a partition
   with nothing to hand over, the fetch blocks until the deadline.
   */
  method Gather(log: Log, starts: seq<nat>, mode: Mode, owner: string, limit: nat, script: seq<Answer>)
    returns (ok: bool, msgs: seq<Message>, collected: seq<Ref>, pos: seq<nat>)
    requires limit > 0
    requires |starts| == |log| && forall p :: 0 <= p < |log| ==> starts[p] <= |log[p]|
    ensures Delivered(log, starts, pos, owner, msgs)
    ensures Tracks(starts, pos, CommitOffsets(collected))
    ensures ReadUpTo(starts, pos, script, |collected|)
    ensures FirstOnly(mode, script, |collected|)
    ensures ok ==> Stopped(log, mode, limit, script, |collected|, pos, msgs)
    ensures !ok ==> |msgs| < limit && |collected| < |script| && script[|collected|] == Broken
  {
    msgs, collected, pos := [], [], starts;
    NothingRead(log, starts, owner, script);
    for i := 0 to |script|
      invariant |collected| == i && |msgs| <= limit
      invariant Delivered(log, starts, pos, owner, msgs)
      invariant Tracks(starts, pos, CommitOffsets(collected))
      invariant ReadUpTo(starts, pos, script, i)
      invariant FirstOnly(mode, script, i)
      invariant |msgs| == limit ==> LastHandedOver(script, i, pos, msgs)
    {
      if |msgs| >= limit || Blocks(log, mode, pos, script[i]) {
        StopsHere(log, mode, limit, script, i, pos, msgs);
        break;
      }
      if script[i] == Broken {
        return false, msgs, collected, pos;
      }
      HandsOver(log, mode, pos, script, i);
      collected, msgs, pos := Take(log, starts, pos, owner, collected, msgs, script, i);
    }
    ok := true;
  }

  lemma HandsOver(log: Log, mode: Mode, pos: seq<nat>, script: seq<Answer>, n: nat)
    requires |pos| == |log| && n < |script| && FirstOnly(mode, script, n)
    requires !Blocks(log, mode, pos, script[n]) && script[n] != Broken
    ensures script[n].From? && script[n].partition < |log| && pos[script[n].partition] < |log[script[n].partition]|
    ensures FirstOnly(mode, script, n + 1)
  {
  }

  lemma StopsHere(log: Log, mode: Mode, limit: nat, script: seq<Answer>, n: nat, pos: seq<nat>, msgs: seq<Message>)
    requires |pos| == |log| && n < |script| && |msgs| <= limit
    requires |msgs| == limit ==> LastHandedOver(script, n, pos, msgs)
    requires |msgs| < limit ==> Blocks(log, mode, pos, script[n])
    ensures Stopped(log, mode, limit, script, n, pos, msgs)
  {
  }

  lemma NothingRead(log: Log, starts: seq<nat>, owner: string, script: seq<Answer>)
    requires |starts| == |log| && forall p :: 0 <= p < |log| ==> starts[p] <= |log[p]|
    ensures Delivered(log, starts, starts, owner, [])
    ensures Tracks(starts, starts, CommitOffsets([]))
    ensures ReadUpTo(starts, starts, script, 0)
  {
  }

  /** One fetched record: always collected for the commit, returned only to its owner. */
  method Take(log: Log, ghost starts: seq<nat>, pos: seq<nat>, owner: string, collected: seq<Ref>, msgs: seq<Message>,
              script: seq<Answer>, n: nat)
    returns (more: seq<Ref>, out: seq<Message>, next: seq<nat>)
    requires Delivered(log, starts, pos, owner, msgs) && Tracks(starts, pos, CommitOffsets(collected))
    requires ReadUpTo(starts, pos, script, n) && n < |script| && script[n].From?
    requires script[n].partition < |log| && pos[script[n].partition] < |log[script[n].partition]|
    ensures Delivered(log, starts, next, owner, out)
    ensures Tracks(starts, next, CommitOffsets(more))
    ensures ReadUpTo(starts, next, script, n + 1)
    ensures |more| == |collected| + 1 && |msgs| <= |out| <= |msgs| + 1
    ensures |out| > |msgs| ==> LastHandedOver(script, n + 1, next, out)
  {
    var p := script[n].partition;
    var rec := log[p][pos[p]];
    more := collected + [Ref(p, pos[p])];
    out := msgs;
    var headers := FromKafkaHeaders(rec.headers);
    if (if OWNER_HEADER in headers then headers[OWNER_HEADER] else "") == owner {
      headers := headers - {OWNER_HEADER};
      out := out + [Message(p, pos[p], rec.key, rec.value, headers, rec.time)];
    }
    next := pos[p := pos[p] + 1];
    CollectOne(starts, pos, collected, p);
    DeliverOne(log, starts, pos, owner, msgs, p, out);
    ReadOneMore(starts, pos, script, n);
  }

  lemma CollectOne(starts: seq<nat>, pos: seq<nat>, collected: seq<Ref>, p: nat)
    requires |starts| == |pos| && p < |pos| && starts[p] <= pos[p]
    requires Tracks(starts, pos, CommitOffsets(collected))
    ensures Tracks(starts, pos[p := pos[p] + 1], CommitOffsets(collected + [Ref(p, pos[p])]))
  {
    assert (collected + [Ref(p, pos[p])])[..|collected|] == collected;
  }

  /** The offsets to commit are the read positions, for exactly the partitions read from. */
  ghost predicate Tracks(starts: seq<nat>, pos: seq<nat>, offsets: map<nat, nat>) {
    && |starts| == |pos|
    && (forall p :: p in offsets ==> p < |pos| && pos[p] > starts[p] && offsets[p] == pos[p])
    && (forall p :: 0 <= p < |pos| && p !in offsets ==> pos[p] == starts[p])
  }

  function Commit(cursors: Cursors, group: string, offsets: map<nat, nat>): (after: Cursors)
    ensures forall p :: p in offsets ==> Slot(group, p) in after && after[Slot(group, p)] == offsets[p]
    ensures forall g, p: nat :: g != group || p !in offsets ==>
              (Slot(g, p) in after <==> Slot(g, p) in cursors) && (Slot(g, p) in cursors ==> after[Slot(g, p)] == cursors[Slot(g, p)])
  {
    var moved := map key | key in (set p | p in offsets :: Slot(group, p)) :: offsets[key.partition];
    assert forall p :: p in offsets ==> Slot(group, p) in moved;
    cursors + moved
  }

  lemma NothingCommitted(cursors: Cursors, group: string, starts: seq<nat>, ends: seq<nat>)
    requires Tracks(starts, ends, CommitOffsets([]))
    ensures Committed(cursors, cursors, group, starts, ends)
  {
  }

  lemma CommitTracked(log: Log, cursors: Cursors, group: string, starts: seq<nat>, ends: seq<nat>, offsets: map<nat, nat>)
    requires InLog(log, cursors) && |starts| == |ends| == |log| && forall p :: 0 <= p < |log| ==> starts[p] <= ends[p] <= |log[p]|
    requires Tracks(starts, ends, offsets)
    ensures InLog(log, Commit(cursors, group, offsets))
    ensures Committed(cursors, Commit(cursors, group, offsets), group, starts, ends)
  {
    var after := Commit(cursors, group, offsets);
    forall slot | slot in after
      ensures slot.partition < |log| && after[slot] <= |log[slot.partition]|
    {
      assert slot == Slot(slot.group, slot.partition);
    }
  }

  /** Reading one more record keeps the delivered prefix exact, whether or not the record is the owner's. */
  lemma DeliverOne(log: Log, starts: seq<nat>, pos: seq<nat>, owner: string, was: seq<Message>, p: nat, msgs: seq<Message>)
    requires Delivered(log, starts, pos, owner, was)
    requires p < |log| && pos[p] < |log[p]|
    requires msgs == was + if OwnerOf(log[p][pos[p]]) == owner then [Deliver(p, pos[p], log[p][pos[p]])] else []
    ensures Delivered(log, starts, pos[p := pos[p] + 1], owner, msgs)
  {
    var ends := pos[p := pos[p] + 1];
    var rec := log[p][pos[p]];
    forall q | 0 <= q < |log|
      ensures starts[q] <= ends[q] <= |log[q]| && OfPartition(msgs, q) == Owned(owner, q, log[q], starts[q], ends[q])
    {
      if OwnerOf(rec) == owner {
        OfPartitionSnoc(was, Deliver(p, pos[p], rec), q);
      } else {
        assert msgs == was;
      }
      if q == p {
        OwnedOneMore(owner, p, log[p], starts[p], pos[p]);
      }
    }
  }

  lemma OwnedOneMore(owner: string, p: nat, records: seq<Record>, lo: nat, hi: nat)
    requires lo <= hi < |records|
    ensures Owned(owner, p, records, lo, hi + 1)
         == Owned(owner, p, records, lo, hi) + if OwnerOf(records[hi]) == owner then [Deliver(p, hi, records[hi])] else []
  {
  }

  lemma OfPartitionSnoc(was: seq<Message>, m: Message, p: nat)
    ensures OfPartition(was + [m], p) == OfPartition(was, p) + if m.partition == p then [m] else []
  {
    assert (was + [m])[..|was|] == was;
  }
}
