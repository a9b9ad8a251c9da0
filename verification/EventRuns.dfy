/** Whole histories of a topic: anyone publishes, groups poll one at a time, anyone peeks. */
module EventRuns {
  import opened EventLog

  datatype World = World(log: Log, cursors: Cursors)

  datatype Event =
    | Published(owner: string, partition: nat, key: string, value: string, headers: map<string, string>, stamped: seq<Header>, time: int)
    | Polled(owner: string, base: string, msgs: seq<Message>, ends: seq<nat>)
    | Peeked(owner: string, mode: Mode, msgs: seq<Message>, ends: seq<nat>)
    | PollFailed(owner: string, base: string)

  function StartsOf(w: World, group: string): seq<nat>
    requires InLog(w.log, w.cursors)
  {
    Starts(w.log, w.cursors, Group, group)
  }

  ghost predicate Enabled(w: World, e: Event)
    requires InLog(w.log, w.cursors)
  {
    match e
    case Published(owner, p, _, value, headers, stamped, _) =>
      p < |w.log| && value != "" && IsStamped(headers, owner, stamped)
    case Polled(owner, base, msgs, ends) =>
      Delivered(w.log, StartsOf(w, ScopedGroup(base, owner)), ends, owner, msgs)
    case Peeked(owner, mode, msgs, ends) =>
      mode != Group && Delivered(w.log, Starts(w.log, w.cursors, mode, ""), ends, owner, msgs)
    case PollFailed(_, _) => true
  }

  function Moved(starts: seq<nat>, ends: seq<nat>): map<nat, nat>
    requires |starts| == |ends|
  {
    map p: nat | p < |ends| && ends[p] > starts[p] :: ends[p]
  }

  ghost function Apply(w: World, e: Event): (after: World)
    requires InLog(w.log, w.cursors) && Enabled(w, e)
    ensures InLog(after.log, after.cursors)
  {
    match e
    case Published(_, p, key, value, _, stamped, time) =>
      w.(log := w.log[p := w.log[p] + [Record(key, value, stamped, time)]])
    case Polled(owner, base, _, ends) =>
      var group := ScopedGroup(base, owner);
      w.(cursors := Commit(w.cursors, group, Moved(StartsOf(w, group), ends)))
    case Peeked(_, _, _, _) => w
    case PollFailed(_, _) => w
  }

  /** `Topic.Consume` leaves exactly the cursors this step leaves. */
  lemma CommittedIsCommit(before: Cursors, after: Cursors, group: string, starts: seq<nat>, ends: seq<nat>)
    requires |starts| == |ends| && Committed(before, after, group, starts, ends)
    requires forall p :: 0 <= p < |ends| ==> starts[p] <= ends[p]
    ensures after == Commit(before, group, Moved(starts, ends))
  {
    var other := Commit(before, group, Moved(starts, ends));
    forall slot: Slot
      ensures slot in after <==> slot in other
      ensures slot in after ==> after[slot] == other[slot]
    {
      var g, p := slot.group, slot.partition;
      assert slot == Slot(g, p);
      if g == group && p < |ends| && ends[p] != starts[p] {
        assert p in Moved(starts, ends);
      } else {
        assert g != group || p !in Moved(starts, ends);
      }
    }
  }

  ghost predicate Legal(w: World, es: seq<Event>)
    requires InLog(w.log, w.cursors)
    decreases |es|
  {
    es == [] || (Enabled(w, es[0]) && Legal(Apply(w, es[0]), es[1..]))
  }

  ghost function Exec(w: World, es: seq<Event>): (end: World)
    requires InLog(w.log, w.cursors) && Legal(w, es)
    ensures InLog(end.log, end.cursors)
    decreases |es|
  {
    if es == [] then w else Exec(Apply(w, es[0]), es[1..])
  }

  function Empty(partitions: nat): World {
    World(seq(partitions, _ => []), map[])
  }

  lemma {:induction false} SamePartitions(w: World, es: seq<Event>)
    requires InLog(w.log, w.cursors) && Legal(w, es)
    ensures |Exec(w, es).log| == |w.log|
    decreases |es|
  {
    if es != [] {
      SamePartitions(Apply(w, es[0]), es[1..]);
    }
  }

  // ---------- groups and owners ----------

  /** Two owners share a group exactly when one owner id ends with a dot and the other id, and the bases make up the rest. */
  lemma SharedGroup(base1: string, owner1: string, base2: string, owner2: string)
    requires |owner1| <= |owner2|
    ensures ScopedGroup(base1, owner1) == ScopedGroup(base2, owner2) <==>
              || (base1 == base2 && owner1 == owner2)
              || (exists mid :: owner2 == mid + "." + owner1 && base1 == base2 + "." + mid)
  {
    var g1, g2 := ScopedGroup(base1, owner1), ScopedGroup(base2, owner2);
    if g1 == g2 {
      if |owner1| == |owner2| {
        assert g1[..|base1|] == base1 && g2[..|base2|] == base2;
        assert g1[|base1| + 1..] == owner1 && g2[|base2| + 1..] == owner2;
      } else {
        var mid := owner2[..|owner2| - |owner1| - 1];
        assert g2[|base2| + 1..] == owner2;
        assert owner2 == mid + "." + owner1 by {
          assert g1[|base1|] == '.' && g1[|base1| + 1..] == owner1;
          assert owner2[|mid|] == '.';
          assert owner2[|mid| + 1..] == owner1;
        }
        assert g1[..|base1|] == base1;
        assert base1 == base2 + "." + mid;
      }
    }
    forall mid | owner2 == mid + "." + owner1 && base1 == base2 + "." + mid
      ensures g1 == g2
    {
      assert g1 == base2 + "." + mid + "." + owner1;
      assert g2 == base2 + "." + (mid + "." + owner1);
    }
  }

  predicate TailAfterDot(tail: string, whole: string) {
    |tail| < |whole| && whole[|whole| - |tail| - 1..] == "." + tail
  }

  /** No base lets these two owner ids share a group. */
  predicate Apart(owner1: string, owner2: string) {
    owner1 != owner2 && !TailAfterDot(owner1, owner2) && !TailAfterDot(owner2, owner1)
  }

  lemma TailSplits(tail: string, whole: string)
    ensures TailAfterDot(tail, whole) <==> exists mid :: whole == mid + "." + tail
  {
    if TailAfterDot(tail, whole) {
      var mid := whole[..|whole| - |tail| - 1];
      assert whole == mid + ("." + tail) == mid + "." + tail;
    }
    forall mid | whole == mid + "." + tail
      ensures TailAfterDot(tail, whole)
    {
      assert whole == mid + ("." + tail);
    }
  }

  lemma ApartGroups(base1: string, owner1: string, base2: string, owner2: string)
    requires Apart(owner1, owner2)
    ensures ScopedGroup(base1, owner1) != ScopedGroup(base2, owner2)
  {
    TailSplits(owner1, owner2);
    TailSplits(owner2, owner1);
    if |owner1| <= |owner2| {
      SharedGroup(base1, owner1, base2, owner2);
    } else {
      SharedGroup(base2, owner2, base1, owner1);
    }
  }

  /** Owner ids that are not apart share a group for some pair of bases, neither empty. */
  lemma CommonGroup(owner1: string, owner2: string) returns (base1: string, base2: string)
    requires !Apart(owner1, owner2)
    ensures base1 != "" && base2 != "" && ScopedGroup(base1, owner1) == ScopedGroup(base2, owner2)
  {
    base1, base2 := "g", "g";
    if TailAfterDot(owner1, owner2) {
      TailSplits(owner1, owner2);
      var mid :| owner2 == mid + "." + owner1;
      base1 := "g." + mid;
      assert "g." + mid + "." + owner1 == "g" + "." + (mid + "." + owner1);
    } else if TailAfterDot(owner2, owner1) {
      TailSplits(owner2, owner1);
      var mid :| owner1 == mid + "." + owner2;
      base2 := "g." + mid;
      assert "g." + mid + "." + owner2 == "g" + "." + (mid + "." + owner2);
    }
  }

  /** Key ids, all of one length and without dots, are apart from each other for either reason. */
  lemma KeyIdsApart(owner1: string, owner2: string)
    requires owner1 != owner2 && (|owner1| == |owner2| || ('.' !in owner1 && '.' !in owner2))
    ensures Apart(owner1, owner2)
  {
    DotInside(owner1, owner2);
    DotInside(owner2, owner1);
  }

  lemma DotInside(tail: string, whole: string)
    ensures TailAfterDot(tail, whole) ==> '.' in whole
  {
    if TailAfterDot(tail, whole) {
      assert whole[|whole| - |tail| - 1..][0] == '.';
    }
  }

  /** Ids of one length never share a group. */
  lemma GroupsSeparate(base1: string, owner1: string, base2: string, owner2: string)
    requires |owner1| == |owner2|
    ensures ScopedGroup(base1, owner1) == ScopedGroup(base2, owner2) ==> base1 == base2 && owner1 == owner2
  {
    SharedGroup(base1, owner1, base2, owner2);
  }

  /** Nothing an owner apart from this one does, and no peek or failed poll by anyone, moves this owner's cursors. */
  lemma {:induction false} CursorsUndisturbed(w: World, es: seq<Event>, base: string, owner: string, p: nat)
    requires InLog(w.log, w.cursors) && Legal(w, es)
    requires forall e :: e in es && e.Polled? ==> Apart(e.owner, owner)
    ensures Cursor(Exec(w, es).cursors, ScopedGroup(base, owner), p) == Cursor(w.cursors, ScopedGroup(base, owner), p)
    decreases |es|
  {
    if es != [] {
      var e := es[0];
      if e.Polled? {
        ApartGroups(e.base, e.owner, base, owner);
      }
      CursorsUndisturbed(Apply(w, e), es[1..], base, owner, p);
    }
  }

  // ---------- exactly once ----------

  lemma {:induction false} OwnedSplit(owner: string, p: nat, records: seq<Record>, lo: nat, mid: nat, hi: nat)
    requires lo <= mid <= hi <= |records|
    ensures Owned(owner, p, records, lo, hi) == Owned(owner, p, records, lo, mid) + Owned(owner, p, records, mid, hi)
    decreases hi
  {
    if mid < hi {
      OwnedSplit(owner, p, records, lo, mid, hi - 1);
    }
  }

  lemma {:induction false} OwnedAppend(owner: string, p: nat, records: seq<Record>, more: seq<Record>, lo: nat, hi: nat)
    requires hi <= |records|
    ensures Owned(owner, p, records + more, lo, hi) == Owned(owner, p, records, lo, hi)
    decreases hi
  {
    if lo < hi {
      OwnedAppend(owner, p, records, more, lo, hi - 1);
    }
  }

  /** The owner's events of partition p that lie below a group's cursor. */
  function BelowCursor(w: World, group: string, owner: string, p: nat): seq<Message>
    requires InLog(w.log, w.cursors) && p < |w.log|
  {
    Owned(owner, p, w.log[p], 0, Cursor(w.cursors, group, p))
  }

  /** What one event returned from partition p to a group. */
  function Handed(e: Event, group: string, p: nat): seq<Message> {
    if e.Polled? && ScopedGroup(e.base, e.owner) == group then OfPartition(e.msgs, p) else []
  }

  /** Everything polls of one group returned from partition p over a history, in order. */
  function Returned(es: seq<Event>, group: string, p: nat): seq<Message> {
    if es == [] then [] else Handed(es[0], group, p) + Returned(es[1..], group, p)
  }

  ghost predicate Exclusive(es: seq<Event>, group: string, owner: string) {
    forall e :: e in es && e.Polled? && ScopedGroup(e.base, e.owner) == group ==> e.owner == owner
  }

  lemma PolledStep(w: World, e: Event, group: string, owner: string, p: nat)
    requires InLog(w.log, w.cursors) && Enabled(w, e) && p < |w.log|
    requires e.Polled? && e.owner == owner && ScopedGroup(e.base, e.owner) == group
    ensures BelowCursor(Apply(w, e), group, owner, p) == BelowCursor(w, group, owner, p) + OfPartition(e.msgs, p)
  {
    var lo := Cursor(w.cursors, group, p);
    var starts := StartsOf(w, group);
    assert starts[p] == lo;
    assert e.ends[p] > lo <==> p in Moved(starts, e.ends);
    assert Cursor(Apply(w, e).cursors, group, p) == e.ends[p];
    OwnedSplit(owner, p, w.log[p], 0, lo, e.ends[p]);
  }

  lemma PublishedBelow(w: World, e: Event, group: string, owner: string, p: nat)
    requires InLog(w.log, w.cursors) && Enabled(w, e) && p < |w.log| && e.Published?
    ensures p < |Apply(w, e).log| && BelowCursor(Apply(w, e), group, owner, p) == BelowCursor(w, group, owner, p)
  {
    if e.partition == p {
      OwnedAppend(owner, p, w.log[p], [Record(e.key, e.value, e.stamped, e.time)], 0, Cursor(w.cursors, group, p));
    }
  }

  lemma HandedStep(w: World, e: Event, group: string, owner: string, p: nat)
    requires InLog(w.log, w.cursors) && Enabled(w, e) && p < |w.log|
    requires e.Polled? && ScopedGroup(e.base, e.owner) == group ==> e.owner == owner
    ensures p < |Apply(w, e).log|
    ensures BelowCursor(Apply(w, e), group, owner, p) == BelowCursor(w, group, owner, p) + Handed(e, group, p)
  {
    if e.Published? {
      PublishedBelow(w, e, group, owner, p);
    } else if e.Polled? && ScopedGroup(e.base, e.owner) == group {
      PolledStep(w, e, group, owner, p);
    } else {
      assert Apply(w, e).log == w.log && Cursor(Apply(w, e).cursors, group, p) == Cursor(w.cursors, group, p);
    }
  }

  lemma {:induction false} ReturnedFrom(w: World, es: seq<Event>, group: string, owner: string, p: nat)
    requires InLog(w.log, w.cursors) && Legal(w, es) && p < |w.log| && Exclusive(es, group, owner)
    ensures |Exec(w, es).log| == |w.log|
    ensures BelowCursor(Exec(w, es), group, owner, p) == BelowCursor(w, group, owner, p) + Returned(es, group, p)
    decreases |es|
  {
    if es != [] {
      var e, rest := es[0], es[1..];
      var next := Apply(w, e);
      assert e in es;
      HandedStep(w, e, group, owner, p);
      ReturnedFrom(next, rest, group, owner, p);
      Reassociate(BelowCursor(w, group, owner, p), Handed(e, group, p), Returned(rest, group, p));
    }
  }

  lemma Reassociate<T>(a: seq<T>, b: seq<T>, c: seq<T>)
    ensures (a + b) + c == a + (b + c)
  {
  }

  /** Only these owners poll groups in this history; anyone may publish and peek. */
  ghost predicate PolledBy(es: seq<Event>, owners: set<string>) {
    forall e :: e in es && e.Polled? ==> e.owner in owners
  }

  /** Every poll names a base group, its own or the default one. */
  ghost predicate BasesGiven(es: seq<Event>) {
    forall e :: e in es && e.Polled? ==> e.base != ""
  }

  /** What the owner's group was handed is, in order and without gap or repetition, its events below the cursor. */
  ghost predicate ReturnedOnce(partitions: nat, es: seq<Event>, base: string, owner: string, p: nat)
    requires Legal(Empty(partitions), es) && p < partitions
  {
    var end := Exec(Empty(partitions), es);
    SamePartitions(Empty(partitions), es);
    Returned(es, ScopedGroup(base, owner), p) == BelowCursor(end, ScopedGroup(base, owner), owner, p)
  }

  /** Exactly once: over any history in which every other polling owner is apart from this one. */
  lemma ExactlyOnce(partitions: nat, es: seq<Event>, base: string, owner: string, p: nat)
    requires Legal(Empty(partitions), es) && p < partitions
    requires forall e :: e in es && e.Polled? ==> e.owner == owner || Apart(e.owner, owner)
    ensures ReturnedOnce(partitions, es, base, owner, p)
  {
    var group := ScopedGroup(base, owner);
    forall e | e in es && e.Polled? && ScopedGroup(e.base, e.owner) == group
      ensures e.owner == owner
    {
      if Apart(e.owner, owner) {
        ApartGroups(e.base, e.owner, base, owner);
      }
    }
    ReturnedFrom(Empty(partitions), es, group, owner, p);
  }

  /** The owner gets its events exactly once, whatever these owners poll, under every base a poll can have. */
  ghost predicate OnceAmong(owners: set<string>, owner: string) {
    forall partitions, es, base, p: nat {:trigger ReturnedOnce(partitions, es, base, owner, p)} ::
      Legal(Empty(partitions), es) && p < partitions && PolledBy(es, owners) && BasesGiven(es) && base != "" ==>
        ReturnedOnce(partitions, es, base, owner, p)
  }

  /** Two different owners sharing a group: one poll by the other passes over an event for good. */
  lemma SharedGroupLosesEvents(owner: string, base: string, other: string, otherBase: string) returns (es: seq<Event>)
    requires other != owner && ScopedGroup(otherBase, other) == ScopedGroup(base, owner)
    ensures Legal(Empty(1), es) && PolledBy(es, {other}) && !ReturnedOnce(1, es, base, owner, 0)
    ensures otherBase != "" ==> BasesGiven(es)
  {
    var stamped := [Header(OWNER_HEADER, owner)];
    var rec := Record("", "v", stamped, 0);
    var publish := Published(owner, 0, "", "v", map[], stamped, 0);
    var poll := Polled(other, otherBase, [], [1]);
    es := [publish, poll];
    OnePassedOver(rec, stamped, owner, other);
    var w1 := Apply(Empty(1), publish);
    assert Empty(1).log[0] == [] && [] + [rec] == [rec];
    assert w1 == World([[rec]], map[]);
    PollsPast(w1, poll, rec);
    ExecTwo(Empty(1), publish, poll);
    ReturnedTwo(publish, poll, ScopedGroup(base, owner), 0);
    NotReturned(es, base, owner, rec);
  }

  /**
   For any set of polling owners, an owner gets its events exactly once under every history and every base
   exactly when every other owner in the set is apart from it.
   */
  lemma OnceExactly(owners: set<string>, owner: string)
    ensures OnceAmong(owners, owner) <==> forall other :: other in owners && other != owner ==> Apart(other, owner)
  {
    if forall other :: other in owners && other != owner ==> Apart(other, owner) {
      forall partitions, es, base, p: nat
        | Legal(Empty(partitions), es) && p < partitions && PolledBy(es, owners) && BasesGiven(es) && base != ""
        ensures ReturnedOnce(partitions, es, base, owner, p)
      {
        ExactlyOnce(partitions, es, base, owner, p);
      }
    } else {
      var other :| other in owners && other != owner && !Apart(other, owner);
      var otherBase, base := CommonGroup(other, owner);
      var es := SharedGroupLosesEvents(owner, base, other, otherBase);
      assert PolledBy(es, owners);
      assert !ReturnedOnce(1, es, base, owner, 0);
    }
  }

  lemma NotReturned(es: seq<Event>, base: string, owner: string, rec: Record)
    requires Legal(Empty(1), es) && Exec(Empty(1), es).log == [[rec]]
    requires Cursor(Exec(Empty(1), es).cursors, ScopedGroup(base, owner), 0) == 1
    requires Owned(owner, 0, [rec], 0, 1) != [] && Returned(es, ScopedGroup(base, owner), 0) == []
    ensures !ReturnedOnce(1, es, base, owner, 0)
  {
    assert [[rec]][0] == [rec];
    assert BelowCursor(Exec(Empty(1), es), ScopedGroup(base, owner), owner, 0) == Owned(owner, 0, [rec], 0, 1);
  }

  lemma PollsPast(w: World, poll: Event, rec: Record)
    requires w == World([[rec]], map[]) && poll.Polled? && poll.msgs == [] && poll.ends == [1]
    requires Delivered([[rec]], [0], [1], poll.owner, [])
    ensures Enabled(w, poll)
    ensures Cursor(Apply(w, poll).cursors, ScopedGroup(poll.base, poll.owner), 0) == 1
  {
    var group := ScopedGroup(poll.base, poll.owner);
    assert StartsOf(w, group) == [0];
    assert 0 in Moved([0], [1]);
  }

  lemma ExecTwo(w: World, e1: Event, e2: Event)
    requires InLog(w.log, w.cursors) && Enabled(w, e1) && Enabled(Apply(w, e1), e2)
    ensures Legal(w, [e1, e2]) && Exec(w, [e1, e2]) == Apply(Apply(w, e1), e2)
  {
    var es := [e1, e2];
    var w1 := Apply(w, e1);
    assert es[0] == e1 && es[1..] == [e2] && [e2][1..] == [];
    ExecOne(w1, e2);
    ExecFirst(w, es);
  }

  lemma ExecOne(w: World, e: Event)
    requires InLog(w.log, w.cursors) && Enabled(w, e)
    ensures Legal(w, [e]) && Exec(w, [e]) == Apply(w, e)
  {
    ExecFirst(w, [e]);
  }

  lemma ExecFirst(w: World, es: seq<Event>)
    requires InLog(w.log, w.cursors) && es != [] && Enabled(w, es[0]) && Legal(Apply(w, es[0]), es[1..])
    ensures Legal(w, es) && Exec(w, es) == Exec(Apply(w, es[0]), es[1..])
  {
  }

  lemma ReturnedTwo(e1: Event, e2: Event, group: string, p: nat)
    ensures Returned([e1, e2], group, p) == Handed(e1, group, p) + Handed(e2, group, p)
  {
    assert [e1, e2][1..] == [e2] && [e2][1..] == [];
    assert Returned([e2], group, p) == Handed(e2, group, p) + Returned([], group, p);
  }

  lemma OnePassedOver(rec: Record, stamped: seq<Header>, owner: string, other: string)
    requires stamped == [Header(OWNER_HEADER, owner)] && rec == Record("", "v", stamped, 0) && other != owner
    ensures IsStamped(map[], owner, stamped)
    ensures Owned(other, 0, [rec], 0, 1) == [] && Owned(owner, 0, [rec], 0, 1) != []
    ensures Delivered([[rec]], [0], [1], other, [])
  {
    StampRoundTrip(map[], owner, stamped);
    assert OwnerOf(rec) == owner;
    assert Owned(other, 0, [rec], 0, 1) == Owned(other, 0, [rec], 0, 0) + [];
    assert Owned(owner, 0, [rec], 0, 1) == Owned(owner, 0, [rec], 0, 0) + [Deliver(0, 0, rec)];
  }

  // ---------- provenance ----------

  ghost predicate Origin(e: Event, p: nat, rec: Record) {
    e.Published? && e.partition == p && rec == Record(e.key, e.value, e.stamped, e.time) && IsStamped(e.headers, e.owner, e.stamped)
  }

  ghost predicate HasOrigin(past: seq<Event>, p: nat, rec: Record) {
    exists e :: e in past && Origin(e, p, rec)
  }

  ghost predicate AllPublished(w: World, past: seq<Event>) {
    forall p: nat, k: nat :: p < |w.log| && k < |w.log[p]| ==> HasOrigin(past, p, w.log[p][k])
  }

  lemma PublishedStep(w: World, past: seq<Event>, e: Event)
    requires InLog(w.log, w.cursors) && Enabled(w, e) && AllPublished(w, past)
    ensures AllPublished(Apply(w, e), past + [e])
  {
    var after := Apply(w, e);
    forall p: nat, k: nat | p < |after.log| && k < |after.log[p]|
      ensures HasOrigin(past + [e], p, after.log[p][k])
    {
      if k < |w.log[p]| {
        assert HasOrigin(past, p, w.log[p][k]);
        var x :| x in past && Origin(x, p, w.log[p][k]);
        assert x in past + [e];
      } else {
        assert (past + [e])[|past|] == e && Origin(e, p, after.log[p][k]);
      }
    }
  }

  /** m is what `pub` published, seen by the one who published it, with the headers it was given. */
  ghost predicate Genuine(pub: Event, m: Message, reader: string) {
    && pub.Published? && pub.owner == reader && pub.partition == m.partition
    && m.key == pub.key && m.value == pub.value && m.time == pub.time
    && m.headers == pub.headers - {OWNER_HEADER}
  }

  lemma ReadsAreGenuine(w: World, past: seq<Event>, e: Event, m: Message)
    requires InLog(w.log, w.cursors) && Enabled(w, e) && AllPublished(w, past)
    requires (e.Polled? || e.Peeked?) && m in e.msgs
    ensures exists pub :: pub in past && Genuine(pub, m, e.owner)
  {
    var p := m.partition;
    var starts := if e.Polled? then StartsOf(w, ScopedGroup(e.base, e.owner)) else Starts(w.log, w.cursors, e.mode, "");
    OfPartitionMember(e.msgs, m);
    OwnedMember(e.owner, p, w.log[p], starts[p], e.ends[p], m);
    assert HasOrigin(past, p, w.log[p][m.offset]);
    var pub :| pub in past && Origin(pub, p, w.log[p][m.offset]);
    StampRoundTrip(pub.headers, pub.owner, pub.stamped);
    assert Genuine(pub, m, e.owner);
  }

  lemma {:induction false} Provenance(w: World, past: seq<Event>, es: seq<Event>, i: nat, m: Message)
    requires InLog(w.log, w.cursors) && Legal(w, es) && AllPublished(w, past)
    requires i < |es| && (es[i].Polled? || es[i].Peeked?) && m in es[i].msgs
    ensures exists pub :: pub in past + es[..i] && Genuine(pub, m, es[i].owner)
    decreases |es|
  {
    if i == 0 {
      ReadsAreGenuine(w, past, es[0], m);
      assert past + es[..0] == past;
    } else {
      PublishedStep(w, past, es[0]);
      Provenance(Apply(w, es[0]), past + [es[0]], es[1..], i - 1, m);
      assert past + [es[0]] + es[1..][..i - 1] == past + es[..i];
    }
  }

  /**
   Whatever is returned to a caller, by poll or by peek, was published earlier by that same caller, and
   carries the headers it was published with; a forged owner header in that map is never seen again.
   */
  lemma ReturnedToPublisher(partitions: nat, es: seq<Event>, i: nat, m: Message)
    requires Legal(Empty(partitions), es)
    requires i < |es| && (es[i].Polled? || es[i].Peeked?) && m in es[i].msgs
    ensures exists pub :: pub in es[..i] && Genuine(pub, m, es[i].owner)
  {
    Provenance(Empty(partitions), [], es, i, m);
    assert [] + es[..i] == es[..i];
  }
}
