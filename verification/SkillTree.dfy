/**
 The bounded recursive directory walk. A responder answers each contents request in any way it likes, and the
 same directory differently each time it is asked.
 */
module SkillTree {
  import opened Wrappers

  const MAX_FILES: nat := 50
  const MAX_DEPTH: nat := 3

  datatype Kind = File | Dir | Other

  datatype Item = Item(path: string, kind: Kind, url: string)

  datatype Listing = Items(items: seq<Item>) | Refused(reason: string)

  /** The answer to the n-th request, for a directory. */
  type Responder = (nat, string) -> Listing

  // ---------- reference: the whole pre-order, then a cut ----------

  /** What a walk without any file limit meets: a file, or a directory that cannot be listed. */
  datatype Event = Met(item: Item) | Broke(reason: string)

  /** What a walk meets, and how many requests were made once it is done. */
  datatype Trace = Trace(events: seq<Event>, asked: nat)

  /** Pre-order of the tree under dir, cut below depth MAX_DEPTH; asked requests were made before. */
  function Walk(resp: Responder, asked: nat, dir: string, depth: nat): Trace
    decreases if depth > MAX_DEPTH then 0 else MAX_DEPTH + 1 - depth, 1, 0
  {
    if depth > MAX_DEPTH then Trace([], asked)
    else
      match resp(asked, dir)
      case Refused(reason) => Trace([Broke(reason)], asked + 1)
      case Items(items) => WalkItems(resp, asked + 1, items, depth)
  }

  function WalkItems(resp: Responder, asked: nat, items: seq<Item>, depth: nat): Trace
    requires depth <= MAX_DEPTH
    decreases MAX_DEPTH + 1 - depth, 0, |items|
  {
    if items == [] then Trace([], asked)
    else
      var first := WalkItem(resp, asked, items[0], depth);
      var rest := WalkItems(resp, first.asked, items[1..], depth);
      Trace(first.events + rest.events, rest.asked)
  }

  function WalkItem(resp: Responder, asked: nat, item: Item, depth: nat): Trace
    requires depth <= MAX_DEPTH
    decreases MAX_DEPTH + 1 - depth, 0, 0
  {
    match item.kind
    case File => Trace([Met(item)], asked)
    case Dir => Walk(resp, asked, item.path, depth + 1)
    case Other => Trace([], asked)
  }

  /** Everything under dir, for a responder not asked before. */
  function PreOrder(resp: Responder, dir: string): seq<Event> {
    Walk(resp, 0, dir, 0).events
  }

  function Files(events: seq<Event>): seq<Item> {
    if events == [] then []
    else (if events[0].Met? then [events[0].item] else []) + Files(events[1..])
  }

  datatype Outcome = Outcome(items: seq<Item>, error: Option<string>)

  /** Consume events into items until the limit or the first error. */
  function Take(items: seq<Item>, events: seq<Event>): Outcome
    decreases |events|
  {
    if |items| >= MAX_FILES || events == [] then Outcome(items, None)
    else
      match events[0]
      case Met(item) => Take(items + [item], events[1..])
      case Broke(reason) => Outcome(items, Some(reason))
  }

  lemma {:induction false} TakeConcat(items: seq<Item>, a: seq<Event>, b: seq<Event>)
    ensures Take(items, a + b) == var first := Take(items, a); if first.error.Some? then first else Take(first.items, b)
    decreases |a|
  {
    if a == [] {
      assert a + b == b;
    } else if |items| < MAX_FILES && a[0].Met? {
      assert (a + b)[1..] == a[1..] + b;
      TakeConcat(items + [a[0].item], a[1..], b);
    }
  }

  predicate NoBreak(events: seq<Event>) {
    forall k :: 0 <= k < |events| ==> events[k].Met?
  }

  function Cut(items: seq<Item>): seq<Item> {
    if |items| <= MAX_FILES then items else items[..MAX_FILES]
  }

  /** Some directory refuses before the limit is reached. */
  ghost predicate BreaksEarly(room: int, events: seq<Event>) {
    exists k :: 0 <= k < |events| && events[k].Broke? && NoBreak(events[..k]) && k < room
  }

  lemma BreaksEarlyCons(room: int, first: Event, rest: seq<Event>)
    requires first.Met? && room > 0
    ensures BreaksEarly(room, [first] + rest) <==> BreaksEarly(room - 1, rest)
  {
    var events := [first] + rest;
    if k :| 0 <= k < |rest| && rest[k].Broke? && NoBreak(rest[..k]) && k < room - 1 {
      assert events[..k + 1] == [first] + rest[..k];
      assert events[k + 1].Broke? && NoBreak(events[..k + 1]);
    }
    if k :| 0 <= k < |events| && events[k].Broke? && NoBreak(events[..k]) && k < room {
      assert rest[..k - 1] == events[..k][1..];
      assert rest[k - 1].Broke? && NoBreak(rest[..k - 1]);
    }
  }

  /** A walk fails exactly when some directory refuses before the limit is reached. */
  lemma {:induction false} TakeFails(items: seq<Item>, events: seq<Event>)
    requires |items| <= MAX_FILES
    ensures Take(items, events).error.Some? <==> BreaksEarly(MAX_FILES - |items|, events)
    decreases |events|
  {
    if events != [] && |items| < MAX_FILES {
      if events[0].Met? {
        assert events == [events[0]] + events[1..];
        BreaksEarlyCons(MAX_FILES - |items|, events[0], events[1..]);
        TakeFails(items + [events[0].item], events[1..]);
      } else {
        assert NoBreak(events[..0]);
      }
    }
  }

  /** A walk that does not fail holds the first 50 files. */
  lemma {:induction false} TakeCuts(items: seq<Item>, events: seq<Event>)
    requires |items| <= MAX_FILES
    ensures Take(items, events).error.None? ==> Take(items, events).items == Cut(items + Files(events))
    decreases |events|
  {
    if events == [] {
      assert items + Files(events) == items;
    } else if |items| >= MAX_FILES {
      assert Cut(items + Files(events)) == items;
    } else if events[0].Met? {
      TakeCuts(items + [events[0].item], events[1..]);
      assert items + Files(events) == items + [events[0].item] + Files(events[1..]);
    }
  }

  // ---------- what there is to be met, and in which order, without walking ----------

  /**
   The event at an address: the indices, level by level, of the entries that lead to it. A directory is
   entered by its path and may be refused; an entry of kind File is met; one of another kind leads nowhere.
   */
  ghost predicate Found(resp: Responder, dir: string, addr: seq<nat>, event: Event)
    decreases |addr|, 1
  {
    exists n :: FoundIn(resp, resp(n, dir), addr, event)
  }

  ghost predicate FoundIn(resp: Responder, listing: Listing, addr: seq<nat>, event: Event)
    decreases |addr|, 0
  {
    match listing
    case Refused(reason) => addr == [] && event == Broke(reason)
    case Items(items) => addr != [] && addr[0] < |items| && FoundAt(resp, items[addr[0]], addr[1..], event)
  }

  ghost predicate FoundAt(resp: Responder, item: Item, tail: seq<nat>, event: Event)
    decreases |tail|, 2
  {
    match item.kind
    case File => tail == [] && event == Met(item)
    case Dir => Found(resp, item.path, tail, event)
    case Other => false
  }

  /** Files lie at most room levels down; directories are entered on one level fewer. */
  predicate Fits(addr: seq<nat>, event: Event, room: int) {
    if event.Met? then |addr| <= room else |addr| < room
  }

  /** The order of addresses: entry by entry, all of a subdirectory where its entry stands. */
  predicate Before(a: seq<nat>, b: seq<nat>) {
    b != [] && (a == [] || a[0] < b[0] || (a[0] == b[0] && Before(a[1..], b[1..])))
  }

  predicate Sorted(addrs: seq<seq<nat>>) {
    forall i, j :: 0 <= i < j < |addrs| ==> Before(addrs[i], addrs[j])
  }

  /** A directory gets the same answer whenever it is asked for. */
  ghost predicate Steady(resp: Responder) {
    forall m, n, dir :: resp(m, dir) == resp(n, dir)
  }

  /** addrs are the addresses of these events, in order; with a steady responder, of all there are under dir. */
  ghost predicate Describes(resp: Responder, dir: string, room: int, addrs: seq<seq<nat>>, events: seq<Event>) {
    && |addrs| == |events| && Sorted(addrs)
    && (forall i :: 0 <= i < |addrs| ==> Found(resp, dir, addrs[i], events[i]) && Fits(addrs[i], events[i], room))
    && (Steady(resp) ==> forall addr, event :: Found(resp, dir, addr, event) && Fits(addr, event, room) ==> addr in addrs)
  }

  /** The same for the entries of one listing from the i-th on, */
  ghost predicate DescribesFrom(resp: Responder, items: seq<Item>, i: nat, room: int, addrs: seq<seq<nat>>, events: seq<Event>) {
    && |addrs| == |events| && Sorted(addrs)
    && (forall k :: 0 <= k < |addrs| ==>
          addrs[k] != [] && addrs[k][0] >= i && FoundIn(resp, Items(items), addrs[k], events[k]) && Fits(addrs[k], events[k], room))
    && (Steady(resp) ==> forall addr, event ::
          addr != [] && addr[0] >= i && FoundIn(resp, Items(items), addr, event) && Fits(addr, event, room) ==> addr in addrs)
  }

  /** and for one entry. */
  ghost predicate DescribesAt(resp: Responder, item: Item, room: int, tails: seq<seq<nat>>, events: seq<Event>) {
    && |tails| == |events| && Sorted(tails)
    && (forall k :: 0 <= k < |tails| ==> FoundAt(resp, item, tails[k], events[k]) && Fits(tails[k], events[k], room))
    && (Steady(resp) ==> forall tail, event :: FoundAt(resp, item, tail, event) && Fits(tail, event, room) ==> tail in tails)
  }

  function Under(i: nat, tails: seq<seq<nat>>): (addrs: seq<seq<nat>>)
    ensures |addrs| == |tails| && forall k :: 0 <= k < |tails| ==> addrs[k] == [i] + tails[k]
  {
    seq(|tails|, k requires 0 <= k < |tails| => [i] + tails[k])
  }

  lemma UnderSorted(i: nat, tails: seq<seq<nat>>)
    requires Sorted(tails)
    ensures Sorted(Under(i, tails))
  {
    forall j, k | 0 <= j < k < |tails|
      ensures Before([i] + tails[j], [i] + tails[k])
    {
      assert ([i] + tails[j])[1..] == tails[j] && ([i] + tails[k])[1..] == tails[k];
    }
  }

  lemma EntryThenRest(resp: Responder, items: seq<Item>, i: nat, room: int, tails: seq<seq<nat>>, events: seq<Event>,
                      rest: seq<seq<nat>>, later: seq<Event>)
    requires i < |items| && DescribesAt(resp, items[i], room - 1, tails, events)
    requires DescribesFrom(resp, items, i + 1, room, rest, later)
    ensures DescribesFrom(resp, items, i, room, Under(i, tails) + rest, events + later)
  {
    var here := Under(i, tails);
    var addrs := here + rest;
    UnderSorted(i, tails);
    forall k | 0 <= k < |tails|
      ensures FoundIn(resp, Items(items), here[k], events[k])
    {
      assert here[k][1..] == tails[k];
    }
    if Steady(resp) {
      forall addr, event | addr != [] && addr[0] >= i && FoundIn(resp, Items(items), addr, event) && Fits(addr, event, room)
        ensures addr in addrs
      {
        if addr[0] == i {
          assert FoundAt(resp, items[i], addr[1..], event) && Fits(addr[1..], event, room - 1);
          assert addr[1..] in tails;
          var k :| 0 <= k < |tails| && tails[k] == addr[1..];
          assert addrs[k] == [i] + addr[1..] == addr;
        } else {
          assert addr in rest;
        }
      }
    }
  }

  /** The walk below one directory meets exactly what there is to be met, in order. */
  lemma {:induction false} WalkDescribed(resp: Responder, asked: nat, dir: string, depth: nat) returns (addrs: seq<seq<nat>>)
    ensures Describes(resp, dir, MAX_DEPTH + 1 - depth, addrs, Walk(resp, asked, dir, depth).events)
    decreases if depth > MAX_DEPTH then 0 else MAX_DEPTH + 1 - depth, 1, 0
  {
    if depth > MAX_DEPTH {
      addrs := [];
    } else {
      match resp(asked, dir)
      case Refused(reason) =>
        addrs := [[]];
        AnswerDescribed(resp, asked, dir, MAX_DEPTH + 1 - depth, addrs, [Broke(reason)]);
      case Items(items) =>
        assert items[0..] == items;
        addrs := ItemsDescribed(resp, asked + 1, items, 0, depth);
        AnswerDescribed(resp, asked, dir, MAX_DEPTH + 1 - depth, addrs, WalkItems(resp, asked + 1, items, depth).events);
    }
  }

  lemma AnswerDescribed(resp: Responder, n: nat, dir: string, room: int, addrs: seq<seq<nat>>, events: seq<Event>)
    requires resp(n, dir).Items? ==> DescribesFrom(resp, resp(n, dir).items, 0, room, addrs, events)
    requires resp(n, dir).Refused? ==> addrs == [[]] && events == [Broke(resp(n, dir).reason)] && room > 0
    ensures Describes(resp, dir, room, addrs, events)
  {
    forall k | 0 <= k < |addrs|
      ensures Found(resp, dir, addrs[k], events[k])
    {
      assert FoundIn(resp, resp(n, dir), addrs[k], events[k]);
    }
    if Steady(resp) {
      forall addr, event | Found(resp, dir, addr, event) && Fits(addr, event, room)
        ensures addr in addrs
      {
        var m :| FoundIn(resp, resp(m, dir), addr, event);
        assert resp(m, dir) == resp(n, dir);
      }
    }
  }

  lemma {:induction false} ItemsDescribed(resp: Responder, asked: nat, items: seq<Item>, i: nat, depth: nat) returns (addrs: seq<seq<nat>>)
    requires depth <= MAX_DEPTH && i <= |items|
    ensures DescribesFrom(resp, items, i, MAX_DEPTH + 1 - depth, addrs, WalkItems(resp, asked, items[i..], depth).events)
    decreases MAX_DEPTH + 1 - depth, 0, |items| - i
  {
    if i == |items| {
      addrs := [];
    } else {
      var first := WalkItem(resp, asked, items[i], depth);
      assert items[i..][0] == items[i] && items[i..][1..] == items[i + 1..];
      var tails := ItemDescribed(resp, asked, items[i], depth);
      var rest := ItemsDescribed(resp, first.asked, items, i + 1, depth);
      addrs := Under(i, tails) + rest;
      EntryThenRest(resp, items, i, MAX_DEPTH + 1 - depth, tails, first.events, rest,
                    WalkItems(resp, first.asked, items[i + 1..], depth).events);
    }
  }

  lemma {:induction false} ItemDescribed(resp: Responder, asked: nat, item: Item, depth: nat) returns (tails: seq<seq<nat>>)
    requires depth <= MAX_DEPTH
    ensures DescribesAt(resp, item, MAX_DEPTH - depth, tails, WalkItem(resp, asked, item, depth).events)
    decreases MAX_DEPTH + 1 - depth, 0, 0
  {
    match item.kind
    case File => tails := [[]];
    case Dir => tails := WalkDescribed(resp, asked, item.path, depth + 1);
    case Other => tails := [];
  }

  /**
   What a listing may end with. Addresses of at most four levels lead to its files, or to the files before
   the refused directory, in order; a steady responder has nothing else before the last of them, and nothing
   else at all when fewer than 50 files are listed.
   */
  ghost predicate ListedBy(resp: Responder, dir: string, r: Result<seq<Item>, string>) {
    exists addrs, events :: Explained(resp, dir, addrs, events, r)
  }

  ghost predicate Explained(resp: Responder, dir: string, addrs: seq<seq<nat>>, events: seq<Event>, r: Result<seq<Item>, string>) {
    && |addrs| == |events| && Sorted(addrs)
    && (forall i :: 0 <= i < |addrs| ==> Found(resp, dir, addrs[i], events[i]) && Fits(addrs[i], events[i], 4))
    && (Steady(resp) ==> forall addr, event :: Found(resp, dir, addr, event) && Fits(addr, event, 4) && addr !in addrs ==>
          (forall i :: 0 <= i < |addrs| ==> Before(addrs[i], addr)) && !(r.Ok? && |r.value| < 50))
    && match r
       case Ok(files) => |files| == |events| <= 50 && forall i :: 0 <= i < |files| ==> events[i] == Met(files[i]) && files[i].kind == File
       case Err(reason) =>
         && 1 <= |events| <= 50 && events[|events| - 1] == Broke(reason)
         && forall i :: 0 <= i < |events| - 1 ==> events[i].Met?
  }

  /** Taking consumes a prefix of the events: all of it files, up to 50, or files and then the error. */
  lemma {:induction false} TakesPrefix(items: seq<Item>, events: seq<Event>) returns (k: nat)
    requires |items| <= MAX_FILES
    ensures k <= |events|
    ensures var out := Take(items, events);
            if out.error.None? then
              && |out.items| == |items| + k <= MAX_FILES && items <= out.items
              && (k == |events| || |out.items| == MAX_FILES)
              && forall i :: 0 <= i < k ==> events[i] == Met(out.items[|items| + i])
            else
              && 1 <= k <= MAX_FILES - |items| && events[k - 1] == Broke(out.error.value)
              && forall i :: 0 <= i < k - 1 ==> events[i].Met?
    decreases |events|
  {
    k := 0;
    if |items| < MAX_FILES && events != [] {
      k := 1;
      if events[0].Met? {
        var more := TakesPrefix(items + [events[0].item], events[1..]);
        k := more + 1;
        assert forall i :: 1 <= i < k ==> events[i] == events[1..][i - 1];
      }
    }
  }

  lemma ListingExplained(resp: Responder, dir: string, r: Result<seq<Item>, string>)
    requires var out := Take([], PreOrder(resp, dir)); r == if out.error.Some? then Err(out.error.value) else Ok(out.items)
    ensures ListedBy(resp, dir, r)
  {
    var events := PreOrder(resp, dir);
    var addrs := WalkDescribed(resp, 0, dir, 0);
    var k := TakesPrefix([], events);
    CutExplained(resp, dir, addrs, events, k, r);
  }

  lemma CutExplained(resp: Responder, dir: string, addrs: seq<seq<nat>>, events: seq<Event>, k: nat, r: Result<seq<Item>, string>)
    requires Describes(resp, dir, 4, addrs, events) && k <= |events|
    requires r.Ok? ==> |r.value| == k <= 50 && (k == |events| || k == 50) && forall i :: 0 <= i < k ==> events[i] == Met(r.value[i])
    requires r.Err? ==> 1 <= k <= 50 && events[k - 1] == Broke(r.error) && forall i :: 0 <= i < k - 1 ==> events[i].Met?
    ensures ListedBy(resp, dir, r)
  {
    forall i | 0 <= i < k && events[i].Met?
      ensures events[i].item.kind == File
    {
      MetIsFile(resp, dir, addrs[i], events[i].item);
    }
    if Steady(resp) {
      forall addr, event | Found(resp, dir, addr, event) && Fits(addr, event, 4) && addr !in addrs[..k]
        ensures (forall i :: 0 <= i < k ==> Before(addrs[i], addr)) && k < |events|
      {
        var j :| 0 <= j < |addrs| && addrs[j] == addr;
        InPrefix(addrs, k, j);
      }
    }
    assert Explained(resp, dir, addrs[..k], events[..k], r);
  }

  lemma InPrefix<T>(xs: seq<T>, k: nat, j: nat)
    requires j < |xs| && k <= |xs|
    ensures j < k ==> xs[j] in xs[..k]
  {
    assert j < k ==> xs[..k][j] == xs[j];
  }

  lemma {:induction false} MetIsFile(resp: Responder, dir: string, addr: seq<nat>, item: Item)
    requires Found(resp, dir, addr, Met(item))
    ensures item.kind == File
    decreases |addr|
  {
    var n :| FoundIn(resp, resp(n, dir), addr, Met(item));
    var entry := resp(n, dir).items[addr[0]];
    assert FoundAt(resp, entry, addr[1..], Met(item));
    if entry.kind == Dir {
      MetIsFile(resp, entry.path, addr[1..], item);
    }
  }

  // ---------- the walk as written ----------

  /** The accumulator shared by every level of the recursion; asked counts the requests the responder has had. */
  class Accumulator {
    var items: seq<Item>
    var asked: nat

    constructor ()
      ensures items == [] && asked == 0
    {
      items, asked := [], 0;
    }
  }

  /** Taken so far from a trace: items are what was taken of it, and below the limit everything of it was walked. */
  ghost predicate Takes(start: seq<Item>, trace: Trace, items: seq<Item>, asked: nat, error: Option<string>) {
    && Take(start, trace.events) == Outcome(items, error)
    && (error.None? && |items| < MAX_FILES ==> asked == trace.asked)
  }

  /** Taking from the rest of a trace leads to what taking from all of it does. */
  ghost predicate Resumes(start: seq<Item>, whole: Trace, items: seq<Item>, rest: Trace) {
    && Take(start, whole.events) == Take(items, rest.events)
    && (|items| < MAX_FILES ==> whole.asked == rest.asked)
  }

  lemma ItemTaken(start: seq<Item>, whole: Trace, items: seq<Item>, first: Trace, more: seq<Item>, asked: nat, error: Option<string>, rest: Trace)
    requires Resumes(start, whole, items, Trace(first.events + rest.events, rest.asked)) && |items| < MAX_FILES
    requires Takes(items, first, more, asked, error)
    ensures error.None? ==> Resumes(start, whole, more, rest)
    ensures error.Some? ==> Take(start, whole.events) == Outcome(more, error)
  {
    TakeConcat(items, first.events, rest.events);
  }

  method List(resp: Responder, dir: string, depth: nat, acc: Accumulator) returns (error: Option<string>)
    modifies acc
    ensures Takes(old(acc.items), Walk(resp, old(acc.asked), dir, depth), acc.items, acc.asked, error)
    decreases if depth > MAX_DEPTH then 0 else MAX_DEPTH + 1 - depth, 1
  {
    if depth > MAX_DEPTH || |acc.items| >= MAX_FILES {
      return None;
    }
    var listing := resp(acc.asked, dir);
    acc.asked := acc.asked + 1;
    if listing.Refused? {
      return Some(listing.reason);
    }
    var items := listing.items;
    ghost var start := acc.items;
    ghost var whole := WalkItems(resp, acc.asked, items, depth);
    for i := 0 to |items|
      invariant |acc.items| < MAX_FILES ==> Resumes(start, whole, acc.items, WalkItems(resp, acc.asked, items[i..], depth))
      invariant |acc.items| >= MAX_FILES ==> Take(start, whole.events) == Outcome(acc.items, None)
    {
      if |acc.items| >= MAX_FILES {
        return None;
      }
      assert items[i..][1..] == items[i + 1..];
      ghost var before, asked := acc.items, acc.asked;
      error := Visit(resp, items[i], depth, acc);
      ghost var first := WalkItem(resp, asked, items[i], depth);
      ItemTaken(start, whole, before, first, acc.items, acc.asked, error, WalkItems(resp, first.asked, items[i + 1..], depth));
      if error.Some? {
        return;
      }
    }
    error := None;
  }

  /** One entry of a listing, met below the limit. */
  method Visit(resp: Responder, item: Item, depth: nat, acc: Accumulator) returns (error: Option<string>)
    requires depth <= MAX_DEPTH && |acc.items| < MAX_FILES
    modifies acc
    ensures Takes(old(acc.items), WalkItem(resp, old(acc.asked), item, depth), acc.items, acc.asked, error)
    decreases MAX_DEPTH + 1 - depth, 0
  {
    error := None;
    match item.kind {
      case File =>
        acc.items := acc.items + [item];
      case Dir =>
        error := List(resp, item.path, depth + 1, acc);
      case Other =>
    }
  }

  /** The file list a download starts from: every responder, however deep, cyclic or fickle, gives the first 50 files of the cut pre-order. */
  method ListAll(resp: Responder, dir: string) returns (r: Result<seq<Item>, string>)
    ensures ListedBy(resp, dir, r)
    ensures r.Err? <==> BreaksEarly(MAX_FILES, PreOrder(resp, dir))
    ensures r.Err? ==> Take([], PreOrder(resp, dir)).error == Some(r.error)
    ensures r.Ok? ==> r.value == Cut(Files(PreOrder(resp, dir)))
  {
    var acc := new Accumulator();
    var error := List(resp, dir, 0, acc);
    TakeFails([], PreOrder(resp, dir));
    TakeCuts([], PreOrder(resp, dir));
    assert [] + Files(PreOrder(resp, dir)) == Files(PreOrder(resp, dir));
    r := if error.Some? then Err(error.value) else Ok(acc.items);
    ListingExplained(resp, dir, r);
  }
}
