/** API keys over their whole life: minting, the memoising resolvers, the per-user cap, revocation and its cascade. */
module Keys {
  import opened Wrappers
  import opened KeyFormat

  const MAX_PER_USER: nat := 2

  type KeyId = nat
  type MemoryId = nat

  /** owner is None for keys minted outside the dashboard. */
  datatype KeyRow = KeyRow(key: string, title: string, owner: Option<string>)

  type KeyTable = map<KeyId, KeyRow>

  datatype AuthError = Malformed | InvalidKey | Database

  /** A cache entry of one resolver instance. */
  datatype Slot = Slot(resolver: nat, key: string)

  /** A call that has its id from the table and is about to cache and return it. */
  datatype Fill = Fill(call: nat, slot: Slot, id: KeyId)

  /** memories maps each memory row to the key it references; minted is every key ever inserted, with its id. */
  datatype State = State(table: KeyTable, memories: map<MemoryId, KeyId>,
                         caches: map<Slot, KeyId>, inflight: set<Fill>, minted: map<string, KeyId>)

  datatype Action =
    | Mint(call: nat, resolver: nat, key: string, title: string, id: KeyId)
    | Create(user: string, key: string, title: string, id: KeyId)
      // a call finds the key cached and returns; misses and queries the table; caches what it read and returns
    | Hit(resolver: nat, key: string, id: KeyId)
    | LookUp(call: nat, resolver: nat, key: string, id: KeyId)
    | Remember(fill: Fill)
    | Revoke(user: string, id: KeyId)
    | WriteMemory(memory: MemoryId, id: KeyId)
    | Forget(resolver: nat)

  // ---------- operations ----------

  function OwnedBy(table: KeyTable, user: string): (ids: set<KeyId>)
    ensures forall id :: id in ids <==> id in table && table[id].owner == Some(user)
  {
    set id | id in table && table[id].owner == Some(user)
  }

  ghost predicate Holds(table: KeyTable, id: KeyId, key: string) {
    id in table && table[id].key == key
  }

  /** Inserting under the cap; the memories of other keys are untouched by construction. */
  function Capped(table: KeyTable, user: string, key: string, title: string, id: KeyId): KeyTable {
    if |OwnedBy(table, user)| < MAX_PER_USER then table[id := KeyRow(key, title, Some(user))] else table
  }

  predicate MayRevoke(table: KeyTable, user: string, id: KeyId) {
    id in table && table[id].owner == Some(user)
  }

  /** ON DELETE CASCADE. */
  function Cascade(memories: map<MemoryId, KeyId>, id: KeyId): map<MemoryId, KeyId> {
    map m | m in memories && memories[m] != id :: memories[m]
  }

  ghost predicate Idle(s: State, call: nat) {
    forall fill :: fill in s.inflight ==> fill.call != call
  }

  /** The unguessable parts are fresh: a random key, a generated id. */
  ghost predicate Enabled(s: State, a: Action) {
    match a
    case Mint(call, _, key, _, id) => Idle(s, call) && ValidFormat(key) && key !in s.minted && id !in s.minted.Values
    case Create(_, key, _, id) => ValidFormat(key) && key !in s.minted && id !in s.minted.Values
    case Hit(r, key, id) => ValidFormat(key) && Slot(r, key) in s.caches && s.caches[Slot(r, key)] == id
    case LookUp(call, _, key, id) => Idle(s, call) && ValidFormat(key) && Holds(s.table, id, key)
    case Remember(fill) => fill in s.inflight
    case Revoke(user, id) => MayRevoke(s.table, user, id)
    case WriteMemory(m, id) => m !in s.memories && id in s.table
    case Forget(_) => true
  }

  ghost function Apply(s: State, a: Action): State
    requires Enabled(s, a)
  {
    match a
    case Mint(call, r, key, title, id) =>
      s.(table := s.table[id := KeyRow(key, title, None)], minted := s.minted[key := id],
         inflight := s.inflight + {Fill(call, Slot(r, key), id)})
    case Create(user, key, title, id) =>
      if |OwnedBy(s.table, user)| < MAX_PER_USER then
        s.(table := Capped(s.table, user, key, title, id), minted := s.minted[key := id])
      else s
    case Hit(_, _, _) => s
    case LookUp(call, r, key, id) => s.(inflight := s.inflight + {Fill(call, Slot(r, key), id)})
    case Remember(fill) => s.(caches := s.caches[fill.slot := fill.id], inflight := s.inflight - {fill})
    case Revoke(_, id) => s.(table := s.table - {id}, memories := Cascade(s.memories, id))
    case WriteMemory(m, id) => s.(memories := s.memories[m := id])
    case Forget(r) =>
      s.(caches := map slot | slot in s.caches && slot.resolver != r :: s.caches[slot],
         inflight := set fill | fill in s.inflight && fill.slot.resolver != r)
  }

  ghost predicate Legal(s: State, acts: seq<Action>)
    decreases |acts|
  {
    acts == [] || (Enabled(s, acts[0]) && Legal(Apply(s, acts[0]), acts[1..]))
  }

  ghost function Exec(s: State, acts: seq<Action>): State
    requires Legal(s, acts)
    decreases |acts|
  {
    if acts == [] then s else Exec(Apply(s, acts[0]), acts[1..])
  }

  const Start := State(map[], map[], map[], {}, map[])

  // ---------- invariants ----------

  ghost predicate Mints(minted: map<string, KeyId>, key: string, id: KeyId) {
    key in minted && minted[key] == id
  }

  /** Table, caches and pending cache fills only ever name a key by the id it was minted with. */
  ghost predicate Named(s: State) {
    && (forall k1, k2 :: k1 in s.minted && k2 in s.minted && s.minted[k1] == s.minted[k2] ==> k1 == k2)
    && (forall id :: id in s.table ==> Mints(s.minted, s.table[id].key, id))
    && (forall slot :: slot in s.caches ==> Mints(s.minted, slot.key, s.caches[slot]))
    && (forall fill :: fill in s.inflight ==> Mints(s.minted, fill.slot.key, fill.id))
  }

  ghost predicate Rooted(s: State) {
    forall m :: m in s.memories ==> s.memories[m] in s.table
  }

  ghost predicate Inv(s: State) {
    Named(s) && Rooted(s) && forall user :: |OwnedBy(s.table, user)| <= MAX_PER_USER
  }

  lemma OwnedGrows(table: KeyTable, id: KeyId, row: KeyRow, user: string)
    requires id !in table
    ensures OwnedBy(table[id := row], user) == OwnedBy(table, user) + if row.owner == Some(user) then {id} else {}
  {
  }

  lemma OwnedShrinks(table: KeyTable, id: KeyId, user: string)
    ensures OwnedBy(table - {id}, user) <= OwnedBy(table, user)
    ensures |OwnedBy(table - {id}, user)| <= |OwnedBy(table, user)|
  {
    var less, more := OwnedBy(table - {id}, user), OwnedBy(table, user);
    assert more == less + (more - less);
  }

  lemma CapStep(s: State, a: Action, user: string)
    requires Named(s) && Enabled(s, a) && |OwnedBy(s.table, user)| <= MAX_PER_USER
    ensures |OwnedBy(Apply(s, a).table, user)| <= MAX_PER_USER
  {
    if a.Mint? || a.Create? {
      assert a.id !in s.table;
      OwnedGrows(s.table, a.id, KeyRow(a.key, a.title, if a.Create? then Some(a.user) else None), user);
    } else if a.Revoke? {
      OwnedShrinks(s.table, a.id, user);
    }
  }

  lemma NamedMint(s: State, a: Action)
    requires Named(s) && Enabled(s, a) && (a.Mint? || a.Create?)
    ensures Named(Apply(s, a))
  {
  }

  lemma NamedCache(s: State, a: Action)
    requires Named(s) && Enabled(s, a) && (a.LookUp? || a.Remember? || a.Forget?)
    ensures Named(Apply(s, a))
  {
  }

  lemma NamedStep(s: State, a: Action)
    requires Named(s) && Enabled(s, a)
    ensures Named(Apply(s, a))
    ensures forall key :: key in s.minted ==> Mints(Apply(s, a).minted, key, s.minted[key])
  {
    if a.Mint? || a.Create? {
      NamedMint(s, a);
    } else if a.LookUp? || a.Remember? || a.Forget? {
      NamedCache(s, a);
    }
  }

  lemma InvStep(s: State, a: Action)
    requires Inv(s) && Enabled(s, a)
    ensures Inv(Apply(s, a))
    ensures forall key :: key in s.minted ==> Mints(Apply(s, a).minted, key, s.minted[key])
  {
    forall user
      ensures |OwnedBy(Apply(s, a).table, user)| <= MAX_PER_USER
    {
      CapStep(s, a, user);
    }
    NamedStep(s, a);
  }

  lemma {:induction false} InvRun(s: State, acts: seq<Action>)
    requires Inv(s) && Legal(s, acts)
    ensures Inv(Exec(s, acts))
    ensures forall key :: key in s.minted ==> Mints(Exec(s, acts).minted, key, s.minted[key])
    decreases |acts|
  {
    if acts != [] {
      InvStep(s, acts[0]);
      InvRun(Apply(s, acts[0]), acts[1..]);
    }
  }

  /** Caches stay within the mint history, users within two keys, and memories within live keys, over every run. */
  lemma ReachableInv(acts: seq<Action>)
    requires Legal(Start, acts)
    ensures Inv(Exec(Start, acts))
    ensures forall user :: |OwnedBy(Exec(Start, acts).table, user)| <= 2
  {
    forall user
      ensures |OwnedBy(Start.table, user)| <= MAX_PER_USER
    {
      assert OwnedBy(Start.table, user) == {};
    }
    InvRun(Start, acts);
  }

  // ---------- what a caller sees ----------

  /** This step of resolver r hands a caller the id of a key. */
  ghost predicate Answers(a: Action, r: nat, key: string, id: KeyId) {
    a == Hit(r, key, id) || (a.Remember? && a.fill.slot == Slot(r, key) && a.fill.id == id)
  }

  lemma {:induction false} AnswerMinted(s: State, acts: seq<Action>, i: nat, r: nat, key: string, id: KeyId)
    requires Inv(s) && Legal(s, acts) && i < |acts| && Answers(acts[i], r, key, id)
    ensures Mints(Exec(s, acts).minted, key, id)
    decreases |acts|
  {
    if i == 0 {
      assert Mints(s.minted, key, id);
      InvRun(s, acts);
    } else {
      InvStep(s, acts[0]);
      AnswerMinted(Apply(s, acts[0]), acts[1..], i - 1, r, key, id);
    }
  }

  /** A key's id never changes: any two answers for it in one history, by whichever resolvers, agree. */
  lemma IdNeverChanges(acts: seq<Action>, i: nat, j: nat, r1: nat, r2: nat, key: string, id1: KeyId, id2: KeyId)
    requires Legal(Start, acts) && i < |acts| && j < |acts|
    requires Answers(acts[i], r1, key, id1) && Answers(acts[j], r2, key, id2)
    ensures id1 == id2
  {
    ReachableInv([]);
    AnswerMinted(Start, acts, i, r1, key, id1);
    AnswerMinted(Start, acts, j, r2, key, id2);
  }

  ghost predicate Waiting(s: State, r: nat, key: string) {
    exists fill :: fill in s.inflight && fill.slot == Slot(r, key)
  }

  /** A key that was minted and is no longer in the table. */
  ghost predicate Revoked(s: State, key: string) {
    key in s.minted && s.minted[key] !in s.table
  }

  ghost predicate Silent(s: State, r: nat, key: string) {
    Revoked(s, key) && Slot(r, key) !in s.caches && !Waiting(s, r, key)
  }

  lemma SilentStep(s: State, a: Action, r: nat, key: string)
    requires Inv(s) && Enabled(s, a) && Silent(s, r, key)
    ensures Silent(Apply(s, a), r, key)
    ensures forall id :: !Answers(a, r, key, id)
  {
    RevokedStep(s, a, key);
    assert a.LookUp? ==> Mints(s.minted, a.key, a.id);
    assert a.Remember? ==> a.fill.slot != Slot(r, key);
    forall fill | fill in Apply(s, a).inflight
      ensures fill.slot != Slot(r, key)
    {
      assert fill in s.inflight || a.LookUp? || a.Mint?;
    }
  }

  /** Revocation is for good: neither the key nor its id is ever minted again. */
  lemma RevokedStep(s: State, a: Action, key: string)
    requires Named(s) && Enabled(s, a) && Revoked(s, key)
    ensures Revoked(Apply(s, a), key) && Apply(s, a).minted[key] == s.minted[key]
  {
    assert s.minted[key] in s.minted.Values;
  }

  /** The run hands some caller of resolver r the key's id. */
  ghost predicate Admits(s: State, acts: seq<Action>, r: nat, key: string) {
    Legal(s, acts) && exists i, id :: 0 <= i < |acts| && Answers(acts[i], r, key, id)
  }

  lemma {:induction false} SilentRun(s: State, acts: seq<Action>, r: nat, key: string)
    requires Inv(s) && Legal(s, acts) && Silent(s, r, key)
    ensures !Admits(s, acts, r, key)
    decreases |acts|
  {
    if acts != [] {
      SilentStep(s, acts[0], r, key);
      InvStep(s, acts[0]);
      SilentRun(Apply(s, acts[0]), acts[1..], r, key);
      forall i, id | 0 <= i < |acts|
        ensures !Answers(acts[i], r, key, id)
      {
        assert i > 0 ==> acts[i] == acts[1..][i - 1];
      }
    }
  }

  lemma AnswerNow(s: State, a: Action, r: nat, key: string, id: KeyId)
    requires Enabled(s, a) && Answers(a, r, key, id)
    ensures Admits(s, [a], r, key)
  {
    assert [a][1..] == [] && [a][0] == a;
  }

  /**
   A revoked key can still be admitted by a resolver, now or at any later time, exactly while that resolver
   caches it or a call of it read the table before the revocation. Whatever is cached, no memory refers to
   the key and none can be written to it.
   */
  lemma RevokedKey(acts: seq<Action>, r: nat, key: string, m: MemoryId)
    requires Legal(Start, acts) && Revoked(Exec(Start, acts), key) && ValidFormat(key)
    ensures var s := Exec(Start, acts);
            && ((exists more :: Admits(s, more, r, key)) <==> Slot(r, key) in s.caches || Waiting(s, r, key))
            && (m in s.memories ==> s.memories[m] != s.minted[key])
            && !Enabled(s, WriteMemory(m, s.minted[key]))
  {
    var s := Exec(Start, acts);
    ReachableInv(acts);
    if Slot(r, key) in s.caches {
      AnswerNow(s, Hit(r, key, s.caches[Slot(r, key)]), r, key, s.caches[Slot(r, key)]);
    } else if Waiting(s, r, key) {
      var fill :| fill in s.inflight && fill.slot == Slot(r, key);
      AnswerNow(s, Remember(fill), r, key, fill.id);
    } else {
      forall more
        ensures !Admits(s, more, r, key)
      {
        if Legal(s, more) {
          SilentRun(s, more, r, key);
        }
      }
    }
  }

  lemma RunOne(s: State, a: Action)
    requires Enabled(s, a)
    ensures Legal(s, [a]) && Exec(s, [a]) == Apply(s, a)
  {
    assert [a][1..] == [];
  }

  lemma RunTwo(s: State, a: Action, b: Action)
    requires Enabled(s, a) && Enabled(Apply(s, a), b)
    ensures Legal(s, [a, b]) && Exec(s, [a, b]) == Apply(Apply(s, a), b)
  {
    assert [a, b][1..] == [b];
    RunOne(Apply(s, a), b);
  }

  lemma RunFour(s: State, a: Action, b: Action, c: Action, d: Action)
    requires Enabled(s, a) && Enabled(Apply(s, a), b) && Enabled(Apply(Apply(s, a), b), c)
    requires Enabled(Apply(Apply(Apply(s, a), b), c), d)
    ensures Legal(s, [a, b, c, d]) && Exec(s, [a, b, c, d]) == Apply(Apply(Apply(Apply(s, a), b), c), d)
  {
    assert [a, b, c, d][1..] == [b, c, d] && [b, c, d][1..] == [c, d];
    RunTwo(Apply(Apply(s, a), b), c, d);
  }

  /** It does happen: any key created, resolved once and revoked is admitted again from the cache. */
  lemma AdmittedAfterRevocation(r: nat, user: string, key: string, title: string) returns (acts: seq<Action>)
    requires ValidFormat(key)
    ensures Legal(Start, acts) && Revoked(Exec(Start, acts), key)
    ensures Admits(Exec(Start, acts), [Hit(r, key, 0)], r, key)
  {
    var fill := Fill(0, Slot(r, key), 0);
    var s1 := Apply(Start, Create(user, key, title, 0));
    assert OwnedBy(Start.table, user) == {};
    assert s1.table == map[0 := KeyRow(key, title, Some(user))];
    var s2 := Apply(s1, LookUp(0, r, key, 0));
    var s3 := Apply(s2, Remember(fill));
    RunFour(Start, Create(user, key, title, 0), LookUp(0, r, key, 0), Remember(fill), Revoke(user, 0));
    acts := [Create(user, key, title, 0), LookUp(0, r, key, 0), Remember(fill), Revoke(user, 0)];
    AnswerNow(Exec(Start, acts), Hit(r, key, 0), r, key, 0);
  }

  // ---------- the objects ----------

  /** cache holds what the machine's caches hold under this resolver. */
  ghost predicate Mirrors(caches: map<Slot, KeyId>, number: nat, cache: map<string, KeyId>) {
    forall key :: && (key in cache <==> Slot(number, key) in caches)
                  && (key in cache ==> cache[key] == caches[Slot(number, key)])
  }

  /** One resolver with its own memo over the shared table; world is the state of everything around it. */
  class Resolver {
    const number: nat
    var cache: map<string, KeyId>
    ghost var world: State

    ghost predicate Valid()
      reads this
    {
      Inv(world) && Mirrors(world.caches, number, cache)
    }

    constructor (number: nat, ghost world: State)
      requires Inv(world) && forall slot :: slot in world.caches ==> slot.resolver != number
      ensures Valid() && cache == map[] && this.number == number && this.world == world
    {
      this.number := number;
      this.world := world;
      cache := map[];
    }

    /**
     found is what the query returns, if it is asked: an id holding the key, none, or a database error.
     Every answer is a step of the machine that hands out the id, so what holds of those steps holds of it.
     */
    method Resolve(key: string, found: Result<Option<KeyId>, ()>, ghost call: nat)
      returns (r: Result<KeyId, AuthError>, ghost acts: seq<Action>)
      requires Valid() && Idle(world, call)
      requires ValidFormat(key) && key !in cache ==>
                 match found
                 case Ok(Some(id)) => Holds(world.table, id, key)
                 case Ok(None) => forall id :: !Holds(world.table, id, key)
                 case Err(_) => true
      modifies this
      ensures Valid() && Legal(old(world), acts) && world == Exec(old(world), acts)
      ensures r.Ok? ==> acts != [] && Answers(acts[|acts| - 1], number, key, r.value)
      ensures r.Err? ==> world == old(world)
      ensures r == Err(Malformed) <==> !ValidFormat(key)
      ensures r == Err(Malformed) <==>
                !(|key| == 36 && key[..4] == "mcp_" && forall i :: 4 <= i < 36 ==> '0' <= key[i] <= '9' || 'a' <= key[i] <= 'f')
      ensures r == Err(InvalidKey) ==> key !in old(cache) && forall id :: !Holds(old(world).table, id, key)
      ensures ValidFormat(key) ==> (r.Ok? <==> key in old(cache) || (found.Ok? && found.value.Some?))
      ensures r == Err(Database) ==> found.Err?
      ensures key in old(cache) && ValidFormat(key) ==> acts == [Hit(number, key, old(cache)[key])]
      ensures cache == if r.Ok? then old(cache)[key := r.value] else old(cache)
    {
      acts := [];
      FormatExactly(key);
      if !ValidFormat(key) {
        return Err(Malformed), acts;
      }
      if key in cache {
        r := Ok(cache[key]);
        acts := [Hit(number, key, cache[key])];
        RunOne(world, acts[0]);
        assert cache == cache[key := cache[key]];
        return;
      }
      if found.Err? {
        return Err(Database), acts;
      }
      if found.value.None? {
        return Err(InvalidKey), acts;
      }
      var id := found.value.value;
      cache := cache[key := id];
      ghost var fill := Fill(call, Slot(number, key), id);
      acts := [LookUp(call, number, key, id), Remember(fill)];
      RunTwo(world, acts[0], acts[1]);
      InvRun(world, acts);
      world := Exec(world, acts);
      r := Ok(id);
    }

    /** key is freshly generated; inserted is the id the INSERT returned, or an error. */
    method Create(key: string, title: string, inserted: Result<KeyId, ()>, ghost call: nat)
      returns (r: Result<KeyId, AuthError>, ghost acts: seq<Action>)
      requires Valid()
      requires inserted.Ok? ==> Enabled(world, Mint(call, number, key, title, inserted.value))
      modifies this
      ensures Valid() && Legal(old(world), acts) && world == Exec(old(world), acts)
      ensures inserted.Err? ==> r == Err(Database) && world == old(world) && cache == old(cache)
      ensures inserted.Ok? ==> r == Ok(inserted.value) && acts != [] && Answers(acts[|acts| - 1], number, key, r.value)
      ensures inserted.Ok? ==> Mints(world.minted, key, r.value) && Holds(world.table, r.value, key)
      ensures inserted.Ok? ==> world.table[r.value].owner == None && cache == old(cache)[key := r.value]
    {
      acts := [];
      if inserted.Err? {
        return Err(Database), acts;
      }
      var id := inserted.value;
      cache := cache[key := id];
      acts := [Mint(call, number, key, title, id), Remember(Fill(call, Slot(number, key), id))];
      RunTwo(world, acts[0], acts[1]);
      InvRun(world, acts);
      world := Exec(world, acts);
      r := Ok(id);
    }
  }

  datatype KeyError = KeyLimit | DatabaseFailed

  /** The dashboard's view of the key table and the rows that hang off it; ghost fields hold the rest of the machine. */
  class Store {
    var table: KeyTable
    var memories: map<MemoryId, KeyId>
    ghost var caches: map<Slot, KeyId>
    ghost var inflight: set<Fill>
    ghost var minted: map<string, KeyId>

    ghost function View(): State
      reads this
    {
      State(table, memories, caches, inflight, minted)
    }

    constructor ()
      ensures View() == Start
    {
      table, memories := map[], map[];
      caches, inflight, minted := map[], {}, map[];
    }

    /** key and id are freshly generated; dbOk: whether the database answers. */
    method Create(user: string, key: string, title: string, id: KeyId, dbOk: bool) returns (r: Result<KeyId, KeyError>)
      requires id !in table
      modifies this
      ensures r == if !dbOk then Err(DatabaseFailed)
                   else if |OwnedBy(old(table), user)| < 2 then Ok(id)
                   else Err(KeyLimit)
      ensures r.Err? ==> View() == old(View())
      ensures r.Ok? ==> table == old(table)[id := KeyRow(key, title, Some(user))]
      ensures dbOk && Enabled(old(View()), Action.Create(user, key, title, id)) ==>
                View() == Apply(old(View()), Action.Create(user, key, title, id))
      ensures dbOk ==> table == Capped(old(table), user, key, title, id) && memories == old(memories) && caches == old(caches)
      ensures |OwnedBy(old(table), user)| <= MAX_PER_USER ==> |OwnedBy(table, user)| <= MAX_PER_USER
      ensures forall other :: other != user ==> OwnedBy(table, other) == OwnedBy(old(table), other)
    {
      if !dbOk {
        return Err(DatabaseFailed);
      }
      if |OwnedBy(table, user)| >= MAX_PER_USER {
        return Err(KeyLimit);
      }
      ghost var before := table;
      table := table[id := KeyRow(key, title, Some(user))];
      forall other {
        OwnedGrows(before, id, KeyRow(key, title, Some(user)), other);
      }
      minted := minted[key := id];
      r := Ok(id);
    }

    /**
     Only the owner's own key is removed, and with it exactly that key's memories. given is None when the
     caller's text is no id at all, which is a miss and not an error.
     */
    method Delete(user: string, given: Option<KeyId>, dbOk: bool) returns (r: Result<bool, KeyError>)
      modifies this
      ensures r == if given.Some? && !dbOk then Err(DatabaseFailed)
                   else Ok(given.Some? && given.value in old(table) && old(table)[given.value].owner == Some(user))
      ensures View() == if r == Ok(true) then Apply(old(View()), Revoke(user, given.value)) else old(View())
      ensures r == Ok(true) ==>
                && table == old(table) - {given.value}
                && (forall m :: m in memories <==> m in old(memories) && old(memories)[m] != given.value)
                && (forall m :: m in memories ==> memories[m] == old(memories)[m])
    {
      if given.None? {
        return Ok(false);
      }
      if !dbOk {
        return Err(DatabaseFailed);
      }
      var id := given.value;
      if !MayRevoke(table, user, id) {
        return Ok(false);
      }
      table := table - {id};
      memories := Cascade(memories, id);
      r := Ok(true);
    }
  }
}
