/** The `memories` table and the per-key ring buffer that every write applies to it. */
module MemoryTable {
  import opened Collections
  import opened Wrappers

  type Id = nat
  type KeyId = nat
  type Vector = seq<real>

  datatype Row = Row(key: KeyId, content: string, tags: set<string>, created: int, embedding: Option<Vector>)

  type Table = map<Id, Row>

  const MAX_PER_KEY: nat := 20

  /** What `ORDER BY created_at DESC, id DESC` compares. */
  datatype Stamp = Stamp(created: int, id: Id)

  predicate Newer(a: Stamp, b: Stamp) {
    a.created > b.created || (a.created == b.created && a.id > b.id)
  }

  function Above(all: set<Stamp>, x: Stamp): set<Stamp> {
    set y | y in all && Newer(y, x)
  }

  /** The newest n stamps: those with fewer than n newer ones. */
  function Top(all: set<Stamp>, n: nat): set<Stamp> {
    set x | x in all && |Above(all, x)| < n
  }

  function Stamps(rows: Table, key: KeyId): (stamps: set<Stamp>)
    ensures forall st: Stamp :: st in stamps <==>
              st.id in rows && rows[st.id].key == key && rows[st.id].created == st.created
  {
    var stamps := set id | id in rows && rows[id].key == key :: Stamp(rows[id].created, id);
    assert forall st: Stamp :: st.id in rows && rows[st.id].key == key && rows[st.id].created == st.created ==>
        st == Stamp(rows[st.id].created, st.id);
    stamps
  }

  predicate Survives(rows: Table, key: KeyId, id: Id)
    requires id in rows
  {
    rows[id].key == key ==> Stamp(rows[id].created, id) in Top(Stamps(rows, key), MAX_PER_KEY)
  }

  /** The DELETE of the write transaction: drop this key's rows that are not among its newest. */
  function Evict(rows: Table, key: KeyId): Table {
    map id | id in rows && Survives(rows, key, id) :: rows[id]
  }

  /** One whole write transaction: insert, then evict. */
  function Insert(rows: Table, id: Id, row: Row): Table {
    Evict(rows[id := row], row.key)
  }

  ghost predicate Capped(rows: Table) {
    forall key :: |Stamps(rows, key)| <= MAX_PER_KEY
  }

  // ---------- counting and extremes ----------

  lemma {:induction false} Oldest(s: set<Stamp>) returns (x: Stamp)
    requires s != {}
    ensures x in s && forall y :: y in s && y != x ==> Newer(y, x)
    decreases |s|
  {
    var any :| any in s;
    x := any;
    if s != {any} {
      assert s - {any} != {};
      var rest := Oldest(s - {any});
      if Newer(any, rest) {
        x := rest;
      }
      assert forall y :: y in s ==> y == any || y in s - {any};
    }
  }

  lemma {:induction false} Newest(s: set<Stamp>) returns (x: Stamp)
    requires s != {}
    ensures x in s && forall y :: y in s && y != x ==> Newer(x, y)
    decreases |s|
  {
    var any :| any in s;
    x := any;
    if s != {any} {
      assert s - {any} != {};
      var rest := Newest(s - {any});
      if Newer(rest, any) {
        x := rest;
      }
      assert forall y :: y in s ==> y == any || y in s - {any};
    }
  }

  /** At most n stamps are kept, and every kept stamp is newer than every dropped one. */
  lemma TopSize(all: set<Stamp>, n: nat)
    ensures |Top(all, n)| <= n
    ensures forall x, y :: x in Top(all, n) && y in all - Top(all, n) ==>
              x.created > y.created || (x.created == y.created && x.id > y.id)
  {
    var top := Top(all, n);
    if top != {} {
      var x := Oldest(top);
      assert top - {x} <= Above(all, x);
      SubsetSize(top - {x}, Above(all, x));
    }
    forall x, y | x in top && y in all - top
      ensures Newer(x, y)
    {
      if !Newer(x, y) {
        assert Above(all, y) <= Above(all, x);
        SubsetSize(Above(all, y), Above(all, x));
      }
    }
  }

  /** Nothing is dropped unless n newer stamps are kept. */
  lemma TopFull(all: set<Stamp>, n: nat)
    requires Top(all, n) != all
    ensures |Top(all, n)| == n
    ensures forall x, y :: x in Top(all, n) && y in all - Top(all, n) ==>
              x.created > y.created || (x.created == y.created && x.id > y.id)
  {
    var top := Top(all, n);
    TopSize(all, n);
    var dropped :| dropped in all && dropped !in top;
    assert dropped in all - top;
    var y := Newest(all - top);
    forall z | z in all
      ensures z in Above(all, y) <==> z in top
    {
      if z !in top && z != y {
        assert z in all - top && Newer(y, z);
      }
    }
    assert Above(all, y) == top;
  }

  /** `Top` is what sorting newest first and keeping `LIMIT n` rows returns. */
  lemma TopIsSortedPrefix(all: set<Stamp>, sorted: seq<Stamp>, n: nat)
    requires forall i, j :: 0 <= i < j < |sorted| ==>
               sorted[i].created > sorted[j].created || (sorted[i].created == sorted[j].created && sorted[i].id > sorted[j].id)
    requires all == Elements(sorted)
    ensures Top(all, n) == if n < |sorted| then Elements(sorted[..n]) else all
  {
    forall k | 0 <= k < |sorted|
      ensures |Above(all, sorted[k])| == k
    {
      assert Above(all, sorted[k]) == Elements(sorted[..k]) by {
        forall x | x in Above(all, sorted[k])
          ensures x in sorted[..k]
        {
          var i :| 0 <= i < |sorted| && sorted[i] == x;
          assert i < k;
        }
      }
      DistinctSize(sorted[..k]);
    }
    var cut := if n < |sorted| then sorted[..n] else sorted;
    forall x | x in all
      ensures x in Top(all, n) <==> x in cut
    {
      var k :| 0 <= k < |sorted| && sorted[k] == x;
      if x in cut {
        var i :| 0 <= i < |cut| && cut[i] == x;
        assert i == k;
      }
      if k < n {
        assert cut[k] == x;
      }
    }
  }

  /** Forgetting what was evicted never matters to later evictions. */
  lemma TopIncremental(all: set<Stamp>, x: Stamp, n: nat)
    ensures Top(Top(all, n) + {x}, n) == Top(all + {x}, n)
  {
    var top := Top(all, n);
    TopSize(all, n);
    if top == all { return; }
    TopFull(all, n);
    forall y | y in all + {x}
      ensures y in Top(top + {x}, n) <==> y in Top(all + {x}, n)
    {
      var small, large := Above(top + {x}, y), Above(all + {x}, y);
      SubsetSize(small, large);
      if y in top {
        forall z | z in large
          ensures z in small
        {
          assert z in all - top ==> Newer(y, z);
        }
        assert small == large;
      } else {
        if y in all {
          SubsetSize(Above(all, y), large);
        }
        if y == x && small != large {
          var z :| z in large && z !in small;
          assert z in all - top;
          assert forall w :: w in top ==> Newer(w, z) && Newer(z, x);
          assert top <= small;
          SubsetSize(top, small);
        }
      }
    }
  }

  /** Being among the newest n means having fewer than n later ones, by creation time and then by id. */
  lemma TopByStamp(all: set<Stamp>, n: nat, x: Stamp)
    requires x in all
    ensures x in Top(all, n) <==>
              |set y | y in all && (y.created > x.created || (y.created == x.created && y.id > x.id))| < n
  {
    assert Above(all, x) == set y | y in all && (y.created > x.created || (y.created == x.created && y.id > x.id));
  }

  // ---------- the same facts on the table ----------

  ghost predicate OfKey(rows: Table, key: KeyId, id: Id) {
    id in rows && rows[id].key == key
  }

  ghost function IdsOf(rows: Table, key: KeyId): (ids: set<Id>)
    ensures forall j :: j in ids <==> OfKey(rows, key, j)
  {
    set j | j in rows && rows[j].key == key
  }

  /**
   after is what an eviction for key may leave of before: rows as they were, all of every other key; of this
   key at most 20, exactly 20 when one is missing, and each created later than each missing one, or at the
   same time with the greater id.
   */
  ghost predicate NewestSurvive(before: Table, after: Table, key: KeyId) {
    && (forall j :: j in after ==> j in before && after[j] == before[j])
    && (forall j :: j in before && before[j].key != key ==> j in after)
    && |IdsOf(after, key)| <= 20
    && (forall j :: OfKey(before, key, j) && j !in after ==> |IdsOf(after, key)| == 20)
    && (forall j, k :: OfKey(before, key, j) && j !in after && OfKey(after, key, k) ==>
          before[k].created > before[j].created || (before[k].created == before[j].created && k > j))
  }

  lemma StampCount(rows: Table, key: KeyId)
    ensures |IdsOf(rows, key)| == |Stamps(rows, key)|
  {
    SameSize(IdsOf(rows, key), Stamps(rows, key), rows);
  }

  lemma {:induction false} SameSize(ids: set<Id>, stamps: set<Stamp>, rows: Table)
    requires forall j :: j in ids ==> j in rows && Stamp(rows[j].created, j) in stamps
    requires forall st :: st in stamps ==> st.id in ids && st.id in rows && rows[st.id].created == st.created
    ensures |ids| == |stamps|
    decreases |ids|
  {
    if ids == {} {
      assert stamps == {} by {
        if st :| st in stamps {
          assert st.id in ids;
        }
      }
    } else {
      var j :| j in ids;
      var st := Stamp(rows[j].created, j);
      SameSize(ids - {j}, stamps - {st}, rows);
    }
  }

  /** The write transaction keeps the newest rows of the key, the new one counted among them. */
  lemma WriteKeepsNewest(rows: Table, id: Id, row: Row)
    ensures NewestSurvive(rows[id := row], Insert(rows, id, row), row.key)
  {
    var before, after, key := rows[id := row], Insert(rows, id, row), row.key;
    var all := Stamps(before, key);
    EvictStamps(before, key);
    TopSize(all, MAX_PER_KEY);
    StampCount(after, key);
    forall j | OfKey(before, key, j) && j !in after
      ensures |Stamps(after, key)| == 20
      ensures Stamp(before[j].created, j) in all - Top(all, MAX_PER_KEY)
    {
      assert Stamp(before[j].created, j) in all && Stamp(before[j].created, j) !in Stamps(after, key);
      TopFull(all, MAX_PER_KEY);
    }
    forall k | OfKey(after, key, k)
      ensures Stamp(before[k].created, k) in Top(all, MAX_PER_KEY)
    {
      assert Stamp(after[k].created, k) in Stamps(after, key);
    }
    forall j, k | OfKey(before, key, j) && j !in after && OfKey(after, key, k)
      ensures before[k].created > before[j].created || (before[k].created == before[j].created && k > j)
    {
      var x, y := Stamp(before[k].created, k), Stamp(before[j].created, j);
      assert x in Top(all, MAX_PER_KEY) && y in all - Top(all, MAX_PER_KEY);
    }
  }

  lemma EvictStamps(rows: Table, key: KeyId)
    ensures Stamps(Evict(rows, key), key) == Top(Stamps(rows, key), MAX_PER_KEY)
    ensures forall other :: other != key ==> Stamps(Evict(rows, key), other) == Stamps(rows, other)
  {
    var after := Evict(rows, key);
    forall st: Stamp
      ensures st in Stamps(after, key) <==> st in Top(Stamps(rows, key), MAX_PER_KEY)
    {
      if st in Top(Stamps(rows, key), MAX_PER_KEY) {
        assert st.id in rows && Survives(rows, key, st.id);
      }
    }
    forall other, st: Stamp | other != key
      ensures st in Stamps(after, other) <==> st in Stamps(rows, other)
    {
      if st in Stamps(rows, other) {
        assert st.id in rows && Survives(rows, key, st.id);
      }
    }
  }

  /** A write leaves its key with the newest rows of old-plus-new, and no other key's row changes. */
  lemma InsertStamps(rows: Table, id: Id, row: Row)
    requires id !in rows
    ensures Stamps(Insert(rows, id, row), row.key)
         == Top(Stamps(rows, row.key) + {Stamp(row.created, id)}, MAX_PER_KEY)
    ensures forall other :: other != row.key ==> Stamps(Insert(rows, id, row), other) == Stamps(rows, other)
    ensures forall j :: j in rows && rows[j].key != row.key ==> j in Insert(rows, id, row) && Insert(rows, id, row)[j] == rows[j]
    ensures forall j :: j in Insert(rows, id, row) ==> (j in rows && Insert(rows, id, row)[j] == rows[j]) || (j == id && Insert(rows, id, row)[j] == row)
  {
    var mid := rows[id := row];
    EvictStamps(mid, row.key);
    forall st: Stamp
      ensures st in Stamps(mid, row.key) <==> st in Stamps(rows, row.key) + {Stamp(row.created, id)}
    {
    }
    assert Stamps(mid, row.key) == Stamps(rows, row.key) + {Stamp(row.created, id)};
    forall other, st: Stamp | other != row.key
      ensures st in Stamps(mid, other) <==> st in Stamps(rows, other)
    {
    }
  }
}
