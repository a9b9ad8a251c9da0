/** Comparing two periods: a full outer join on the joined key tuple, ranked by period-2 clicks and trimmed. */
module Compare {
  import opened Collections
  import opened Metrics
  import opened Rounding
  import opened Sorting
  import opened Wrappers
  import opened Text

  const SEPARATOR := '\U{001F}'
  const DEFAULT_LIMIT: nat := 10

  datatype DataRow = DataRow(keys: seq<string>, clicks: real, impressions: real, ctr: real, position: real)

  datatype Agg = Agg(keys: seq<string>, p1: Option<DataRow>, p2: Option<DataRow>)

  datatype Comparison = Comparison(keys: seq<string>, period1: Totals, period2: Totals,
                                   clicksDelta: real, clicksPct: real, impressionsDelta: real, positionDelta: real)

  // ---------- the join key ----------

  function KeyOf(keys: seq<string>): string {
    Join(keys, [SEPARATOR])
  }

  predicate Plain(keys: seq<string>) {
    forall k :: k in keys ==> SEPARATOR !in k
  }

  function FirstSeparator(s: string): nat {
    if s == "" || s[0] == SEPARATOR then 0 else 1 + FirstSeparator(s[1..])
  }

  lemma {:induction false} SeparatorFound(a: string, x: string)
    requires SEPARATOR !in a
    ensures FirstSeparator(a + [SEPARATOR] + x) == |a|
  {
    if a != "" {
      assert (a + [SEPARATOR] + x)[1..] == a[1..] + [SEPARATOR] + x;
      SeparatorFound(a[1..], x);
    }
  }

  lemma PrefixBeforeSeparator(a: string, x: string, b: string, y: string)
    requires SEPARATOR !in a && SEPARATOR !in b && a + [SEPARATOR] + x == b + [SEPARATOR] + y
    ensures a == b && x == y
  {
    SeparatorFound(a, x);
    SeparatorFound(b, y);
    var s := a + [SEPARATOR] + x;
    assert s[..|a|] == a && s[..|b|] == b;
    assert s[|a| + 1..] == x && s[|b| + 1..] == y;
  }

  /** Tuples of one arity without the separator join to different strings. */
  lemma {:induction false} JoinInjective(a: seq<string>, b: seq<string>)
    requires |a| == |b| && Plain(a) && Plain(b) && KeyOf(a) == KeyOf(b)
    ensures a == b
  {
    if |a| > 1 {
      PrefixBeforeSeparator(a[0], KeyOf(a[1..]), b[0], KeyOf(b[1..]));
      JoinInjective(a[1..], b[1..]);
    } else if |a| == 1 {
      assert a == [a[0]] && b == [b[0]];
    }
  }

  /** A separator inside a value makes two different tuples collide. */
  lemma JoinCollision()
    ensures KeyOf(["a" + [SEPARATOR] + "b", "c"]) == KeyOf(["a", "b" + [SEPARATOR] + "c"])
    ensures ["a" + [SEPARATOR] + "b", "c"] != ["a", "b" + [SEPARATOR] + "c"]
  {
    var x, y := ["a" + [SEPARATOR] + "b", "c"], ["a", "b" + [SEPARATOR] + "c"];
    assert KeyOf(x[1..]) == "c" && KeyOf(y[1..]) == "b" + [SEPARATOR] + "c";
    assert KeyOf(x) == ("a" + [SEPARATOR] + "b") + [SEPARATOR] + "c";
    assert KeyOf(y) == "a" + [SEPARATOR] + ("b" + [SEPARATOR] + "c");
    assert |x[0]| != |y[0]|;
  }

  // ---------- which tuples share their join key with no other ----------

  /** A single value, or values without the separator. */
  predicate Safe(keys: seq<string>) {
    |keys| <= 1 || Plain(keys)
  }

  ghost predicate Alone(keys: seq<string>) {
    forall other :: |other| == |keys| && KeyOf(other) == KeyOf(keys) ==> other == keys
  }

  function Separators(s: string): nat {
    if s == "" then 0 else (if s[0] == SEPARATOR then 1 else 0) + Separators(s[1..])
  }

  function Inside(keys: seq<string>): nat {
    if keys == [] then 0 else Separators(keys[0]) + Inside(keys[1..])
  }

  lemma {:induction false} SeparatorsConcat(a: string, b: string)
    ensures Separators(a + b) == Separators(a) + Separators(b)
  {
    if a == "" {
      assert a + b == b;
    } else {
      assert (a + b)[1..] == a[1..] + b;
      SeparatorsConcat(a[1..], b);
    }
  }

  lemma {:induction false} NoSeparators(s: string)
    ensures Separators(s) == 0 <==> SEPARATOR !in s
  {
    if s != "" {
      NoSeparators(s[1..]);
      assert s == [s[0]] + s[1..];
    }
  }

  lemma {:induction false} PlainInside(keys: seq<string>)
    ensures Inside(keys) == 0 <==> Plain(keys)
  {
    if keys != [] {
      NoSeparators(keys[0]);
      PlainInside(keys[1..]);
      assert keys == [keys[0]] + keys[1..];
    }
  }

  /** A join key holds the separators of its values and one between each two. */
  lemma {:induction false} JoinSeparators(keys: seq<string>)
    requires keys != []
    ensures Separators(KeyOf(keys)) == |keys| - 1 + Inside(keys)
  {
    if |keys| > 1 {
      JoinSeparators(keys[1..]);
      SeparatorsConcat(keys[0] + [SEPARATOR], KeyOf(keys[1..]));
      SeparatorsConcat(keys[0], [SEPARATOR]);
    }
  }

  lemma SafeAlone(keys: seq<string>, other: seq<string>)
    requires Safe(keys) && |other| == |keys| && KeyOf(other) == KeyOf(keys)
    ensures other == keys
  {
    if |keys| == 1 {
      assert keys == [keys[0]] && other == [other[0]];
    } else if |keys| > 1 {
      JoinSeparators(keys);
      JoinSeparators(other);
      PlainInside(keys);
      PlainInside(other);
      JoinInjective(keys, other);
    }
  }

  /** Two neighbours may trade text across the separator between them. */
  lemma {:induction false} JoinPair(front: seq<string>, u: string, v: string, back: seq<string>, x: string, y: string)
    requires u + [SEPARATOR] + v == x + [SEPARATOR] + y
    ensures KeyOf(front + [u, v] + back) == KeyOf(front + [x, y] + back)
  {
    if front == [] {
      PairFirst(u, v, back);
      PairFirst(x, y, back);
      assert front + [u, v] + back == [u, v] + back && front + [x, y] + back == [x, y] + back;
    } else {
      JoinPair(front[1..], u, v, back, x, y);
      assert (front + [u, v] + back)[1..] == front[1..] + [u, v] + back;
      assert (front + [x, y] + back)[1..] == front[1..] + [x, y] + back;
    }
  }

  lemma PairFirst(u: string, v: string, back: seq<string>)
    ensures KeyOf([u, v] + back) == (u + [SEPARATOR] + v) + if back == [] then "" else [SEPARATOR] + KeyOf(back)
  {
    assert ([u, v] + back)[1..] == [v] + back && ([v] + back)[1..] == back;
    if back == [] {
      assert [v] + back == [v] && KeyOf([v]) == v;
    } else {
      var rest := KeyOf(back);
      assert KeyOf([v] + back) == v + [SEPARATOR] + rest;
      assert u + [SEPARATOR] + (v + [SEPARATOR] + rest) == (u + [SEPARATOR] + v) + ([SEPARATOR] + rest);
    }
  }

  lemma {:induction false} SeparatorAt(s: string)
    requires SEPARATOR in s
    ensures FirstSeparator(s) < |s| && s[FirstSeparator(s)] == SEPARATOR
  {
    if s[0] != SEPARATOR {
      assert s == [s[0]] + s[1..];
      SeparatorAt(s[1..]);
    }
  }

  lemma Collides(keys: seq<string>) returns (other: seq<string>)
    requires !Safe(keys)
    ensures |other| == |keys| && KeyOf(other) == KeyOf(keys) && other != keys
  {
    var i :| 0 <= i < |keys| && SEPARATOR in keys[i];
    SeparatorAt(keys[i]);
    var at := FirstSeparator(keys[i]);
    var x, y := keys[i][..at], keys[i][at + 1..];
    assert keys[i] == x + [SEPARATOR] + y;
    if i + 1 < |keys| {
      var front, back := keys[..i], keys[i + 2..];
      other := front + [x, y + [SEPARATOR] + keys[i + 1]] + back;
      JoinPair(front, keys[i], keys[i + 1], back, x, y + [SEPARATOR] + keys[i + 1]);
      assert keys == front + [keys[i], keys[i + 1]] + back;
      assert other[i] == x;
    } else {
      var front, back := keys[..i - 1], keys[i + 1..];
      other := front + [keys[i - 1] + [SEPARATOR] + x, y] + back;
      JoinPair(front, keys[i - 1], keys[i], back, keys[i - 1] + [SEPARATOR] + x, y);
      assert keys == front + [keys[i - 1], keys[i]] + back;
      assert other[i] == y;
    }
  }

  /** A tuple shares its join key with no other of its arity exactly when it is one value or holds no separator. */
  lemma JoinAloneExactly(keys: seq<string>)
    ensures Alone(keys) <==> Safe(keys)
  {
    if Safe(keys) {
      forall other | |other| == |keys| && KeyOf(other) == KeyOf(keys)
        ensures other == keys
      {
        SafeAlone(keys, other);
      }
    } else {
      var other := Collides(keys);
    }
  }

  // ---------- the join, in the order the loops build it ----------

  function Baseline(rows1: seq<DataRow>): map<string, Agg> {
    if rows1 == [] then map[]
    else
      var r := rows1[|rows1| - 1];
      Baseline(rows1[..|rows1| - 1])[KeyOf(r.keys) := Agg(r.keys, Some(r), None)]
  }

  function AddRow(m: map<string, Agg>, r: DataRow): map<string, Agg> {
    var k := KeyOf(r.keys);
    if k in m then m[k := m[k].(p2 := Some(r))] else m[k := Agg(r.keys, None, Some(r))]
  }

  function AddRows(m: map<string, Agg>, rows2: seq<DataRow>): map<string, Agg> {
    if rows2 == [] then m else AddRow(AddRows(m, rows2[..|rows2| - 1]), rows2[|rows2| - 1])
  }

  function RowTotals(r: Option<DataRow>): Totals {
    match r
    case None => Totals(0.0, 0.0, 0.0, 0.0)
    case Some(r) => Totals(r.clicks, r.impressions, Round2(r.ctr * 100.0), Round2(r.position))
  }

  function Compared(keys: seq<string>, r1: Option<DataRow>, r2: Option<DataRow>): Comparison {
    var p1, p2 := RowTotals(r1), RowTotals(r2);
    Comparison(keys, p1, p2, Round2(p2.clicks - p1.clicks), Round2(PctChange(p1.clicks, p2.clicks)),
               Round2(p2.impressions - p1.impressions), Round2(p2.position - p1.position))
  }

  // ---------- the same join, stated on the rows ----------

  /** The period's row for a joined key: the last one, as the loops overwrite. */
  function Lookup(rows: seq<DataRow>, k: string): Option<DataRow> {
    if rows == [] then None
    else if KeyOf(rows[|rows| - 1].keys) == k then Some(rows[|rows| - 1])
    else Lookup(rows[..|rows| - 1], k)
  }

  ghost predicate JoinsTo(rows1: seq<DataRow>, rows2: seq<DataRow>, m: map<string, Agg>) {
    forall k :: && (k in m <==> Lookup(rows1, k).Some? || Lookup(rows2, k).Some?)
                && (k in m ==> (
                      && m[k].p1 == Lookup(rows1, k) && m[k].p2 == Lookup(rows2, k)
                      && Some(m[k].keys) == TupleFor(rows1, rows2, k)))
  }

  /** The tuple of the first row with a joined key. */
  function FirstTuple(rows: seq<DataRow>, k: string): Option<seq<string>> {
    if rows == [] then None
    else
      var n := |rows| - 1;
      if FirstTuple(rows[..n], k).Some? then FirstTuple(rows[..n], k)
      else if KeyOf(rows[n].keys) == k then Some(rows[n].keys)
      else None
  }

  /** The tuple shown for a joined key: that of period 1 where it has one. */
  function TupleFor(rows1: seq<DataRow>, rows2: seq<DataRow>, k: string): Option<seq<string>> {
    match Lookup(rows1, k)
    case Some(r) => Some(r.keys)
    case None => FirstTuple(rows2, k)
  }

  lemma {:induction false} LookupRow(rows: seq<DataRow>, k: string)
    ensures Lookup(rows, k).Some? ==> Lookup(rows, k).value in rows && KeyOf(Lookup(rows, k).value.keys) == k
    ensures Lookup(rows, k).None? ==> forall r :: r in rows ==> KeyOf(r.keys) != k
  {
    if rows != [] {
      LookupRow(rows[..|rows| - 1], k);
      assert rows == rows[..|rows| - 1] + [rows[|rows| - 1]];
    }
  }

  lemma {:induction false} FirstTupleRow(rows: seq<DataRow>, k: string)
    ensures FirstTuple(rows, k).Some? <==> Lookup(rows, k).Some?
    ensures FirstTuple(rows, k).Some? ==>
              KeyOf(FirstTuple(rows, k).value) == k && exists r :: r in rows && r.keys == FirstTuple(rows, k).value
  {
    if rows != [] {
      FirstTupleRow(rows[..|rows| - 1], k);
      assert forall r :: r in rows[..|rows| - 1] ==> r in rows;
      assert rows[|rows| - 1] in rows;
    }
  }

  lemma SameFound(rows: seq<DataRow>)
    ensures forall k :: FirstTuple(rows, k).Some? <==> Lookup(rows, k).Some?
  {
    forall k
      ensures FirstTuple(rows, k).Some? <==> Lookup(rows, k).Some?
    {
      FirstTupleRow(rows, k);
    }
  }

  lemma TupleForRow(rows1: seq<DataRow>, rows2: seq<DataRow>, k: string)
    ensures TupleFor(rows1, rows2, k).Some? <==> Lookup(rows1, k).Some? || Lookup(rows2, k).Some?
    ensures TupleFor(rows1, rows2, k).Some? ==>
              KeyOf(TupleFor(rows1, rows2, k).value) == k && Tuple(rows1, rows2, TupleFor(rows1, rows2, k).value)
  {
    LookupRow(rows1, k);
    FirstTupleRow(rows2, k);
  }

  /** The tuple of some row of either period. */
  ghost predicate Tuple(rows1: seq<DataRow>, rows2: seq<DataRow>, keys: seq<string>) {
    (exists r :: r in rows1 && r.keys == keys) || (exists r :: r in rows2 && r.keys == keys)
  }

  lemma {:induction false} BaselineJoins(rows1: seq<DataRow>)
    ensures JoinsTo(rows1, [], Baseline(rows1))
  {
    if rows1 != [] {
      BaselineJoins(rows1[..|rows1| - 1]);
    }
  }

  /** The two loops compute the full outer join on the joined key, whatever rows they are given. */
  lemma {:induction false} LoopsJoin(rows1: seq<DataRow>, rows2: seq<DataRow>)
    ensures JoinsTo(rows1, rows2, AddRows(Baseline(rows1), rows2))
  {
    if rows2 == [] {
      BaselineJoins(rows1);
    } else {
      LoopsJoin(rows1, rows2[..|rows2| - 1]);
      SameFound(rows2[..|rows2| - 1]);
    }
  }

  ghost predicate Has(comps: seq<Comparison>, k: string) {
    exists c :: c in comps && KeyOf(c.keys) == k
  }

  /** c sets against each other what the periods hold under its join key. */
  predicate FromRows(rows1: seq<DataRow>, rows2: seq<DataRow>, c: Comparison) {
    var k := KeyOf(c.keys);
    Some(c.keys) == TupleFor(rows1, rows2, k) && c == Compared(c.keys, Lookup(rows1, k), Lookup(rows2, k))
  }

  /** One comparison per joined key of either period, in any order. */
  ghost predicate IsComparison(rows1: seq<DataRow>, rows2: seq<DataRow>, comps: seq<Comparison>) {
    && (forall c :: c in comps ==> FromRows(rows1, rows2, c))
    && (forall k {:trigger Has(comps, k)} :: Lookup(rows1, k).Some? || Lookup(rows2, k).Some? ==> Has(comps, k))
    && (forall i, j :: 0 <= i < j < |comps| ==> KeyOf(comps[i].keys) != KeyOf(comps[j].keys))
  }

  function ByClicks(): Comparison -> real {
    (c: Comparison) => c.period2.clicks
  }

  /** What a request for at most `limit` rows returns of the ranked comparisons. */
  function Kept(comps: seq<Comparison>, limit: int): seq<Comparison> {
    var n := if limit <= 0 then DEFAULT_LIMIT else limit;
    if |comps| > n then comps[..n] else comps
  }

  method ComparePeriods(rows1: seq<DataRow>, rows2: seq<DataRow>, limit: int)
    returns (kept: seq<Comparison>)
    ensures exists all :: IsComparison(rows1, rows2, all) && Descending(all, ByClicks()) && kept == Kept(all, limit)
    ensures KeepsTop(rows1, rows2, limit, kept)
    ensures forall i, j :: 0 <= i < j < |kept| ==> kept[i].period2.clicks >= kept[j].period2.clicks
  {
    var byKey: map<string, Agg> := map[];
    for i := 0 to |rows1|
      invariant byKey == Baseline(rows1[..i])
    {
      assert rows1[..i + 1][..i] == rows1[..i];
      byKey := byKey[KeyOf(rows1[i].keys) := Agg(rows1[i].keys, Some(rows1[i]), None)];
    }
    assert rows1[..|rows1|] == rows1;
    for i := 0 to |rows2|
      invariant byKey == AddRows(Baseline(rows1), rows2[..i])
    {
      assert rows2[..i + 1][..i] == rows2[..i];
      var k := KeyOf(rows2[i].keys);
      if k in byKey {
        byKey := byKey[k := byKey[k].(p2 := Some(rows2[i]))];
      } else {
        byKey := byKey[k := Agg(rows2[i].keys, None, Some(rows2[i]))];
      }
    }
    assert rows2[..|rows2|] == rows2;
    LoopsJoin(rows1, rows2);
    JoinedNames(rows1, rows2, byKey);
    var rows := Collect(byKey);
    CollectedJoin(rows1, rows2, byKey, rows);
    var comps := new Comparison[|rows|](i requires 0 <= i < |rows| => rows[i]);
    assert comps[..] == rows;
    ghost var unsorted := comps[..];
    InsertionSort(comps, ByClicks());
    ghost var all := comps[..];
    SortedComparison(rows1, rows2, unsorted, all);
    TrimKeepsTop(rows1, rows2, limit, all);
    var n := if limit <= 0 then DEFAULT_LIMIT else limit;
    kept := if comps.Length > n then comps[..n] else comps[..];
    assert forall i, j :: 0 <= i < j < |all| ==> ByClicks()(all[i]) >= ByClicks()(all[j]);
  }

  lemma SortedComparison(rows1: seq<DataRow>, rows2: seq<DataRow>, unsorted: seq<Comparison>, all: seq<Comparison>)
    requires IsComparison(rows1, rows2, unsorted) && multiset(all) == multiset(unsorted)
    ensures IsComparison(rows1, rows2, all)
  {
    PermutedElements(unsorted, all);
    PermutedDistinct(unsorted, all);
    forall k | Has(unsorted, k)
      ensures Has(all, k)
    {
      var c :| c in unsorted && KeyOf(c.keys) == k;
      assert c in all;
    }
    forall i, j | 0 <= i < j < |all|
      ensures KeyOf(all[i].keys) != KeyOf(all[j].keys)
    {
      assert all[i] in unsorted && all[j] in unsorted;
    }
  }

  /** out compares exactly the entries of byKey under the keys `done`, each once. */
  ghost predicate Collected(byKey: map<string, Agg>, done: set<string>, out: seq<Comparison>) {
    && done <= byKey.Keys
    && (forall c :: c in out ==> KeyOf(c.keys) in done && c == EntryRow(byKey, KeyOf(c.keys)))
    && (forall k :: k in done ==> EntryRow(byKey, k) in out)
    && (forall i, j :: 0 <= i < j < |out| ==> KeyOf(out[i].keys) != KeyOf(out[j].keys))
  }

  function EntryRow(byKey: map<string, Agg>, k: string): Comparison
    requires k in byKey
  {
    Compared(byKey[k].keys, byKey[k].p1, byKey[k].p2)
  }

  /** The range over the map, every entry once, in an arbitrary order. */
  method Collect(byKey: map<string, Agg>) returns (out: seq<Comparison>)
    requires forall k :: k in byKey ==> KeyOf(byKey[k].keys) == k
    ensures Collected(byKey, byKey.Keys, out)
  {
    out := [];
    var left := byKey.Keys;
    while left != {}
      invariant left <= byKey.Keys
      invariant Collected(byKey, byKey.Keys - left, out)
      decreases |left|
    {
      var k :| k in left;
      CollectOne(byKey, byKey.Keys - left, out, k);
      out := out + [EntryRow(byKey, k)];
      assert byKey.Keys - (left - {k}) == byKey.Keys - left + {k};
      left := left - {k};
    }
    assert byKey.Keys - left == byKey.Keys;
  }

  lemma CollectOne(byKey: map<string, Agg>, done: set<string>, out: seq<Comparison>, k: string)
    requires Collected(byKey, done, out) && k in byKey && k !in done && KeyOf(byKey[k].keys) == k
    ensures Collected(byKey, done + {k}, out + [EntryRow(byKey, k)])
  {
    var row := EntryRow(byKey, k);
    assert forall c :: c in out + [row] <==> c in out || c == row;
    assert forall i :: 0 <= i < |out| ==> out[i] in out;
  }

  lemma CollectedJoin(rows1: seq<DataRow>, rows2: seq<DataRow>, byKey: map<string, Agg>, out: seq<Comparison>)
    requires JoinsTo(rows1, rows2, byKey) && Collected(byKey, byKey.Keys, out)
    ensures IsComparison(rows1, rows2, out)
  {
    JoinedNames(rows1, rows2, byKey);
    forall k | k in byKey
      ensures Has(out, k)
    {
      assert EntryRow(byKey, k) in out && KeyOf(EntryRow(byKey, k).keys) == k;
    }
    forall c | c in out
      ensures FromRows(rows1, rows2, c)
    {
      assert c == EntryRow(byKey, KeyOf(c.keys));
    }
  }

  lemma JoinedNames(rows1: seq<DataRow>, rows2: seq<DataRow>, byKey: map<string, Agg>)
    requires JoinsTo(rows1, rows2, byKey)
    ensures forall k :: k in byKey ==> KeyOf(byKey[k].keys) == k
  {
    forall k | k in byKey
      ensures KeyOf(byKey[k].keys) == k
    {
      TupleForRow(rows1, rows2, k);
    }
  }

  function JoinKeys(rows: seq<DataRow>): set<string> {
    set r | r in rows :: KeyOf(r.keys)
  }

  /**
   kept holds as many rows as there are join keys, up to the limit, and no join key left out has more
   period-2 clicks than a row kept.
   */
  ghost predicate KeepsTop(rows1: seq<DataRow>, rows2: seq<DataRow>, limit: int, kept: seq<Comparison>) {
    var n, keys := if limit <= 0 then 10 else limit, JoinKeys(rows1) + JoinKeys(rows2);
    && |kept| == (if |keys| > n then n else |keys|)
    && forall k, c :: k in keys && !Has(kept, k) && c in kept ==> ClicksAt(rows2, k) <= c.period2.clicks
  }

  lemma LookupKeys(rows: seq<DataRow>, k: string)
    ensures Lookup(rows, k).Some? <==> k in JoinKeys(rows)
  {
    LookupRow(rows, k);
  }

  lemma ComparedKeyCount(rows1: seq<DataRow>, rows2: seq<DataRow>, all: seq<Comparison>)
    requires IsComparison(rows1, rows2, all)
    ensures |all| == |JoinKeys(rows1) + JoinKeys(rows2)|
  {
    var ks, keys := ComparedKeys(all), JoinKeys(rows1) + JoinKeys(rows2);
    DistinctSize(ks);
    forall k
      ensures k in ks <==> k in keys
    {
      LookupKeys(rows1, k);
      LookupKeys(rows2, k);
      TupleForRow(rows1, rows2, k);
      if k in keys {
        assert Has(all, k);
        var i :| 0 <= i < |all| && KeyOf(all[i].keys) == k;
        assert ks[i] == k;
      }
      if k in ks {
        var i :| 0 <= i < |all| && ks[i] == k;
        assert all[i] in all;
      }
    }
    assert Elements(ks) == keys;
  }

  /** What the trim keeps, in terms of the rows of the two periods. */
  lemma TrimKeepsTop(rows1: seq<DataRow>, rows2: seq<DataRow>, limit: int, all: seq<Comparison>)
    requires IsComparison(rows1, rows2, all) && Descending(all, ByClicks())
    ensures KeepsTop(rows1, rows2, limit, Kept(all, limit))
  {
    var kept := Kept(all, limit);
    ComparedKeyCount(rows1, rows2, all);
    forall k, c | k in JoinKeys(rows1) + JoinKeys(rows2) && !Has(kept, k) && c in kept
      ensures ClicksAt(rows2, k) <= c.period2.clicks
    {
      LookupKeys(rows1, k);
      LookupKeys(rows2, k);
      assert Has(all, k);
      var j :| 0 <= j < |all| && KeyOf(all[j].keys) == k;
      var i :| 0 <= i < |kept| && kept[i] == c;
      KeptHas(all, limit, j);
      assert ByClicks()(all[i]) >= ByClicks()(all[j]);
      assert all[j] in all;
    }
  }

  lemma KeptHas(all: seq<Comparison>, limit: int, j: nat)
    requires j < |all|
    ensures j < |Kept(all, limit)| ==> Has(Kept(all, limit), KeyOf(all[j].keys))
  {
    assert j < |Kept(all, limit)| ==> Kept(all, limit)[j] in Kept(all, limit);
  }

  // ---------- a join on tuples ----------

  /** Rows as the API returns them for one list of dimensions: one arity, one row per tuple. */
  ghost predicate Clean(rows: seq<DataRow>, arity: nat) {
    HasArity(rows, arity) && forall i, j :: 0 <= i < j < |rows| ==> rows[i].keys != rows[j].keys
  }

  ghost predicate HasArity(rows: seq<DataRow>, arity: nat) {
    forall r :: r in rows ==> |r.keys| == arity
  }

  /** Among rows of one arity, a safe tuple is looked up under its own rows only. */
  lemma LookupSafe(rows: seq<DataRow>, keys: seq<string>)
    requires HasArity(rows, |keys|) && Safe(keys)
    ensures Lookup(rows, KeyOf(keys)).Some? <==> exists r :: r in rows && r.keys == keys
    ensures Lookup(rows, KeyOf(keys)).Some? ==> Lookup(rows, KeyOf(keys)).value in rows && Lookup(rows, KeyOf(keys)).value.keys == keys
  {
    LookupRow(rows, KeyOf(keys));
    if Lookup(rows, KeyOf(keys)).Some? {
      SafeAlone(keys, Lookup(rows, KeyOf(keys)).value.keys);
    }
  }

  lemma OneRow(rows: seq<DataRow>, arity: nat, r: DataRow, s: DataRow)
    requires Clean(rows, arity) && r in rows && s in rows && r.keys == s.keys
    ensures r == s
  {
    var i :| 0 <= i < |rows| && rows[i] == r;
    var j :| 0 <= j < |rows| && rows[j] == s;
    assert !(i < j) && !(j < i);
  }

  /**
   Full outer join, every row: a compared tuple that is safe is set against its own row in each period,
   or against zeros where a period has none.
   */
  lemma ComparedRow(rows1: seq<DataRow>, rows2: seq<DataRow>, all: seq<Comparison>, c: Comparison)
    requires IsComparison(rows1, rows2, all) && c in all && Safe(c.keys)
    requires Clean(rows1, |c.keys|) && Clean(rows2, |c.keys|)
    ensures Tuple(rows1, rows2, c.keys)
    ensures forall r :: r in rows1 && r.keys == c.keys ==>
              c.period1 == Totals(r.clicks, r.impressions, Round2(r.ctr * 100.0), Round2(r.position))
    ensures forall r :: r in rows2 && r.keys == c.keys ==>
              c.period2 == Totals(r.clicks, r.impressions, Round2(r.ctr * 100.0), Round2(r.position))
    ensures (forall r :: r in rows1 ==> r.keys != c.keys) ==> c.period1 == Totals(0.0, 0.0, 0.0, 0.0)
    ensures (forall r :: r in rows2 ==> r.keys != c.keys) ==> c.period2 == Totals(0.0, 0.0, 0.0, 0.0)
  {
    assert FromRows(rows1, rows2, c);
    TupleForRow(rows1, rows2, KeyOf(c.keys));
    RowOf(rows1, c.keys);
    RowOf(rows2, c.keys);
  }

  /** pct is the change from a to b in percent of a. */
  predicate IsChange(pct: real, a: real, b: real) {
    pct * a == 100.0 * (b - a)
  }

  /** The four changes of a compared tuple, from the figures of its two periods. */
  ghost predicate ShowsChanges(c: Comparison) {
    var p1, p2 := c.period1, c.period2;
    && c.clicksDelta == Round2(p2.clicks - p1.clicks)
    && c.impressionsDelta == Round2(p2.impressions - p1.impressions)
    && c.positionDelta == Round2(p2.position - p1.position)
    && (p1.clicks != 0.0 ==> exists pct :: IsChange(pct, p1.clicks, p2.clicks) && c.clicksPct == Round2(pct))
    && (p1.clicks == 0.0 ==> c.clicksPct == if p2.clicks == 0.0 then 0.0 else 100.0)
  }

  lemma ComparedChanges(rows1: seq<DataRow>, rows2: seq<DataRow>, all: seq<Comparison>, c: Comparison)
    requires IsComparison(rows1, rows2, all) && c in all
    ensures ShowsChanges(c)
  {
    var k := KeyOf(c.keys);
    assert FromRows(rows1, rows2, c);
    ComparedShows(c.keys, Lookup(rows1, k), Lookup(rows2, k));
  }

  lemma ComparedShows(keys: seq<string>, r1: Option<DataRow>, r2: Option<DataRow>)
    ensures ShowsChanges(Compared(keys, r1, r2))
  {
    var p1, p2 := RowTotals(r1), RowTotals(r2);
    ChangeOf(p1.clicks, p2.clicks);
  }

  lemma ChangeOf(a: real, b: real)
    ensures a != 0.0 ==> IsChange(PctChange(a, b), a, b)
    ensures a == 0.0 ==> Round2(PctChange(a, b)) == if b == 0.0 then 0.0 else 100.0
  {
    Round2Whole(0);
    Round2Whole(10000);
    if a != 0.0 {
      ShareOf(b - a, a);
    }
  }

  lemma ShareOf(part: real, whole: real)
    requires whole != 0.0
    ensures (part / whole * 100.0) * whole == 100.0 * part
  {
    var q := part / whole;
    assert q * whole == part;
    assert (q * 100.0) * whole == 100.0 * (q * whole);
  }

  lemma RowOf(rows: seq<DataRow>, keys: seq<string>)
    requires Clean(rows, |keys|) && Safe(keys)
    ensures forall r :: r in rows && r.keys == keys ==> Lookup(rows, KeyOf(keys)) == Some(r)
    ensures (forall r :: r in rows ==> r.keys != keys) ==> Lookup(rows, KeyOf(keys)) == None
  {
    LookupSafe(rows, keys);
    forall r | r in rows && r.keys == keys
      ensures Lookup(rows, KeyOf(keys)) == Some(r)
    {
      OneRow(rows, |keys|, r, Lookup(rows, KeyOf(keys)).value);
    }
  }

  ghost predicate ComparedOnce(all: seq<Comparison>, keys: seq<string>) {
    exists i :: 0 <= i < |all| && all[i].keys == keys && forall j :: 0 <= j < |all| && all[j].keys == keys ==> j == i
  }

  /** Full outer join, every tuple: each safe tuple of either period is compared exactly once. */
  lemma EveryTupleOnce(rows1: seq<DataRow>, rows2: seq<DataRow>, all: seq<Comparison>, keys: seq<string>)
    requires HasArity(rows1, |keys|) && HasArity(rows2, |keys|) && Safe(keys)
    requires IsComparison(rows1, rows2, all) && Tuple(rows1, rows2, keys)
    ensures ComparedOnce(all, keys)
  {
    LookupSafe(rows1, keys);
    LookupSafe(rows2, keys);
    assert Has(all, KeyOf(keys));
    var i :| 0 <= i < |all| && KeyOf(all[i].keys) == KeyOf(keys);
    assert all[i] in all && FromRows(rows1, rows2, all[i]);
    TupleForRow(rows1, rows2, KeyOf(all[i].keys));
    SafeAlone(keys, all[i].keys);
    assert forall j :: 0 <= j < |all| && all[j].keys == keys ==> !(j < i) && !(i < j);
  }

  /** Whatever rows of its arity it comes among, the tuple is compared, and once. */
  ghost predicate NeverMerged(keys: seq<string>) {
    forall rows1, rows2, all ::
      HasArity(rows1, |keys|) && HasArity(rows2, |keys|) && Tuple(rows1, rows2, keys) && IsComparison(rows1, rows2, all) ==>
        ComparedOnce(all, keys)
  }

  lemma MergedAway(keys: seq<string>, other: seq<string>) returns (rows1: seq<DataRow>, rows2: seq<DataRow>, all: seq<Comparison>)
    requires |other| == |keys| && KeyOf(other) == KeyOf(keys) && other != keys
    ensures HasArity(rows1, |keys|) && HasArity(rows2, |keys|) && Tuple(rows1, rows2, keys)
    ensures IsComparison(rows1, rows2, all) && !ComparedOnce(all, keys)
  {
    var r1, r2 := DataRow(other, 0.0, 0.0, 0.0, 0.0), DataRow(keys, 0.0, 0.0, 0.0, 0.0);
    rows1, rows2 := [r1], [r2];
    all := [Compared(other, Some(r1), Some(r2))];
    assert r2 in rows2;
    assert rows1[..0] == [] && rows2[..0] == [];
    forall k
      ensures Lookup(rows1, k) == (if k == KeyOf(keys) then Some(r1) else None)
      ensures Lookup(rows2, k) == (if k == KeyOf(keys) then Some(r2) else None)
    {
    }
    assert FromRows(rows1, rows2, all[0]);
    assert all[0] in all && KeyOf(all[0].keys) == KeyOf(keys);
  }

  /** A tuple is never merged into another exactly when it is one value or holds no separator. */
  lemma NeverMergedExactly(keys: seq<string>)
    ensures NeverMerged(keys) <==> Safe(keys)
  {
    if Safe(keys) {
      forall rows1, rows2, all | HasArity(rows1, |keys|) && HasArity(rows2, |keys|) && Tuple(rows1, rows2, keys)
                                 && IsComparison(rows1, rows2, all)
        ensures ComparedOnce(all, keys)
      {
        EveryTupleOnce(rows1, rows2, all, keys);
      }
    } else {
      var other := Collides(keys);
      var rows1, rows2, all := MergedAway(keys, other);
    }
  }

  // ---------- conservation of clicks ----------

  predicate DistinctJoined(rows: seq<DataRow>) {
    forall i, j :: 0 <= i < j < |rows| ==> KeyOf(rows[i].keys) != KeyOf(rows[j].keys)
  }

  /** Rows the API returns for safe tuples have distinct join keys. */
  lemma CleanDistinct(rows: seq<DataRow>, arity: nat)
    requires Clean(rows, arity) && forall r :: r in rows ==> Safe(r.keys)
    ensures DistinctJoined(rows)
  {
    forall i, j | 0 <= i < j < |rows|
      ensures KeyOf(rows[i].keys) != KeyOf(rows[j].keys)
    {
      assert rows[i] in rows && rows[j] in rows;
      if KeyOf(rows[i].keys) == KeyOf(rows[j].keys) {
        SafeAlone(rows[i].keys, rows[j].keys);
      }
    }
  }

  function Clicks(rows: seq<DataRow>): real {
    if rows == [] then 0.0 else Clicks(rows[..|rows| - 1]) + rows[|rows| - 1].clicks
  }

  function DeltaSum(comps: seq<Comparison>): real {
    if comps == [] then 0.0 else DeltaSum(comps[..|comps| - 1]) + comps[|comps| - 1].clicksDelta
  }

  /** Both sums add up over the parts of a sequence, an element at a time. */
  lemma {:induction false} SumsAdd(rows: seq<DataRow>, row: DataRow, comps: seq<Comparison>, c: Comparison)
    ensures Clicks([]) == 0.0 && Clicks(rows + [row]) == Clicks(rows) + row.clicks
    ensures DeltaSum([]) == 0.0 && DeltaSum(comps + [c]) == DeltaSum(comps) + c.clicksDelta
  {
    assert (rows + [row])[..|rows|] == rows && (comps + [c])[..|comps|] == comps;
  }

  function ClicksAt(rows: seq<DataRow>, k: string): real {
    RowTotals(Lookup(rows, k)).clicks
  }

  function SumAt(rows: seq<DataRow>, ks: seq<string>): real {
    if ks == [] then 0.0 else SumAt(rows, ks[..|ks| - 1]) + ClicksAt(rows, ks[|ks| - 1])
  }

  function JoinedKeys(rows: seq<DataRow>): seq<string> {
    seq(|rows|, i requires 0 <= i < |rows| => KeyOf(rows[i].keys))
  }

  lemma {:induction false} SumAtRemove(rows: seq<DataRow>, ks: seq<string>, i: nat)
    requires i < |ks|
    ensures SumAt(rows, ks) == SumAt(rows, ks[..i] + ks[i + 1..]) + ClicksAt(rows, ks[i])
  {
    var n := |ks| - 1;
    if i < n {
      SumAtRemove(rows, ks[..n], i);
      assert ks[..n][..i] == ks[..i];
      assert (ks[..i] + ks[i + 1..])[..n - 1] == ks[..i] + ks[..n][i + 1..];
    } else {
      assert ks[..i] + ks[i + 1..] == ks[..n];
    }
  }

  predicate Distinct<T(==)>(s: seq<T>) {
    forall i, j :: 0 <= i < j < |s| ==> s[i] != s[j]
  }

  /** ks lists the keys of base and otherwise only keys without a row. */
  predicate Covers(rows: seq<DataRow>, ks: seq<string>, base: seq<string>) {
    && Distinct(ks) && Distinct(base)
    && (forall k :: k in base ==> k in ks)
    && (forall k :: k in ks && k !in base ==> Lookup(rows, k).None?)
  }

  lemma CoverDrop(rows: seq<DataRow>, ks: seq<string>, base: seq<string>, i: nat)
    requires Covers(rows, ks, base) && ks != [] && i < |base| && base[i] == ks[|ks| - 1]
    ensures Covers(rows, ks[..|ks| - 1], base[..i] + base[i + 1..])
  {
    var n := |ks| - 1;
    var rest := base[..i] + base[i + 1..];
    forall k | k in rest
      ensures k in ks[..n]
    {
      var j :| 0 <= j < |rest| && rest[j] == k;
      assert k == base[if j < i then j else j + 1] && k != ks[n] && k in base;
      var m :| 0 <= m < |ks| && ks[m] == k;
      assert ks[..n][m] == k;
    }
    assert forall k :: k in base ==> k == ks[n] || k in rest;
    assert forall k :: k in ks[..n] ==> k in ks && k != ks[n];
  }

  lemma CoverSkip(rows: seq<DataRow>, ks: seq<string>, base: seq<string>)
    requires Covers(rows, ks, base) && ks != [] && ks[|ks| - 1] !in base
    ensures Covers(rows, ks[..|ks| - 1], base)
  {
    assert forall k :: k in ks ==> k == ks[|ks| - 1] || k in ks[..|ks| - 1];
  }

  lemma CoverNone(rows: seq<DataRow>, base: seq<string>)
    ensures Covers(rows, [], base) ==> base == []
  {
    assert base == [] || base[0] in base;
  }

  /** Keys without a row add nothing, and order does not matter. */
  lemma {:induction false} SumAtCover(rows: seq<DataRow>, ks: seq<string>, base: seq<string>)
    requires Covers(rows, ks, base)
    ensures SumAt(rows, ks) == SumAt(rows, base)
  {
    if ks == [] {
      CoverNone(rows, base);
    } else {
      var last := ks[|ks| - 1];
      if last in base {
        var i :| 0 <= i < |base| && base[i] == last;
        SumAtRemove(rows, base, i);
        CoverDrop(rows, ks, base, i);
        SumAtCover(rows, ks[..|ks| - 1], base[..i] + base[i + 1..]);
      } else {
        CoverSkip(rows, ks, base);
        SumAtCover(rows, ks[..|ks| - 1], base);
      }
    }
  }

  lemma {:induction false} LookupOwn(rows: seq<DataRow>, i: nat)
    requires DistinctJoined(rows) && i < |rows|
    ensures Lookup(rows, KeyOf(rows[i].keys)) == Some(rows[i])
  {
    if i < |rows| - 1 {
      LookupOwn(rows[..|rows| - 1], i);
    }
  }

  lemma {:induction false} LookupMiss(rows: seq<DataRow>, k: string)
    requires k !in JoinedKeys(rows)
    ensures Lookup(rows, k).None?
  {
    if rows != [] {
      var n := |rows| - 1;
      assert JoinedKeys(rows)[n] == KeyOf(rows[n].keys);
      assert forall i :: 0 <= i < n ==> JoinedKeys(rows[..n])[i] == JoinedKeys(rows)[i];
      LookupMiss(rows[..n], k);
    }
  }

  lemma {:induction false} SumAtOwn(rows: seq<DataRow>, n: nat)
    requires DistinctJoined(rows) && n <= |rows|
    ensures SumAt(rows, JoinedKeys(rows)[..n]) == Clicks(rows[..n])
  {
    if n > 0 {
      SumAtOwn(rows, n - 1);
      LookupOwn(rows, n - 1);
      assert JoinedKeys(rows)[..n][..n - 1] == JoinedKeys(rows)[..n - 1];
      assert rows[..n][..n - 1] == rows[..n - 1];
    }
  }

  /** Summed over the compared keys, each period's clicks are the period's total. */
  lemma ComparedTotal(rows1: seq<DataRow>, rows2: seq<DataRow>, all: seq<Comparison>, rows: seq<DataRow>, ks: seq<string>)
    requires IsComparison(rows1, rows2, all) && (rows == rows1 || rows == rows2) && DistinctJoined(rows)
    requires |ks| == |all| && forall i :: 0 <= i < |all| ==> ks[i] == KeyOf(all[i].keys)
    ensures SumAt(rows, ks) == Clicks(rows)
  {
    var base := JoinedKeys(rows);
    forall k | k in base
      ensures k in ks
    {
      var i :| 0 <= i < |rows| && base[i] == k;
      LookupOwn(rows, i);
      assert Has(all, k);
      var c :| c in all && KeyOf(c.keys) == k;
      var j :| 0 <= j < |all| && all[j] == c;
      assert ks[j] == k;
    }
    forall k | k !in base
      ensures Lookup(rows, k).None?
    {
      LookupMiss(rows, k);
    }
    SumAtCover(rows, ks, base);
    SumAtOwn(rows, |rows|);
    assert base[..|rows|] == base && rows[..|rows|] == rows;
  }

  predicate WholeClicks(rows: seq<DataRow>) {
    forall r :: r in rows ==> Round2(r.clicks) == r.clicks
  }

  lemma {:induction false} LookupWhole(rows: seq<DataRow>, k: string)
    requires WholeClicks(rows)
    ensures Round2(ClicksAt(rows, k)) == ClicksAt(rows, k)
  {
    Round2Whole(0);
    if rows != [] {
      assert rows[|rows| - 1] in rows;
      LookupWhole(rows[..|rows| - 1], k);
    }
  }

  lemma Round2Difference(a: real, b: real)
    requires Round2(a) == a && Round2(b) == b
    ensures Round2(a - b) == a - b
  {
    var m, n := Truncate(a * 100.0 + 0.5 * Sign(a)), Truncate(b * 100.0 + 0.5 * Sign(b));
    Round2Whole(m - n);
    assert a - b == (m - n) as real / 100.0;
  }

  ghost predicate DeltasAt(rows1: seq<DataRow>, rows2: seq<DataRow>, comps: seq<Comparison>, ks: seq<string>) {
    && |ks| == |comps|
    && forall i :: 0 <= i < |comps| ==> comps[i].clicksDelta == Round2(ClicksAt(rows2, ks[i]) - ClicksAt(rows1, ks[i]))
  }

  lemma {:induction false} DeltasTelescope(rows1: seq<DataRow>, rows2: seq<DataRow>, comps: seq<Comparison>, ks: seq<string>)
    requires DeltasAt(rows1, rows2, comps, ks)
    ensures var exact := SumAt(rows2, ks) - SumAt(rows1, ks);
            exact - |comps| as real / 200.0 <= DeltaSum(comps) <= exact + |comps| as real / 200.0
    ensures WholeClicks(rows1) && WholeClicks(rows2) ==> DeltaSum(comps) == SumAt(rows2, ks) - SumAt(rows1, ks)
  {
    if comps != [] {
      var n := |comps| - 1;
      DeltasTelescope(rows1, rows2, comps[..n], ks[..n]);
      var a, b := ClicksAt(rows2, ks[n]), ClicksAt(rows1, ks[n]);
      Round2Near(a - b);
      if WholeClicks(rows1) && WholeClicks(rows2) {
        LookupWhole(rows1, ks[n]);
        LookupWhole(rows2, ks[n]);
        Round2Difference(a, b);
      }
    }
  }

  /**
   Before the trim, the click deltas sum to the change of the period totals: exactly when clicks are
   whole counts (or hundredths), and within half a hundredth per row otherwise.
   */
  lemma ClicksConserved(rows1: seq<DataRow>, rows2: seq<DataRow>, all: seq<Comparison>)
    requires IsComparison(rows1, rows2, all) && DistinctJoined(rows1) && DistinctJoined(rows2)
    ensures WholeClicks(rows1) && WholeClicks(rows2) ==> DeltaSum(all) == Clicks(rows2) - Clicks(rows1)
    ensures var exact := Clicks(rows2) - Clicks(rows1);
            exact - |all| as real / 200.0 <= DeltaSum(all) <= exact + |all| as real / 200.0
  {
    var ks := ComparedKeys(all);
    ComparedTotal(rows1, rows2, all, rows1, ks);
    ComparedTotal(rows1, rows2, all, rows2, ks);
    DeltasOf(rows1, rows2, all);
    DeltasTelescope(rows1, rows2, all, ks);
  }

  function ComparedKeys(all: seq<Comparison>): (ks: seq<string>)
    ensures |ks| == |all| && forall i :: 0 <= i < |all| ==> ks[i] == KeyOf(all[i].keys)
  {
    seq(|all|, i requires 0 <= i < |all| => KeyOf(all[i].keys))
  }

  lemma DeltasOf(rows1: seq<DataRow>, rows2: seq<DataRow>, all: seq<Comparison>)
    requires IsComparison(rows1, rows2, all)
    ensures DeltasAt(rows1, rows2, all, ComparedKeys(all))
  {
    assert forall i :: 0 <= i < |all| ==> all[i] in all;
  }
}
