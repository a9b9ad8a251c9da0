/** Reciprocal Rank Fusion of the two search arms. */
module Fusion {
  import opened MemoryTable
  import opened Sorting

  const RRF_K: nat := 60

  datatype Source = FromVector | FromKeyword | FromBoth

  datatype Hit = Hit(id: Id, content: string, score: real, source: Source)

  datatype Entry = Entry(hit: Hit, rrf: real)

  type Merged = map<Id, Entry>

  function Reciprocal(rank: nat): real {
    1.0 / (RRF_K + rank + 1) as real
  }

  // ---------- the merge, in the order the loops build it ----------

  function VectorEntries(vec: seq<Hit>): Merged {
    if vec == [] then map[]
    else
      var n := |vec| - 1;
      VectorEntries(vec[..n])[vec[n].id := Entry(vec[n], Reciprocal(n))]
  }

  function AddKeyword(m: Merged, h: Hit, rank: nat): Merged {
    if h.id in m then
      m[h.id := Entry(m[h.id].hit.(source := FromBoth), m[h.id].rrf + Reciprocal(rank))]
    else
      m[h.id := Entry(h, Reciprocal(rank))]
  }

  function AddKeywords(m: Merged, kw: seq<Hit>): Merged {
    if kw == [] then m
    else
      var n := |kw| - 1;
      AddKeyword(AddKeywords(m, kw[..n]), kw[n], n)
  }

  function Merge(vec: seq<Hit>, kw: seq<Hit>): Merged {
    AddKeywords(VectorEntries(vec), kw)
  }

  function Rrf(m: Merged): Hit -> real {
    (h: Hit) => if h.id in m then m[h.id].rrf else 0.0
  }

  /** One fused list: every merged hit once, best fused value first. Ties may come in any order. */
  ghost predicate IsFusion(vec: seq<Hit>, kw: seq<Hit>, out: seq<Hit>) {
    var m := Merge(vec, kw);
    && (forall h :: h in out ==> h.id in m && h == m[h.id].hit)
    && (forall id :: id in m ==> m[id].hit in out)
    && (forall i, j :: 0 <= i < j < |out| ==> out[i].id != out[j].id)
    && Descending(out, Rrf(m))
  }

  lemma {:induction false} VectorIds(vec: seq<Hit>, id: Id)
    requires id in VectorEntries(vec)
    ensures VectorEntries(vec)[id].hit.id == id
  {
    var n := |vec| - 1;
    if id != vec[n].id {
      VectorIds(vec[..n], id);
    }
  }

  lemma {:induction false} MergedIds(vec: seq<Hit>, kw: seq<Hit>, id: Id)
    requires id in Merge(vec, kw)
    ensures Merge(vec, kw)[id].hit.id == id
  {
    if kw == [] {
      VectorIds(vec, id);
    } else {
      var n := |kw| - 1;
      if id in Merge(vec, kw[..n]) {
        MergedIds(vec, kw[..n], id);
      }
    }
  }

  /** The two loops over the arms. */
  method MergeArms(vec: seq<Hit>, kw: seq<Hit>) returns (merged: Merged)
    ensures merged == Merge(vec, kw)
  {
    merged := map[];
    for rank := 0 to |vec|
      invariant merged == VectorEntries(vec[..rank])
    {
      assert vec[..rank + 1][..rank] == vec[..rank];
      merged := merged[vec[rank].id := Entry(vec[rank], Reciprocal(rank))];
    }
    assert vec[..|vec|] == vec;
    for rank := 0 to |kw|
      invariant merged == Merge(vec, kw[..rank])
    {
      assert kw[..rank + 1][..rank] == kw[..rank];
      var h, score := kw[rank], Reciprocal(rank);
      if h.id in merged {
        var e := merged[h.id];
        merged := merged[h.id := Entry(e.hit.(source := FromBoth), e.rrf + score)];
      } else {
        merged := merged[h.id := Entry(h, score)];
      }
    }
    assert kw[..|kw|] == kw;
  }

  /** Whatever order the map is walked in, the result is a fusion of the two arms. */
  method Fuse(vec: seq<Hit>, kw: seq<Hit>) returns (out: array<Hit>)
    ensures fresh(out)
    ensures IsFusion(vec, kw, out[..])
  {
    var merged := MergeArms(vec, kw);
    out := Collect(merged, vec, kw);
    ghost var unsorted := out[..];
    InsertionSort(out, Rrf(merged));
    SortedFusion(vec, kw, unsorted, out[..]);
  }

  lemma SortedFusion(vec: seq<Hit>, kw: seq<Hit>, unsorted: seq<Hit>, out: seq<Hit>)
    requires var m := Merge(vec, kw);
             && (forall h :: h in unsorted ==> h.id in m && h == m[h.id].hit)
             && (forall id :: id in m ==> m[id].hit in unsorted)
             && Descending(out, Rrf(m))
    requires forall i, j :: 0 <= i < j < |unsorted| ==> unsorted[i] != unsorted[j]
    requires multiset(out) == multiset(unsorted)
    ensures IsFusion(vec, kw, out)
  {
    PermutedDistinct(unsorted, out);
    assert forall h :: h in unsorted <==> h in multiset(unsorted);
    assert forall h :: h in out <==> h in multiset(out);
    assert forall i :: 0 <= i < |out| ==> out[i] in out;
  }

  /** The range loop over the map: every entry once, in an arbitrary order. */
  method Collect(merged: Merged, ghost vec: seq<Hit>, ghost kw: seq<Hit>) returns (out: array<Hit>)
    requires merged == Merge(vec, kw)
    ensures fresh(out)
    ensures forall h :: h in out[..] ==> h.id in merged && h == merged[h.id].hit
    ensures forall id :: id in merged ==> merged[id].hit in out[..]
    ensures forall i, j :: 0 <= i < j < out.Length ==> out[i] != out[j]
  {
    out := new Hit[|merged|](_ => Hit(0, "", 0.0, FromVector));
    var left := merged.Keys;
    var n := 0;
    while left != {}
      invariant left <= merged.Keys && n + |left| == |merged.Keys| == out.Length
      invariant forall k :: 0 <= k < n ==> out[k].id in merged.Keys - left && out[k] == merged[out[k].id].hit
      invariant forall id :: id in merged.Keys - left ==> merged[id].hit in out[..n]
      invariant forall i, j :: 0 <= i < j < n ==> out[i] != out[j]
      decreases |left|
    {
      var id :| id in left;
      MergedIds(vec, kw, id);
      ghost var before := out[..n];
      out[n] := merged[id].hit;
      assert out[..n + 1] == before + [merged[id].hit];
      left := left - {id};
      n := n + 1;
    }
    assert out[..n] == out[..];
  }

  // ---------- what the merge means, stated on the arms ----------

  predicate DistinctIds(hits: seq<Hit>) {
    forall i, j :: 0 <= i < j < |hits| ==> hits[i].id != hits[j].id
  }

  predicate Found(hits: seq<Hit>, id: Id) {
    exists k :: 0 <= k < |hits| && hits[k].id == id
  }

  ghost function RankOf(hits: seq<Hit>, id: Id): (k: nat)
    requires Found(hits, id)
    ensures k < |hits| && hits[k].id == id
  {
    var k :| 0 <= k < |hits| && hits[k].id == id;
    k
  }

  /** An arm's contribution to an id: 1 / (61 + rank) where it has the id, nothing otherwise. */
  ghost function Share(hits: seq<Hit>, id: Id): real {
    if Found(hits, id) then 1.0 / (61 + RankOf(hits, id)) as real else 0.0
  }

  ghost function FusedValue(vec: seq<Hit>, kw: seq<Hit>, id: Id): real {
    Share(vec, id) + Share(kw, id)
  }

  /** The hit reported for an id: the vector arm's where it has one, marked when both arms do. */
  ghost function FusedHit(vec: seq<Hit>, kw: seq<Hit>, id: Id): Hit
    requires Found(vec, id) || Found(kw, id)
  {
    if Found(vec, id) then
      var h := vec[RankOf(vec, id)];
      if Found(kw, id) then h.(source := FromBoth) else h
    else
      kw[RankOf(kw, id)]
  }

  lemma SplitLast(hits: seq<Hit>, id: Id)
    requires hits != [] && DistinctIds(hits)
    ensures var n := |hits| - 1;
            && (Found(hits, id) <==> Found(hits[..n], id) || hits[n].id == id)
            && (Found(hits[..n], id) ==> hits[n].id != id && RankOf(hits[..n], id) == RankOf(hits, id))
            && (hits[n].id == id ==> RankOf(hits, id) == n)
  {
    var n := |hits| - 1;
    if Found(hits[..n], id) {
      var k := RankOf(hits[..n], id);
      assert hits[k].id == id;
    }
    if Found(hits, id) && hits[n].id != id {
      assert hits[..n][RankOf(hits, id)].id == id;
    }
  }

  lemma {:induction false} VectorSpec(vec: seq<Hit>, id: Id)
    requires DistinctIds(vec)
    ensures id in VectorEntries(vec) <==> Found(vec, id)
    ensures Found(vec, id) ==> VectorEntries(vec)[id] == Entry(vec[RankOf(vec, id)], Share(vec, id))
  {
    if vec != [] {
      SplitLast(vec, id);
      VectorSpec(vec[..|vec| - 1], id);
    }
  }

  /** Merging computes the summed reciprocal ranks and the reported hit, for duplicate-free arms. */
  lemma {:induction false} MergeSpec(vec: seq<Hit>, kw: seq<Hit>, id: Id)
    requires DistinctIds(vec) && DistinctIds(kw)
    ensures id in Merge(vec, kw) <==> Found(vec, id) || Found(kw, id)
    ensures id in Merge(vec, kw) ==> Merge(vec, kw)[id] == Entry(FusedHit(vec, kw, id), FusedValue(vec, kw, id))
  {
    if kw == [] {
      VectorSpec(vec, id);
    } else {
      SplitLast(kw, id);
      MergeSpec(vec, kw[..|kw| - 1], id);
    }
  }

  ghost predicate Arms(vec: seq<Hit>, kw: seq<Hit>, limit: nat) {
    && DistinctIds(vec) && DistinctIds(kw)
    && |vec| <= limit && |kw| <= limit
    && (forall h :: h in vec ==> h.source == FromVector)
    && (forall h :: h in kw ==> h.source == FromKeyword)
  }

  lemma FusedAt(vec: seq<Hit>, kw: seq<Hit>, out: seq<Hit>, i: nat)
    requires DistinctIds(vec) && DistinctIds(kw) && IsFusion(vec, kw, out) && i < |out|
    ensures Found(vec, out[i].id) || Found(kw, out[i].id)
    ensures out[i] == FusedHit(vec, kw, out[i].id)
    ensures Rrf(Merge(vec, kw))(out[i]) == FusedValue(vec, kw, out[i].id)
  {
    assert out[i] in out;
    MergeSpec(vec, kw, out[i].id);
  }

  /** A fusion lists each id of the two arms exactly once, by falling sum of reciprocal ranks. */
  lemma FusionRanks(vec: seq<Hit>, kw: seq<Hit>, out: seq<Hit>)
    requires DistinctIds(vec) && DistinctIds(kw) && IsFusion(vec, kw, out)
    ensures forall id :: Found(out, id) <==> Found(vec, id) || Found(kw, id)
    ensures forall i, j :: 0 <= i < j < |out| ==>
              out[i].id != out[j].id && FusedValue(vec, kw, out[i].id) >= FusedValue(vec, kw, out[j].id)
  {
    var m := Merge(vec, kw);
    forall id
      ensures Found(out, id) <==> Found(vec, id) || Found(kw, id)
    {
      MergeSpec(vec, kw, id);
      if id in m {
        MergedIds(vec, kw, id);
        assert m[id].hit in out;
      }
      if Found(out, id) {
        assert out[RankOf(out, id)] in out;
      }
    }
    forall i, j | 0 <= i < j < |out|
      ensures FusedValue(vec, kw, out[i].id) >= FusedValue(vec, kw, out[j].id)
    {
      FusedAt(vec, kw, out, i);
      FusedAt(vec, kw, out, j);
      assert Rrf(m)(out[i]) >= Rrf(m)(out[j]);
    }
  }

  /** What an arm gives an id: 1 over 61 plus its rank there, nothing when it is not there. */
  ghost predicate ArmScore(hits: seq<Hit>, id: Id, score: real) {
    && (forall k :: 0 <= k < |hits| && hits[k].id == id ==> score == 1.0 / (61 + k) as real)
    && ((forall k :: 0 <= k < |hits| ==> hits[k].id != id) ==> score == 0.0)
  }

  lemma ShareScored(hits: seq<Hit>, id: Id, score: real)
    requires DistinctIds(hits) && ArmScore(hits, id, score)
    ensures score == Share(hits, id)
  {
    if Found(hits, id) {
      assert hits[RankOf(hits, id)].id == id;
    }
  }

  /** An earlier hit never has a smaller sum of the two arms' scores than a later one. */
  lemma FusionOrder(vec: seq<Hit>, kw: seq<Hit>, out: seq<Hit>, i: nat, j: nat, v1: real, k1: real, v2: real, k2: real)
    requires DistinctIds(vec) && DistinctIds(kw) && IsFusion(vec, kw, out) && i < j < |out|
    requires ArmScore(vec, out[i].id, v1) && ArmScore(kw, out[i].id, k1)
    requires ArmScore(vec, out[j].id, v2) && ArmScore(kw, out[j].id, k2)
    ensures v1 + k1 >= v2 + k2
  {
    FusionRanks(vec, kw, out);
    ShareScored(vec, out[i].id, v1);
    ShareScored(kw, out[i].id, k1);
    ShareScored(vec, out[j].id, v2);
    ShareScored(kw, out[j].id, k2);
  }

  /** A hit is marked "both" exactly when both arms have it; its score is the cosine whenever the vector arm has it. */
  lemma FusionReports(vec: seq<Hit>, kw: seq<Hit>, limit: nat, out: seq<Hit>, i: nat)
    requires Arms(vec, kw, limit) && IsFusion(vec, kw, out) && i < |out|
    ensures out[i].source == FromBoth <==> Found(vec, out[i].id) && Found(kw, out[i].id)
    ensures out[i].source == FromKeyword <==> !Found(vec, out[i].id)
    ensures forall k :: 0 <= k < |vec| && vec[k].id == out[i].id ==>
              out[i] == Hit(vec[k].id, vec[k].content, vec[k].score, if Found(kw, out[i].id) then FromBoth else FromVector)
    ensures !Found(vec, out[i].id) ==> forall k :: 0 <= k < |kw| && kw[k].id == out[i].id ==> out[i] == kw[k]
  {
    var id := out[i].id;
    FusedAt(vec, kw, out, i);
    if Found(vec, id) {
      assert vec[RankOf(vec, id)] in vec;
    } else {
      assert kw[RankOf(kw, id)] in kw;
    }
  }

  /** Two runs over differently ordered maps agree on the fused value at every position. */
  lemma OrderIndependent(vec: seq<Hit>, kw: seq<Hit>, out1: seq<Hit>, out2: seq<Hit>)
    requires IsFusion(vec, kw, out1) && IsFusion(vec, kw, out2)
    ensures |out1| == |out2|
    ensures forall i :: 0 <= i < |out1| ==> Rrf(Merge(vec, kw))(out1[i]) == Rrf(Merge(vec, kw))(out2[i])
  {
    SameElements(out1, out2);
    SortedKeysAgree(out1, out2, Rrf(Merge(vec, kw)));
  }

  lemma SameElements<T(!new)>(s: seq<T>, t: seq<T>)
    requires forall i, j :: 0 <= i < j < |s| ==> s[i] != s[j]
    requires forall i, j :: 0 <= i < j < |t| ==> t[i] != t[j]
    requires forall x :: x in s <==> x in t
    ensures multiset(s) == multiset(t)
  {
    forall x
      ensures multiset(s)[x] == multiset(t)[x]
    {
      DistinctCount(s, x);
      DistinctCount(t, x);
      assert x in s <==> x in multiset(s);
      assert x in t <==> x in multiset(t);
    }
  }

  // ---------- hits found by both arms come first ----------

  lemma ReciprocalFalls(x: real, y: real)
    requires 0.0 < x <= y
    ensures 1.0 / y <= 1.0 / x
  {
    var u, v := 1.0 / x, 1.0 / y;
    assert u * x == 1.0 && v * y == 1.0;
    assert v > u ==> v * y > u * y;
    assert u * y >= u * x;
  }

  lemma ShareBounds(hits: seq<Hit>, id: Id, limit: nat)
    requires |hits| <= limit
    ensures 0.0 <= Share(hits, id) <= 1.0 / 61.0
    ensures Found(hits, id) ==> Share(hits, id) >= 1.0 / (60 + limit) as real
  {
    if Found(hits, id) {
      var k := RankOf(hits, id);
      ReciprocalFalls(61.0, (61 + k) as real);
      ReciprocalFalls((61 + k) as real, (60 + limit) as real);
    }
  }

  ghost predicate BothBeatsSingle(vec: seq<Hit>, kw: seq<Hit>) {
    forall a, b :: Found(vec, a) && Found(kw, a) && !(Found(vec, b) && Found(kw, b)) ==>
      FusedValue(vec, kw, a) > FusedValue(vec, kw, b)
  }

  lemma SmallArmsBothFirst(vec: seq<Hit>, kw: seq<Hit>)
    requires Arms(vec, kw, 61)
    ensures BothBeatsSingle(vec, kw)
  {
    forall a, b | Found(vec, a) && Found(kw, a) && !(Found(vec, b) && Found(kw, b))
      ensures FusedValue(vec, kw, a) > FusedValue(vec, kw, b)
    {
      ShareBounds(vec, a, 61);
      ShareBounds(kw, a, 61);
      ShareBounds(vec, b, 61);
      ShareBounds(kw, b, 61);
    }
  }

  /** Sixty-two hits per arm admit a tie: 2/122 against 1/61. */
  lemma TieAt62() returns (vec: seq<Hit>, kw: seq<Hit>)
    ensures Arms(vec, kw, 62) && !BothBeatsSingle(vec, kw)
  {
    vec := seq(62, k requires 0 <= k < 62 => Hit(k, "", 0.0, FromVector));
    kw := seq(62, k requires 0 <= k < 62 => Hit(if k == 61 then 61 else 100 + k, "", 0.0, FromKeyword));
    assert vec[61].id == 61 && kw[61].id == 61 && vec[0].id == 0;
    assert Found(vec, 61) && Found(kw, 61) && Found(vec, 0) && !Found(kw, 0);
    assert RankOf(vec, 61) == 61 && RankOf(kw, 61) == 61 && RankOf(vec, 0) == 0;
    assert FusedValue(vec, kw, 61) == 1.0 / 122.0 + 1.0 / 122.0 && FusedValue(vec, kw, 0) == 1.0 / 61.0;
  }

  /** Exactly up to 61 hits per arm does being found twice always outrank being found once. */
  lemma BothFirstExactly(limit: nat)
    ensures (forall vec, kw :: Arms(vec, kw, limit) ==> BothBeatsSingle(vec, kw)) <==> limit <= 61
  {
    if limit <= 61 {
      forall vec, kw | Arms(vec, kw, limit)
        ensures BothBeatsSingle(vec, kw)
      {
        SmallArmsBothFirst(vec, kw);
      }
    } else {
      var vec, kw := TieAt62();
      assert Arms(vec, kw, limit);
    }
  }

  lemma BothArmsFirst(vec: seq<Hit>, kw: seq<Hit>, out: seq<Hit>)
    requires Arms(vec, kw, 61) && IsFusion(vec, kw, out)
    ensures forall i, j :: 0 <= i < |out| && 0 <= j < |out| && out[i].source == FromBoth && out[j].source != FromBoth ==> i < j
  {
    FusionRanks(vec, kw, out);
    SmallArmsBothFirst(vec, kw);
    forall i, j | 0 <= i < |out| && 0 <= j < |out| && out[i].source == FromBoth && out[j].source != FromBoth
      ensures i < j
    {
      HigherComesFirst(vec, kw, out, i, j);
    }
  }

  lemma HigherComesFirst(vec: seq<Hit>, kw: seq<Hit>, out: seq<Hit>, i: nat, j: nat)
    requires Arms(vec, kw, 61) && IsFusion(vec, kw, out) && BothBeatsSingle(vec, kw)
    requires i < |out| && j < |out| && out[i].source == FromBoth && out[j].source != FromBoth
    requires j < i ==> FusedValue(vec, kw, out[j].id) >= FusedValue(vec, kw, out[i].id)
    ensures i < j
  {
    FusionReports(vec, kw, 61, out, i);
    FusionReports(vec, kw, 61, out, j);
  }
}
