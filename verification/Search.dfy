/**
 Hybrid search over the embedding store. `sim` is cosine similarity; `lex` is the full-text match of a
 content against the query, None when it does not match.
 */
module Search {
  import opened Collections
  import opened Wrappers
  import opened MemoryTable
  import opened EmbedStore
  import opened Fusion

  const DEFAULT_LIMIT: nat := 5

  datatype Query = Query(key: KeyId, vec: Vector, tags: set<string>, limit: int, minScore: real)

  predicate TagsMatch(row: Row, tags: set<string>) {
    tags == {} || row.tags * tags != {}
  }

  /** Rows the vector arm may return: a NULL embedding compares as NULL and is filtered out. */
  predicate VectorCandidate(rows: Table, q: Query, sim: (Vector, Vector) -> real, id: Id) {
    && id in rows && rows[id].key == q.key && TagsMatch(rows[id], q.tags)
    && rows[id].embedding.Some? && sim(rows[id].embedding.value, q.vec) >= q.minScore
  }

  predicate KeywordCandidate(rows: Table, q: Query, lex: string -> Option<real>, id: Id) {
    id in rows && rows[id].key == q.key && TagsMatch(rows[id], q.tags) && lex(rows[id].content).Some?
  }

  /**
   Hits the vector arm may return: candidates, each once, at most fetch. The index is approximate, so nothing
   is said of candidates it misses.
   */
  ghost predicate IsVectorArm(rows: Table, q: Query, sim: (Vector, Vector) -> real, fetch: nat, hits: seq<Hit>) {
    && DistinctIds(hits) && |hits| <= fetch
    && (forall h :: h in hits ==>
          && VectorCandidate(rows, q, sim, h.id)
          && h == Hit(h.id, rows[h.id].content, sim(rows[h.id].embedding.value, q.vec), FromVector))
  }

  ghost predicate IsKeywordArm(rows: Table, q: Query, lex: string -> Option<real>, fetch: nat, hits: seq<Hit>) {
    && DistinctIds(hits) && |hits| <= fetch
    && (forall h :: h in hits ==>
          && KeywordCandidate(rows, q, lex, h.id)
          && h == Hit(h.id, rows[h.id].content, lex(rows[h.id].content).value, FromKeyword))
  }

  function Limit(q: Query): nat {
    if q.limit <= 0 then DEFAULT_LIMIT else q.limit
  }

  function Fetch(q: Query): nat {
    Limit(q) * 4
  }

  function AtMost(n: nat, size: nat): nat {
    if size > n then n else size
  }

  /** vecArm and kwArm are what the two concurrent queries returned; either error fails the search. */
  method Search<E>(q: Query, vecArm: Result<seq<Hit>, E>, kwArm: Result<seq<Hit>, E>) returns (r: Result<seq<Hit>, E>)
    ensures r.Ok? <==> vecArm.Ok? && kwArm.Ok?
    ensures r.Err? ==> r == vecArm || r == kwArm
    ensures r.Ok? ==> exists out :: IsFusion(vecArm.value, kwArm.value, out) && r.value <= out
                                 && |r.value| == AtMost(if q.limit <= 0 then 5 else q.limit, |out|)
  {
    if vecArm.Err? {
      return vecArm;
    }
    if kwArm.Err? {
      return kwArm;
    }
    var hits := Fuse(vecArm.value, kwArm.value);
    var out := hits[..];
    assert IsFusion(vecArm.value, kwArm.value, out);
    if |out| > Limit(q) {
      return Ok(out[..Limit(q)]);
    }
    return Ok(out);
  }

  /** Duplicate-free hits of one key never outnumber the rows the key may hold. */
  lemma ArmCapped(rows: Table, key: KeyId, hits: seq<Hit>)
    requires Capped(rows) && DistinctIds(hits)
    requires forall h :: h in hits ==> h.id in rows && rows[h.id].key == key
    ensures |hits| <= MAX_PER_KEY
  {
    var stamps := seq(|hits|, k requires 0 <= k < |hits| =>
      assert hits[k] in hits;
      Stamp(rows[hits[k].id].created, hits[k].id));
    forall k | 0 <= k < |hits|
      ensures stamps[k] in Stamps(rows, key)
    {
      assert hits[k] in hits;
    }
    DistinctSize(stamps);
    SubsetSize(Elements(stamps), Stamps(rows, key));
  }

  /** h shows a row of the caller's key, with one of the tags asked for if any are. */
  predicate OwnRow(rows: Table, q: Query, h: Hit) {
    h.id in rows && rows[h.id].key == q.key && rows[h.id].content == h.content &&
    (q.tags == {} || exists tag :: tag in q.tags && tag in rows[h.id].tags)
  }

  lemma ArmsOwn(early: Table, late: Table, q: Query, vec: seq<Hit>, kw: seq<Hit>, out: seq<Hit>)
    requires DistinctIds(vec) && DistinctIds(kw) && IsFusion(vec, kw, out)
    requires forall h :: h in vec || h in kw ==> OwnRow(early, q, h) || OwnRow(late, q, h)
    ensures forall h :: h in out ==> OwnRow(early, q, h) || OwnRow(late, q, h)
  {
    forall h | h in out
      ensures OwnRow(early, q, h) || OwnRow(late, q, h)
    {
      var i :| 0 <= i < |out| && out[i] == h;
      FusedAt(vec, kw, out, i);
      if Found(vec, h.id) {
        assert vec[RankOf(vec, h.id)] in vec;
      } else {
        assert kw[RankOf(kw, h.id)] in kw;
      }
    }
  }

  /**
   Whatever limit is asked for, and even if the two arms read the table at different moments of a run,
   the results list every hit found by both arms before any hit found by one, and a hit the vector arm
   knows scores the similarity of the text it shows.
   */
  lemma SearchPromise(embed: string -> Vector, cpus: nat, before: seq<Action>, between: seq<Action>, q: Query,
                      sim: (Vector, Vector) -> real, lex: string -> Option<real>, vec: seq<Hit>, kw: seq<Hit>, out: seq<Hit>)
    requires Legal(embed, Start(cpus), before)
    requires Legal(embed, Exec(embed, Start(cpus), before), between)
    requires var early := Exec(embed, Start(cpus), before);
             var late := Exec(embed, early, between);
             || (IsVectorArm(early.rows, q, sim, Fetch(q), vec) && IsKeywordArm(late.rows, q, lex, Fetch(q), kw))
             || (IsVectorArm(late.rows, q, sim, Fetch(q), vec) && IsKeywordArm(early.rows, q, lex, Fetch(q), kw))
    requires IsFusion(vec, kw, out)
    ensures forall i, j :: 0 <= i < |out| && 0 <= j < |out| && out[i].source == FromBoth && out[j].source != FromBoth ==> i < j
    ensures forall h :: h in out && h.source != FromKeyword ==> h.score == sim(embed(h.content), q.vec) >= q.minScore
    ensures forall h :: h in out ==>
              OwnRow(Exec(embed, Start(cpus), before).rows, q, h) || OwnRow(Exec(embed, Exec(embed, Start(cpus), before), between).rows, q, h)
  {
    var early := Exec(embed, Start(cpus), before);
    var late := Exec(embed, early, between);
    ReachableInv(embed, cpus, before);
    InvRun(embed, early, between);
    var vecRows := if IsVectorArm(early.rows, q, sim, Fetch(q), vec) && IsKeywordArm(late.rows, q, lex, Fetch(q), kw)
                   then early.rows else late.rows;
    ArmCapped(vecRows, q.key, vec);
    assert Arms(vec, kw, MAX_PER_KEY) by {
      ArmCapped(if vecRows == early.rows then late.rows else early.rows, q.key, kw);
    }
    BothArmsFirst(vec, kw, out);
    assert forall row: Row :: TagsMatch(row, q.tags) ==> q.tags == {} || exists tag :: tag in q.tags && tag in row.tags;
    ArmsOwn(early.rows, late.rows, q, vec, kw, out);
    forall h | h in out && h.source != FromKeyword
      ensures h.score == sim(embed(h.content), q.vec) >= q.minScore
    {
      var i :| 0 <= i < |out| && out[i] == h;
      FusionReports(vec, kw, MAX_PER_KEY, out, i);
      var k := RankOf(vec, h.id);
      assert vec[k] in vec;
    }
  }
}
