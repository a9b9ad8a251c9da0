/** Downloading a skill: the walk, the bounded fan-out of raw fetches, and the totals. */
module Download {
  import opened Wrappers
  import opened SkillTree
  import FanOut

  const MAX_FILE_BYTES: nat := 256 * 1024
  const MAX_CONCURRENCY: nat := 6
  const TRUNCATED := "\n... [truncated]"

  /** The answer to one raw request: the whole body, or the reason the fetch failed. */
  datatype Raw = Body(data: string) | Failed(reason: string)

  datatype SkillFile = SkillFile(path: string, content: string, bytes: nat, error: string)

  datatype Skill = Skill(files: seq<SkillFile>, totalBytes: nat)

  datatype Error = Listing(reason: string) | NoFiles

  /** The reader stops one byte past the cap, which is how truncation is noticed. */
  function FetchRaw(data: string): (content: string)
    ensures |content| <= MAX_FILE_BYTES + 16
    ensures |data| <= MAX_FILE_BYTES ==> content == data
    ensures |data| > MAX_FILE_BYTES ==> content == data[..MAX_FILE_BYTES] + TRUNCATED
  {
    var read := if |data| <= MAX_FILE_BYTES + 1 then data else data[..MAX_FILE_BYTES + 1];
    if |read| > MAX_FILE_BYTES then read[..MAX_FILE_BYTES] + TRUNCATED else read
  }

  /** One goroutine's slot: a failed fetch is recorded in its own file and costs no other. */
  function FetchOne(item: Item, raw: Raw): SkillFile {
    match raw
    case Body(data) => SkillFile(item.path, FetchRaw(data), |FetchRaw(data)|, "")
    case Failed(reason) => SkillFile(item.path, "", 0, reason)
  }

  function TotalBytes(files: seq<SkillFile>): nat {
    if files == [] then 0 else TotalBytes(files[..|files| - 1]) + files[|files| - 1].bytes
  }

  lemma {:induction false} TotalBounded(files: seq<SkillFile>, each: nat)
    requires forall f :: f in files ==> f.bytes <= each
    ensures TotalBytes(files) <= |files| * each
  {
    if files != [] {
      TotalBounded(files[..|files| - 1], each);
    }
  }

  function Fetched(items: seq<Item>, fetch: (nat, Item) -> Raw): seq<SkillFile> {
    seq(|items|, i requires 0 <= i < |items| => FetchOne(items[i], fetch(i, items[i])))
  }

  method SumBytes(files: seq<SkillFile>) returns (total: nat)
    ensures total == TotalBytes(files)
  {
    total := 0;
    for i := 0 to |files|
      invariant total == TotalBytes(files[..i])
    {
      assert files[..i + 1][..i] == files[..i];
      total := total + files[i].bytes;
    }
    assert files[..|files|] == files;
  }

  /** Even fifty files of any size stay within fifty times the cap plus the truncation mark. */
  lemma FetchedBounded(items: seq<Item>, fetch: (nat, Item) -> Raw)
    requires |items| <= MAX_FILES
    ensures TotalBytes(Fetched(items, fetch)) <= MAX_FILES * (MAX_FILE_BYTES + 16)
  {
    var files := Fetched(items, fetch);
    forall f | f in files
      ensures f.bytes <= MAX_FILE_BYTES + 16
    {
      var i :| 0 <= i < |files| && files[i] == f;
      assert f == FetchOne(items[i], fetch(i, items[i]));
    }
    TotalBounded(files, MAX_FILE_BYTES + 16);
  }

  /** What is recorded of one raw answer: the body, cut at 256 KiB and then marked, or the failure. */
  predicate Records(file: SkillFile, item: Item, raw: Raw) {
    && file.path == item.path
    && match raw
       case Body(data) =>
         && file.error == "" && file.bytes == |file.content|
         && file.content == if |data| <= 262144 then data else data[..262144] + "\n... [truncated]"
       case Failed(reason) => file.error == reason && file.content == "" && file.bytes == 0
  }

  /** The total adds up: nothing for no files, a file's own bytes, and the sum over two parts. */
  lemma {:induction false} TotalAdds(a: seq<SkillFile>, b: seq<SkillFile>)
    ensures TotalBytes([]) == 0
    ensures TotalBytes(a + b) == TotalBytes(a) + TotalBytes(b)
    ensures |b| == 1 ==> TotalBytes(b) == b[0].bytes
  {
    if b == [] {
      assert a + b == a;
    } else {
      assert (a + b)[..|a + b| - 1] == a + b[..|b| - 1];
      TotalAdds(a, b[..|b| - 1]);
    }
  }

  lemma FetchedRecords(items: seq<Item>, fetch: (nat, Item) -> Raw)
    ensures forall i :: 0 <= i < |items| ==> Records(Fetched(items, fetch)[i], items[i], fetch(i, items[i]))
  {
  }

  /** A listing that the download fetched: one file per item, in order. */
  ghost predicate Fetches(resp: Responder, dir: string, fetch: (nat, Item) -> Raw, files: seq<SkillFile>) {
    exists items :: ListedBy(resp, dir, Ok(items)) && |items| == |files| && items != []
                 && forall i :: 0 <= i < |items| ==> Records(files[i], items[i], fetch(i, items[i]))
  }

  /**
   fetch answers the raw request for the item of a slot. The files come back in pre-order, one per listed item,
   whatever order the goroutines ran in; peak is the most that were fetching at once.
   */
  method Download(resp: Responder, dir: string, fetch: (nat, Item) -> Raw) returns (r: Result<Skill, Error>, ghost peak: int)
    ensures r.Ok? ==> Fetches(resp, dir, fetch, r.value.files)
    ensures r == Err(NoFiles) ==> ListedBy(resp, dir, Ok([]))
    ensures r.Err? && r.error.Listing? ==> ListedBy(resp, dir, Err(r.error.reason))
    ensures r.Err? && r.error.Listing? <==> BreaksEarly(MAX_FILES, PreOrder(resp, dir))
    ensures r.Err? && r.error.Listing? ==> Take([], PreOrder(resp, dir)).error == Some(r.error.reason)
    ensures r == Err(NoFiles) ==> Files(PreOrder(resp, dir)) == []
    ensures r.Ok? ==> r.value.files == Fetched(Cut(Files(PreOrder(resp, dir))), fetch) != []
    ensures r.Ok? ==> r.value.totalBytes == TotalBytes(r.value.files) <= 50 * (262144 + 16)
    ensures peak <= 6
  {
    peak := 0;
    var listed := ListAll(resp, dir);
    if listed.Err? {
      return Err(Listing(listed.error)), peak;
    }
    var items := listed.value;
    if items == [] {
      return Err(NoFiles), peak;
    }
    var slots;
    slots, peak := FanOut.RunAll(SkillFile("", "", 0, ""), Fetched(items, fetch), MAX_CONCURRENCY);
    var files := slots[..];
    var total := SumBytes(files);
    FetchedBounded(items, fetch);
    FetchedRecords(items, fetch);
    r := Ok(Skill(files, total));
  }
}
