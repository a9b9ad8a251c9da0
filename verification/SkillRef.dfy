/** Skill references: the shapes a skill link arrives in, reduced to one repository directory. */
module SkillRef {
  import opened Wrappers
  import opened Text

  datatype Url = Url(host: string, path: string)

  /** The URL library, None when it rejects the text. */
  type UrlParser = string -> Option<Url>

  datatype Ref = Ref(owner: string, repo: string, branch: string, dir: string)

  datatype Error = EmptyReference | BadUrl | NotARepo | UnsupportedHost

  const SLASH := {'/'}
  const SCHEME := "https://"
  const GITHUB := "github.com"
  const RAW := "raw.githubusercontent.com"

  // ---------- path helpers ----------

  predicate Contains(s: string, part: string) {
    part <= s || (s != "" && Contains(s[1..], part))
  }

  function Split(s: string): (parts: seq<string>)
    ensures parts != []
  {
    if s == "" then [""]
    else if s[0] == '/' then [""] + Split(s[1..])
    else var rest := Split(s[1..]); [[s[0]] + rest[0]] + rest[1..]
  }

  function JoinPath(parts: seq<string>): string {
    Join(parts, "/")
  }

  /** The text after the last slash. */
  function AfterSlash(s: string): string {
    if s == "" || s[|s| - 1] == '/' then "" else AfterSlash(s[..|s| - 1]) + [s[|s| - 1]]
  }

  /** path.Base */
  function Base(p: string): string {
    if p == "" then "."
    else var base := AfterSlash(TrimRight(p, SLASH)); if base == "" then "/" else base
  }

  function TrimSuffix(s: string, suffix: string): string {
    if |suffix| <= |s| && s[|s| - |suffix|..] == suffix then s[..|s| - |suffix|] else s
  }

  /** A path whose last element has a dot is taken for a file and reduced to its directory. */
  function Reduce(p: string): string {
    if p != "" && '.' in Base(p) then Trim(TrimSuffix(p, Base(p)), SLASH) else p
  }

  function FromUrl(u: Url): Result<Ref, Error> {
    var parts := Split(Trim(u.path, SLASH));
    if u.host == GITHUB then
      if |parts| < 2 then Err(NotARepo)
      else if |parts| >= 4 && (parts[2] == "tree" || parts[2] == "blob") then
        Ok(Ref(parts[0], parts[1], parts[3], Reduce(JoinPath(parts[4..]))))
      else
        Ok(Ref(parts[0], parts[1], "", Reduce("")))
    else if u.host == RAW then
      if |parts| < 3 then Err(NotARepo) else Ok(Ref(parts[0], parts[1], parts[2], Reduce(JoinPath(parts[3..]))))
    else Err(UnsupportedHost)
  }

  function FromPath(s: string): Result<Ref, Error> {
    var parts := Split(Trim(s, SLASH));
    if |parts| < 2 then Err(NotARepo) else Ok(Ref(parts[0], parts[1], "", Reduce(JoinPath(parts[2..]))))
  }

  predicate LooksLikeUrl(s: string) {
    Contains(s, GITHUB) || Contains(s, "githubusercontent.com")
  }

  function Parsed(parse: UrlParser, source: string): Result<Ref, Error> {
    var s := TrimSpace(source);
    if s == "" then Err(EmptyReference)
    else if LooksLikeUrl(s) then
      match parse(if Contains(s, "://") then s else SCHEME + s)
      case None => Err(BadUrl)
      case Some(u) => FromUrl(u)
    else FromPath(s)
  }

  method ParseSkillRef(parse: UrlParser, source: string) returns (r: Result<Ref, Error>)
    ensures r == Parsed(parse, source)
  {
    var s := TrimSpace(source);
    if s == "" {
      return Err(EmptyReference);
    }
    var owner, repo, branch, p := "", "", "", "";
    if LooksLikeUrl(s) {
      if !Contains(s, "://") {
        s := SCHEME + s;
      }
      var u := parse(s);
      if u.None? {
        return Err(BadUrl);
      }
      var parts := Split(Trim(u.value.path, SLASH));
      if u.value.host == GITHUB {
        if |parts| < 2 {
          return Err(NotARepo);
        }
        owner, repo := parts[0], parts[1];
        if |parts| >= 4 && (parts[2] == "tree" || parts[2] == "blob") {
          branch, p := parts[3], JoinPath(parts[4..]);
        }
      } else if u.value.host == RAW {
        if |parts| < 3 {
          return Err(NotARepo);
        }
        owner, repo, branch := parts[0], parts[1], parts[2];
        p := JoinPath(parts[3..]);
      } else {
        return Err(UnsupportedHost);
      }
    } else {
      var parts := Split(Trim(s, SLASH));
      if |parts| < 2 {
        return Err(NotARepo);
      }
      owner, repo := parts[0], parts[1];
      p := JoinPath(parts[2..]);
    }
    var base := Base(p);
    if p != "" && '.' in base {
      p := Trim(TrimSuffix(p, base), SLASH);
    }
    r := Ok(Ref(owner, repo, branch, p));
  }

  // ---------- plain references ----------

  predicate PlainChar(c: char) {
    'a' <= c <= 'z' || 'A' <= c <= 'Z' || '0' <= c <= '9' || c == '-' || c == '_' || c == '.' || c == '~'
  }

  /** A non-empty path segment of characters that mean only themselves. */
  predicate Plain(segment: string) {
    segment != "" && forall c :: c in segment ==> PlainChar(c)
  }

  predicate AllPlain(parts: seq<string>) {
    forall s :: s in parts ==> Plain(s)
  }

  /** The URL library takes a plain URL apart at its first single slash. */
  ghost predicate ParsesPlain(parse: UrlParser) {
    forall host, parts :: Plain(host) && AllPlain(parts) && parts != [] ==>
      parse(UrlText(host, parts)) == Some(Url(host, "/" + JoinPath(parts)))
  }

  lemma {:induction false} SplitSegment(segment: string, rest: string)
    requires '/' !in segment
    ensures Split(segment) == [segment]
    ensures Split(segment + "/" + rest) == [segment] + Split(rest)
  {
    if segment == "" {
      assert (segment + "/" + rest)[1..] == rest;
    } else {
      SplitSegment(segment[1..], rest);
      assert (segment + "/" + rest)[1..] == segment[1..] + "/" + rest;
      assert segment == [segment[0]] + segment[1..];
    }
  }

  lemma {:induction false} SplitJoin(parts: seq<string>)
    requires AllPlain(parts) && parts != []
    ensures Split(JoinPath(parts)) == parts
  {
    assert Plain(parts[0]);
    if |parts| == 1 {
      SplitSegment(parts[0], "");
      assert parts == [parts[0]];
    } else {
      SplitSegment(parts[0], JoinPath(parts[1..]));
      SplitJoin(parts[1..]);
      assert parts == [parts[0]] + parts[1..];
    }
  }

  /** Joined plain segments neither start nor end with a slash or a space. */
  lemma {:induction false} JoinEnds(parts: seq<string>)
    requires AllPlain(parts) && parts != []
    ensures var s := JoinPath(parts); s != "" && PlainChar(s[0]) && PlainChar(s[|s| - 1])
  {
    assert Plain(parts[0]);
    assert parts[0][0] in parts[0] && parts[0][|parts[0]| - 1] in parts[0];
    if |parts| > 1 {
      JoinEnds(parts[1..]);
    }
  }

  lemma {:induction false} JoinSnoc(parts: seq<string>, last: string)
    requires parts != []
    ensures JoinPath(parts + [last]) == JoinPath(parts) + "/" + last
  {
    assert (parts + [last])[1..] == parts[1..] + [last];
    if |parts| == 1 {
      assert parts[1..] + [last] == [last] && JoinPath([last]) == last;
    } else {
      JoinSnoc(parts[1..], last);
    }
  }

  lemma {:induction false} AfterSlashOf(head: string, segment: string)
    requires '/' !in segment
    ensures AfterSlash(head + "/" + segment) == segment && AfterSlash(segment) == segment
  {
    var s := head + "/" + segment;
    if segment != "" {
      var n := |segment| - 1;
      assert s[..|s| - 1] == head + "/" + segment[..n];
      AfterSlashOf(head, segment[..n]);
    }
  }

  lemma BaseOfJoin(parts: seq<string>, last: string)
    requires AllPlain(parts) && Plain(last)
    ensures Base(JoinPath(parts + [last])) == last
  {
    var p := JoinPath(parts + [last]);
    JoinEnds(parts + [last]);
    assert TrimRight(p, SLASH) == p;
    if parts == [] {
      assert parts + [last] == [last];
      AfterSlashOf("", last);
    } else {
      JoinSnoc(parts, last);
      AfterSlashOf(JoinPath(parts), last);
    }
  }

  /** Reduce keeps a directory path exactly when its last segment has no dot; otherwise it drops that segment. */
  lemma ReduceJoin(parts: seq<string>, last: string)
    requires AllPlain(parts) && Plain(last)
    ensures Reduce(JoinPath(parts + [last])) == if '.' in last then JoinPath(parts) else JoinPath(parts + [last])
  {
    var p := JoinPath(parts + [last]);
    JoinEnds(parts + [last]);
    BaseOfJoin(parts, last);
    if '.' in last {
      if parts == [] {
        assert parts + [last] == [last];
        assert TrimSuffix(last, last) == "";
      } else {
        JoinSnoc(parts, last);
        JoinEnds(parts);
        var dir := JoinPath(parts);
        assert p == dir + "/" + last && TrimSuffix(p, last) == dir + "/";
        TrimSlash(dir);
      }
    }
  }

  lemma TrimSlash(s: string)
    requires s != "" && s[0] != '/' && s[|s| - 1] != '/'
    ensures Trim(s + "/", SLASH) == s && Trim("/" + s, SLASH) == s
  {
    assert (s + "/")[..|s|] == s && TrimRight(s, SLASH) == s;
    assert TrimLeft(s + "/", SLASH) == s + "/";
    assert ("/" + s)[1..] == s && TrimLeft(s, SLASH) == s;
  }

  lemma {:induction false} ContainsBetween(head: string, part: string, tail: string)
    ensures Contains(head + part + tail, part)
  {
    if head == "" {
      assert head + part + tail == part + tail;
    } else {
      assert (head + part + tail)[1..] == head[1..] + part + tail;
      ContainsBetween(head[1..], part, tail);
    }
  }

  function UrlText(host: string, parts: seq<string>): string {
    SCHEME + (host + ("/" + JoinPath(parts)))
  }

  lemma UrlTrimmed(host: string, parts: seq<string>)
    requires AllPlain(parts) && parts != []
    ensures UrlText(host, parts) != "" && TrimSpace(UrlText(host, parts)) == UrlText(host, parts)
  {
    JoinEnds(parts);
    var s, path := UrlText(host, parts), JoinPath(parts);
    assert s[0] == 'h' && s[|s| - 1] == path[|path| - 1];
    TrimNothing(s, SPACES);
  }

  lemma UrlScheme(host: string, parts: seq<string>)
    ensures Contains(UrlText(host, parts), "://")
  {
    var tail := host + ("/" + JoinPath(parts));
    ContainsBetween("https", "://", tail);
    assert UrlText(host, parts) == "https" + "://" + tail;
  }

  lemma UrlHost(host: string, parts: seq<string>)
    requires host == GITHUB || host == RAW
    ensures LooksLikeUrl(UrlText(host, parts))
  {
    var tail := "/" + JoinPath(parts);
    if host == GITHUB {
      ContainsBetween(SCHEME, host, tail);
      assert UrlText(host, parts) == SCHEME + host + tail;
    } else {
      RawHost(tail);
    }
  }

  lemma RawHost(tail: string)
    ensures Contains(SCHEME + (RAW + tail), "githubusercontent.com")
  {
    var head, part := SCHEME + "raw.", "githubusercontent.com";
    ContainsBetween(head, part, tail);
    assert RAW == "raw." + part;
    assert SCHEME + (RAW + tail) == head + part + tail;
  }

  lemma HostsPlain()
    ensures Plain(GITHUB) && Plain(RAW)
  {
  }

  /** What a plain URL on one of the two hosts parses to. */
  lemma PlainUrl(parse: UrlParser, host: string, parts: seq<string>)
    requires ParsesPlain(parse) && AllPlain(parts) && parts != [] && (host == GITHUB || host == RAW)
    ensures Parsed(parse, UrlText(host, parts)) == FromUrl(Url(host, "/" + JoinPath(parts)))
  {
    HostsPlain();
    UrlTrimmed(host, parts);
    UrlScheme(host, parts);
    UrlHost(host, parts);
  }

  lemma UrlParts(parts: seq<string>)
    requires AllPlain(parts) && parts != []
    ensures Split(Trim("/" + JoinPath(parts), SLASH)) == parts
  {
    JoinEnds(parts);
    SplitJoin(parts);
    TrimSlash(JoinPath(parts));
  }

  lemma GithubParts(u: Url, owner: string, repo: string, kind: string, branch: string, tail: seq<string>)
    requires u.host == GITHUB && (kind == "tree" || kind == "blob")
    requires Split(Trim(u.path, SLASH)) == [owner, repo, kind, branch] + tail
    ensures FromUrl(u) == Ok(Ref(owner, repo, branch, Reduce(JoinPath(tail))))
  {
    assert ([owner, repo, kind, branch] + tail)[4..] == tail;
  }

  lemma RawParts(u: Url, owner: string, repo: string, branch: string, tail: seq<string>)
    requires u.host == RAW
    requires Split(Trim(u.path, SLASH)) == [owner, repo, branch] + tail
    ensures FromUrl(u) == Ok(Ref(owner, repo, branch, Reduce(JoinPath(tail))))
  {
    assert ([owner, repo, branch] + tail)[3..] == tail;
  }

  lemma PathParts(s: string, owner: string, repo: string, tail: seq<string>)
    requires Split(Trim(s, SLASH)) == [owner, repo] + tail
    ensures FromPath(s) == Ok(Ref(owner, repo, "", Reduce(JoinPath(tail))))
  {
    assert ([owner, repo] + tail)[2..] == tail;
  }

  function TreeUrl(owner: string, repo: string, branch: string, dirs: seq<string>): string {
    UrlText(GITHUB, [owner, repo, "tree", branch] + dirs)
  }

  function BlobUrl(owner: string, repo: string, branch: string, dirs: seq<string>, file: string): string {
    UrlText(GITHUB, [owner, repo, "blob", branch] + (dirs + [file]))
  }

  function RawUrl(owner: string, repo: string, branch: string, dirs: seq<string>, file: string): string {
    UrlText(RAW, [owner, repo, branch] + (dirs + [file]))
  }

  function BarePath(owner: string, repo: string, dirs: seq<string>): string {
    JoinPath([owner, repo] + dirs)
  }

  predicate PlainPlace(owner: string, repo: string, branch: string, dirs: seq<string>) {
    Plain(owner) && Plain(repo) && Plain(branch) && AllPlain(dirs)
  }

  predicate DotFreeEnd(dirs: seq<string>) {
    dirs == [] || '.' !in dirs[|dirs| - 1]
  }

  lemma DirectoryKept(dirs: seq<string>)
    requires AllPlain(dirs)
    ensures Reduce(JoinPath(dirs)) == JoinPath(dirs) <==> DotFreeEnd(dirs)
  {
    if dirs != [] {
      var front, last := dirs[..|dirs| - 1], dirs[|dirs| - 1];
      assert dirs == front + [last] && last in dirs;
      ReduceJoin(front, last);
      JoinLonger(front, last);
    }
  }

  lemma JoinLonger(front: seq<string>, last: string)
    requires last != ""
    ensures |JoinPath(front)| < |JoinPath(front + [last])|
  {
    if front == [] {
      assert front + [last] == [last];
    } else {
      JoinSnoc(front, last);
    }
  }

  lemma FileDropped(dirs: seq<string>, file: string)
    requires AllPlain(dirs) && Plain(file)
    ensures Reduce(JoinPath(dirs + [file])) == JoinPath(dirs) <==> '.' in file
  {
    ReduceJoin(dirs, file);
    JoinLonger(dirs, file);
  }

  /** A tree URL is read as its directory exactly when the directory's last segment has no dot. */
  lemma TreeExactly(parse: UrlParser, owner: string, repo: string, branch: string, dirs: seq<string>)
    requires ParsesPlain(parse) && PlainPlace(owner, repo, branch, dirs)
    ensures Parsed(parse, TreeUrl(owner, repo, branch, dirs)) == Ok(Ref(owner, repo, branch, JoinPath(dirs))) <==> DotFreeEnd(dirs)
  {
    var parts := [owner, repo, "tree", branch] + dirs;
    assert AllPlain(parts);
    PlainUrl(parse, GITHUB, parts);
    UrlParts(parts);
    GithubParts(Url(GITHUB, "/" + JoinPath(parts)), owner, repo, "tree", branch, dirs);
    DirectoryKept(dirs);
  }

  /** Any other URL on the site with a repository in it is the repository's root, on the default branch; with less it is refused. */
  lemma OtherUrls(parse: UrlParser, parts: seq<string>)
    requires ParsesPlain(parse) && AllPlain(parts) && parts != []
    requires |parts| >= 4 ==> parts[2] != "tree" && parts[2] != "blob"
    ensures |parts| >= 2 ==> Parsed(parse, UrlText(GITHUB, parts)) == Ok(Ref(parts[0], parts[1], "", ""))
    ensures |parts| < 2 ==> Parsed(parse, UrlText(GITHUB, parts)) == Err(NotARepo)
  {
    PlainUrl(parse, GITHUB, parts);
    UrlParts(parts);
  }

  /** A raw URL needs owner, repository and branch. */
  lemma ShortRawUrls(parse: UrlParser, parts: seq<string>)
    requires ParsesPlain(parse) && AllPlain(parts) && 0 < |parts| < 3
    ensures Parsed(parse, UrlText(RAW, parts)) == Err(NotARepo)
  {
    PlainUrl(parse, RAW, parts);
    UrlParts(parts);
  }

  /** The blob URL of a file is read as the file's directory exactly when the file name has a dot. */
  lemma BlobExactly(parse: UrlParser, owner: string, repo: string, branch: string, dirs: seq<string>, file: string)
    requires ParsesPlain(parse) && PlainPlace(owner, repo, branch, dirs) && Plain(file)
    ensures Parsed(parse, BlobUrl(owner, repo, branch, dirs, file)) == Ok(Ref(owner, repo, branch, JoinPath(dirs))) <==> '.' in file
  {
    var parts := [owner, repo, "blob", branch] + (dirs + [file]);
    assert AllPlain(parts);
    PlainUrl(parse, GITHUB, parts);
    UrlParts(parts);
    GithubParts(Url(GITHUB, "/" + JoinPath(parts)), owner, repo, "blob", branch, dirs + [file]);
    FileDropped(dirs, file);
  }

  /** And so is its raw URL. */
  lemma RawExactly(parse: UrlParser, owner: string, repo: string, branch: string, dirs: seq<string>, file: string)
    requires ParsesPlain(parse) && PlainPlace(owner, repo, branch, dirs) && Plain(file)
    ensures Parsed(parse, RawUrl(owner, repo, branch, dirs, file)) == Ok(Ref(owner, repo, branch, JoinPath(dirs))) <==> '.' in file
  {
    var parts := [owner, repo, branch] + (dirs + [file]);
    assert AllPlain(parts);
    PlainUrl(parse, RAW, parts);
    UrlParts(parts);
    RawParts(Url(RAW, "/" + JoinPath(parts)), owner, repo, branch, dirs + [file]);
    FileDropped(dirs, file);
  }

  /**
   A bare path is read as its directory, on the default branch, exactly when its last segment has no dot
   and no part of it reads like one of the two hosts: otherwise it is taken for a URL.
   */
  lemma BareExactly(parse: UrlParser, owner: string, repo: string, dirs: seq<string>)
    requires ParsesPlain(parse) && Plain(owner) && Plain(repo) && AllPlain(dirs)
    ensures Parsed(parse, BarePath(owner, repo, dirs)) == Ok(Ref(owner, repo, "", JoinPath(dirs)))
       <==> DotFreeEnd(dirs) && !LooksLikeUrl(BarePath(owner, repo, dirs))
  {
    var parts := [owner, repo] + dirs;
    assert AllPlain(parts);
    if LooksLikeUrl(JoinPath(parts)) {
      assert [owner] + ([repo] + dirs) == parts;
      BareAsUrl(parse, owner, [repo] + dirs);
      MisreadUrl(owner, repo, dirs);
    } else {
      BareParsed(parse, parts);
      BareParts(parts);
      PathParts(JoinPath(parts), owner, repo, dirs);
      DirectoryKept(dirs);
    }
  }

  lemma {:induction false} NoScheme(parts: seq<string>)
    requires AllPlain(parts)
    ensures !Contains(JoinPath(parts), "://")
  {
    JoinChars(parts);
    NoColon(JoinPath(parts));
  }

  lemma {:induction false} JoinChars(parts: seq<string>)
    requires AllPlain(parts)
    ensures forall c :: c in JoinPath(parts) ==> PlainChar(c) || c == '/'
  {
    if parts != [] {
      assert Plain(parts[0]);
      JoinChars(parts[1..]);
    }
  }

  lemma {:induction false} NoColon(s: string)
    requires ':' !in s
    ensures !Contains(s, "://")
  {
    if s != "" {
      NoColon(s[1..]);
      assert s[0] in s && "://"[0] == ':';
    }
  }

  /** A bare path that reads like a URL has its first segment taken for the host. */
  lemma BareAsUrl(parse: UrlParser, owner: string, rest: seq<string>)
    requires ParsesPlain(parse) && Plain(owner) && AllPlain(rest) && rest != [] && LooksLikeUrl(JoinPath([owner] + rest))
    ensures Parsed(parse, JoinPath([owner] + rest)) == FromUrl(Url(owner, "/" + JoinPath(rest)))
  {
    var parts := [owner] + rest;
    assert AllPlain(parts) && parts[1..] == rest;
    JoinEnds(parts);
    TrimNothing(JoinPath(parts), SPACES);
    NoScheme(parts);
    assert JoinPath(parts) == owner + ("/" + JoinPath(rest));
    assert SCHEME + JoinPath(parts) == UrlText(owner, rest);
  }

  /** That never gives the directory meant. */
  lemma MisreadUrl(owner: string, repo: string, dirs: seq<string>)
    requires Plain(owner) && Plain(repo) && AllPlain(dirs)
    ensures FromUrl(Url(owner, "/" + JoinPath([repo] + dirs))) != Ok(Ref(owner, repo, "", JoinPath(dirs)))
  {
    var rest := [repo] + dirs;
    assert AllPlain(rest);
    UrlParts(rest);
    if dirs != [] {
      JoinEnds(dirs);
    }
    if owner == RAW && |rest| >= 3 {
      assert Plain(rest[2]);
    }
    if owner == GITHUB && |rest| >= 4 {
      assert Plain(rest[3]);
    }
  }

  /** In particular it is refused when its owner is not itself a host. */
  lemma HostInPathRefused(parse: UrlParser, owner: string, rest: seq<string>)
    requires ParsesPlain(parse) && Plain(owner) && AllPlain(rest) && rest != [] && LooksLikeUrl(JoinPath([owner] + rest))
    requires owner != GITHUB && owner != RAW
    ensures Parsed(parse, JoinPath([owner] + rest)) == Err(UnsupportedHost)
  {
    BareAsUrl(parse, owner, rest);
  }

  /** Such a path is acme/github.com-skills/pdf, whose last segment has no dot. */
  lemma DotFreePathRefused(parse: UrlParser)
    requires ParsesPlain(parse)
    ensures DotFreeEnd(["pdf"])
    ensures Parsed(parse, BarePath("acme", "github.com-skills", ["pdf"])) == Err(UnsupportedHost)
  {
    var rest := ["github.com-skills"] + ["pdf"];
    SegmentsPlain();
    SkillsPath(rest);
    assert ["acme", "github.com-skills"] + ["pdf"] == ["acme"] + rest;
    assert |"acme"| < |GITHUB| && |"acme"| < |RAW|;
    HostInPathRefused(parse, "acme", rest);
  }

  lemma SkillsPath(rest: seq<string>)
    requires rest == ["github.com-skills"] + ["pdf"]
    ensures LooksLikeUrl(JoinPath(["acme"] + rest))
  {
    assert rest[1..] == ["pdf"] && (["acme"] + rest)[1..] == rest;
    assert JoinPath(["pdf"]) == "pdf";
    assert JoinPath(rest) == "github.com-skills" + "/" + "pdf";
    HostInside(JoinPath(["acme"] + rest), "acme/", "-skills/pdf");
  }

  lemma HostInside(s: string, head: string, tail: string)
    requires s == head + GITHUB + tail
    ensures LooksLikeUrl(s)
  {
    ContainsBetween(head, GITHUB, tail);
  }

  lemma SegmentsPlain()
    ensures Plain("acme") && Plain("github.com-skills") && Plain("pdf")
  {
  }

  lemma BareParsed(parse: UrlParser, parts: seq<string>)
    requires AllPlain(parts) && parts != [] && !LooksLikeUrl(JoinPath(parts))
    ensures Parsed(parse, JoinPath(parts)) == FromPath(JoinPath(parts))
  {
    JoinEnds(parts);
    TrimNothing(JoinPath(parts), SPACES);
  }

  lemma BareParts(parts: seq<string>)
    requires AllPlain(parts) && parts != []
    ensures Split(Trim(JoinPath(parts), SLASH)) == parts
  {
    JoinEnds(parts);
    TrimNothing(JoinPath(parts), SLASH);
    SplitJoin(parts);
  }

  predicate FormsAgree(parse: UrlParser, owner: string, repo: string, branch: string, dirs: seq<string>, file: string) {
    var here := Ref(owner, repo, branch, JoinPath(dirs));
    && Parsed(parse, TreeUrl(owner, repo, branch, dirs)) == Ok(here)
    && Parsed(parse, BlobUrl(owner, repo, branch, dirs, file)) == Ok(here)
    && Parsed(parse, RawUrl(owner, repo, branch, dirs, file)) == Ok(here)
    && Parsed(parse, BarePath(owner, repo, dirs)) == Ok(here.(branch := ""))
  }

  /**
   The four ways of pointing at one skill directory name the same directory, only the bare path leaving the
   branch open, exactly when the file has a dot, the directory none at its end, and the bare path no host in it.
   */
  lemma ReferenceFormsAgree(parse: UrlParser, owner: string, repo: string, branch: string, dirs: seq<string>, file: string)
    requires ParsesPlain(parse) && PlainPlace(owner, repo, branch, dirs) && Plain(file)
    ensures FormsAgree(parse, owner, repo, branch, dirs, file)
       <==> '.' in file && DotFreeEnd(dirs) && !LooksLikeUrl(BarePath(owner, repo, dirs))
  {
    TreeExactly(parse, owner, repo, branch, dirs);
    BlobExactly(parse, owner, repo, branch, dirs, file);
    RawExactly(parse, owner, repo, branch, dirs, file);
    BareExactly(parse, owner, repo, dirs);
  }
}
