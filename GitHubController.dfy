/**
 * The web application's GitHub controller (`web_app/controllers/github_controller.py`):
 * reading the owner, repository, branch and sub-directory out of a repository
 * URL, validating that URL, choosing the prefix that marks scripts from other
 * repositories, and the loops that copy the script files of a downloaded tree.
 * The network, the zip archive and the file system are data here: the
 * download's status code, the names `os.listdir` returns, and the files
 * `os.walk` visits, each with the directory it sits in relative to the root
 * of the walk.
 */
module GitHubController {
  import opened Common

  // ---------------------------------------------------------------------
  // Reading a repository URL

  /** The owner and repository a URL names, or the message of the check that failed. */
  datatype UrlParse = Parsed(user: string, repo: string) | Invalid(message: string)

  /** `repo_url.rstrip('/').split('/')`. */
  function Segments(url: string): (segs: seq<string>)
    ensures |segs| >= 1
    ensures forall k :: 0 <= k < |segs| ==> '/' !in segs[k]
  {
    Split(RStripSlash(url), '/')
  }

  const NotAGitHubUrl := "Invalid GitHub URL. It should be in the format: https://github.com/username/repository"
  const NoUsername := "Invalid GitHub URL. Username not found."
  const NoRepository := "Invalid GitHub URL. Repository name not found."

  /**
   * The owner and repository are the two segments right after the first
   * `github.com` segment (`parts.index('github.com')`, the first one, as
   * `IndexOf` finds it); each missing piece has its own message.
   */
  function ParseRepoUrl(url: string): (r: UrlParse)
    ensures var parts, k := Segments(url), IndexOf(Segments(url), "github.com");
            (k == |parts| <==> "github.com" !in parts) &&
            (k == |parts| ==> r == Invalid(NotAGitHubUrl)) &&
            (k + 1 == |parts| ==> r == Invalid(NoUsername)) &&
            (k + 2 == |parts| ==> r == Invalid(NoRepository)) &&
            (k + 2 < |parts| ==> r == Parsed(parts[k + 1], parts[k + 2]))
    ensures r.Invalid? ==> r.message == NotAGitHubUrl || r.message == NoUsername || r.message == NoRepository
  {
    var parts := Segments(url);
    var k := IndexOf(parts, "github.com");
    if k == |parts| then Invalid(NotAGitHubUrl)
    else if k + 1 >= |parts| then Invalid(NoUsername)
    else if k + 2 >= |parts| then Invalid(NoRepository)
    else Parsed(parts[k + 1], parts[k + 2])
  }

  /** Splitting three separator-free parts off the front of a text. */
  lemma SplitThree(a: string, b: string, c: string, rest: string, sep: char)
    requires sep !in a && sep !in b && sep !in c
    ensures Split(a + [sep] + (b + [sep] + (c + [sep] + rest)), sep) == [a, b, c] + Split(rest, sep)
  {
    var tail := Split(rest, sep);
    calc {
      Split(a + [sep] + (b + [sep] + (c + [sep] + rest)), sep);
      { SplitAtFirst(a, b + [sep] + (c + [sep] + rest), sep); }
      [a] + Split(b + [sep] + (c + [sep] + rest), sep);
      { SplitAtFirst(b, c + [sep] + rest, sep); }
      [a] + ([b] + Split(c + [sep] + rest, sep));
      { SplitAtFirst(c, rest, sep); }
      [a] + ([b] + ([c] + tail));
      { ConsThree(a, b, c, tail); }
      [a, b, c] + tail;
    }
  }

  lemma ConsThree<T>(a: T, b: T, c: T, rest: seq<T>)
    ensures [a] + ([b] + ([c] + rest)) == [a, b, c] + rest
  {
  }

  lemma SchemeShape(scheme: string, rest: string)
    ensures scheme + "//github.com/" + rest == scheme + ['/'] + ("" + ['/'] + ("github.com" + ['/'] + rest))
  {
  }

  /** Splitting behind a `<scheme>//github.com/` head. */
  lemma SplitScheme(scheme: string, rest: string)
    requires '/' !in scheme
    ensures Split(scheme + "//github.com/" + rest, '/') == [scheme, "", "github.com"] + Split(rest, '/')
  {
    SplitThree(scheme, "", "github.com", rest, '/');
    SchemeShape(scheme, rest);
  }

  /** The parts of `<repo><t>` when `t` is empty or starts with `/`. */
  lemma SplitRepoTail(repo: string, t: string)
    requires '/' !in repo
    requires t == [] || t[0] == '/'
    ensures Split(repo + t, '/') == [repo] + (if t == [] then [] else Split(t[1..], '/'))
  {
    if t == [] {
      assert repo + t == repo;
      SplitWithoutSeparator(repo, '/');
    } else {
      assert repo + t == repo + ['/'] + t[1..];
      SplitAtFirst(repo, t[1..], '/');
    }
  }

  /** Trailing slashes of `https://github.com/<user>/<repo><tail>` come off the tail only. */
  lemma StripCanonical(user: string, repo: string, tail: string)
    requires repo != [] && '/' !in repo
    ensures RStripSlash("https://github.com/" + user + "/" + repo + tail) ==
            "https:" + "//github.com/" + (user + ['/'] + (repo + RStripSlash(tail)))
  {
    var head := "https://github.com/" + user + "/" + repo;
    var t := RStripSlash(tail);
    assert head[|head| - 1] != '/' by {
      assert head[|head| - 1] == repo[|repo| - 1];
      assert repo[|repo| - 1] in repo;
    }
    calc {
      RStripSlash(head + tail);
      == { RStripSlashAppend(head, tail); }
      head + t;
      == { Reassociate("https://github.com/", user, "/", repo, t); }
      "https://github.com/" + (user + "/" + (repo + t));
      == { HttpsHead(); }
      "https:" + "//github.com/" + (user + ['/'] + (repo + t));
    }
  }

  /** The head of a canonical URL is its scheme followed by `//github.com/`. */
  lemma HttpsHead()
    ensures "https://github.com/" == "https:" + "//github.com/"
  {
  }

  /** Regrouping the five parts of a URL. */
  lemma Reassociate<T>(a: seq<T>, b: seq<T>, c: seq<T>, d: seq<T>, e: seq<T>)
    ensures a + b + c + d + e == a + (b + c + (d + e))
  {
  }

  /** The segments of `https://github.com/<user>/<repo><tail>`. */
  lemma SegmentsOfCanonical(user: string, repo: string, tail: string)
    requires '/' !in user && '/' !in repo && repo != []
    requires tail == [] || tail[0] == '/'
    ensures var t := RStripSlash(tail);
            Segments("https://github.com/" + user + "/" + repo + tail) ==
            ["https:", "", "github.com", user, repo] + (if t == [] then [] else Split(t[1..], '/'))
  {
    StripCanonical(user, repo, tail);
    var t := RStripSlash(tail);
    assert t == [] || t[0] == '/';
    var x := user + ['/'] + (repo + t);
    var url := "https://github.com/" + user + "/" + repo + tail;
    assert RStripSlash(url) == "https:" + "//github.com/" + x;
    SplitScheme("https:", x);
    assert Segments(url) == ["https:", "", "github.com"] + Split(x, '/');
    SplitAtFirst(user, repo + t, '/');
    assert Split(x, '/') == [user] + Split(repo + t, '/');
    SplitRepoTail(repo, t);
    var rest := if t == [] then [] else Split(t[1..], '/');
    assert Split(repo + t, '/') == [repo] + rest;
    assert Segments(url) == ["https:", "", "github.com"] + ([user] + ([repo] + rest));
    ListShape("https:", "", "github.com", user, repo, rest);
  }

  lemma ListShape<T>(a: T, b: T, c: T, d: T, e: T, rest: seq<T>)
    ensures [a, b, c] + ([d] + ([e] + rest)) == [a, b, c, d, e] + rest
  {
  }

  /** A URL of the documented form reads back as the owner and repository it was made from. */
  lemma ParseCanonical(user: string, repo: string, tail: string)
    requires '/' !in user && '/' !in repo && repo != []
    requires tail == [] || tail[0] == '/'
    ensures ParseRepoUrl("https://github.com/" + user + "/" + repo + tail) == Parsed(user, repo)
  {
    var url := "https://github.com/" + user + "/" + repo + tail;
    SegmentsOfCanonical(user, repo, tail);
    var parts := Segments(url);
    assert parts[0] == "https:" && parts[1] == "" && parts[2] == "github.com";
    assert parts[3] == user && parts[4] == repo;
    SchemeHostIndex(parts);
  }

  /** What a `/tree/` URL selects; an empty `subdir` means the whole repository. */
  datatype Ref = Ref(branch: string, subdir: string)

  /**
   * The branch and sub-directory as `download_repository` reads them: everything
   * after the FIRST `/tree/` anywhere in the URL, split on `/`. A trailing
   * slash leaves an empty sub-directory, which counts as none.
   */
  function TreeRefAsWritten(url: string, branch: string): (t: Ref)
    ensures !Contains(url, "/tree/") ==> t == Ref(branch, "")
    ensures Contains(url, "/tree/") ==> '/' !in t.branch
    ensures Contains(url, "/tree/") && '/' !in AfterTree(url) ==> t == Ref(AfterTree(url), "")
    ensures Contains(url, "/tree/") && '/' in AfterTree(url) ==> AfterTree(url) == t.branch + "/" + t.subdir
  {
    if Contains(url, "/tree/") then
      var after := AfterTree(url);
      var treeParts := Split(after, '/');
      BranchAndRest(after);
      if '/' in after then Ref(treeParts[0], Join(treeParts[1..], '/'))
      else Ref(treeParts[0], "")
    else Ref(branch, "")
  }

  /** The first segment of a text, then `/` and the other segments joined, give back a text that holds a `/`; a text without one is its own first segment. */
  lemma BranchAndRest(after: string)
    ensures '/' in after ==> after == Split(after, '/')[0] + "/" + Join(Split(after, '/')[1..], '/')
    ensures '/' !in after ==> Split(after, '/')[0] == after
  {
    var i := IndexOf(after, '/');
    if i < |after| {
      var rest := after[i + 1..];
      assert Split(after, '/') == [after[..i]] + Split(rest, '/');
      assert Split(after, '/')[1..] == Split(rest, '/');
      JoinSplit(rest, '/');
      assert after == after[..i] + "/" + rest;
    } else {
      assert '/' !in after;
      assert Split(after, '/') == [after];
    }
  }

  /** What follows the first `/tree/` of a URL that contains one. */
  function AfterTree(url: string): (a: string)
    requires Contains(url, "/tree/")
    ensures |a| + 6 <= |url| && StartsWith(url[|url| - |a| - 6..], "/tree/") && url[|url| - |a|..] == a
    ensures forall j :: 0 <= j < |url| - |a| - 6 ==> !StartsWith(url[j..], "/tree/")
  {
    url[Find(url, "/tree/") + 6..]
  }

  /**
   * The branch and sub-directory as intended: taken from the segments that
   * follow the owner and repository, so an owner or repository called `tree`
   * is not mistaken for the marker.
   */
  function TreeRef(url: string, branch: string): (t: Ref)
    ensures t.branch == branch || t.branch in Segments(url)
  {
    var parts := Segments(url);
    var k := IndexOf(parts, "github.com");
    if k + 4 < |parts| && parts[k + 3] == "tree" then Ref(parts[k + 4], Join(parts[k + 5..], '/'))
    else Ref(branch, "")
  }

  /** The positions of a list made of a five-element head, two more elements and a rest. */
  lemma TreeListShape<T>(a: T, b: T, c: T, d: T, e: T, f: T, g: T, rest: seq<T>)
    ensures var l := [a, b, c, d, e] + ([f] + ([g] + rest));
            |l| == 7 + |rest| && l[0] == a && l[1] == b && l[2] == c && l[3] == d && l[4] == e &&
            l[5] == f && l[6] == g && l[7..] == rest
  {
  }

  /** The tail `/tree/<b>[/<dir>]` keeps its last character and splits after its first. */
  lemma TreeTail(b: string, dir: string)
    requires b != [] && '/' !in b
    requires dir == [] || dir[|dir| - 1] != '/'
    ensures var tail := "/tree/" + b + (if dir == [] then "" else "/" + dir);
            RStripSlash(tail) == tail && tail[0] == '/' &&
            tail[1..] == "tree" + ['/'] + (b + (if dir == [] then "" else "/" + dir))
  {
    var sub := if dir == [] then "" else "/" + dir;
    var tail := "/tree/" + b + sub;
    if dir == [] {
      assert tail[|tail| - 1] == b[|b| - 1];
      assert b[|b| - 1] in b;
    } else {
      assert tail[|tail| - 1] == dir[|dir| - 1];
    }
  }

  /** `https://github.com/<user>/<repo>/tree/<branch>[/<dir>]` selects that branch and directory. */
  lemma TreeRefCanonical(user: string, repo: string, b: string, dir: string, default: string)
    requires '/' !in user && '/' !in repo && '/' !in b && repo != [] && b != []
    requires dir == [] || dir[|dir| - 1] != '/'
    ensures TreeRef("https://github.com/" + user + "/" + repo + "/tree/" + b + (if dir == [] then "" else "/" + dir), default)
            == Ref(b, dir)
  {
    var sub := if dir == [] then "" else "/" + dir;
    var tail := "/tree/" + b + sub;
    var url := "https://github.com/" + user + "/" + repo + "/tree/" + b + sub;
    assert url == "https://github.com/" + user + "/" + repo + tail;
    TreeTail(b, dir);
    SegmentsOfCanonical(user, repo, tail);
    SplitAtFirst("tree", b + sub, '/');
    SplitRepoTail(b, sub);
    var rest := if sub == [] then [] else Split(sub[1..], '/');
    assert Split(tail[1..], '/') == ["tree"] + ([b] + rest);
    var parts := Segments(url);
    assert parts == ["https:", "", "github.com", user, repo] + (["tree"] + ([b] + rest));
    TreeListShape("https:", "", "github.com", user, repo, "tree", b, rest);
    SchemeHostIndex(parts);
    if dir != [] {
      assert sub[1..] == dir;
      JoinSplit(dir, '/');
    }
  }

  /** A repository URL with nothing but slashes after the repository selects the default branch and no directory. */
  lemma TreeRefPlainUrl(user: string, repo: string, tail: string, default: string)
    requires '/' !in user && '/' !in repo && repo != []
    requires tail == [] || tail[0] == '/'
    requires RStripSlash(tail) == []
    ensures TreeRef("https://github.com/" + user + "/" + repo + tail, default) == Ref(default, "")
  {
    var url := "https://github.com/" + user + "/" + repo + tail;
    SegmentsOfCanonical(user, repo, tail);
    var parts := Segments(url);
    assert parts == ["https:", "", "github.com", user, repo];
    SchemeHostIndex(parts);
  }

  /**
   * An owner or repository named `tree` is taken for the marker: the URL of
   * branch `main` of `u/tree` is read as branch `tree`, directory `main`.
   */
  lemma TreeRefMisreadsTreeRepository(url: string)
    requires url == "https://github.com/u/tree/tree/main"
    ensures TreeRefAsWritten(url, "main") == Ref("tree", "main")
    ensures TreeRef(url, "main") == Ref("main", "")
  {
    MisreadAsWritten(url);
    ExampleUrlPieces(url);
    TreeRefCanonical("u", "tree", "main", "", "main");
  }

  /** The example URL is canonical: owner `u`, repository `tree`, branch `main`, no directory. */
  lemma ExampleUrlPieces(url: string)
    requires url == "https://github.com/u/tree/tree/main"
    ensures url == "https://github.com/" + "u" + "/" + "tree" + "/tree/" + "main" + (if "" == [] then "" else "/" + "")
    ensures '/' !in "u" && '/' !in "tree" && '/' !in "main"
  {
    assert "u" == ['u'];
    assert "tree" == ['t', 'r', 'e', 'e'];
    assert "main" == ['m', 'a', 'i', 'n'];
  }

  /** A search that finds the needle at `k` and nowhere before it. */
  lemma FindAt(s: string, needle: string, k: nat)
    requires needle != [] && k <= |s| && StartsWith(s[k..], needle)
    requires forall j :: 0 <= j < k ==> !StartsWith(s[j..], needle)
    ensures Find(s, needle) == k
  {
  }

  lemma SlashesOfHead(p: string, j: int)
    requires p == "https://github.com/u"
    requires 0 <= j < |p| && p[j] == '/'
    ensures j == 6 || j == 7 || j == 18
  {
  }

  lemma NoMarkerInHead(url: string, j: nat)
    requires url == "https://github.com/u/tree/tree/main"
    requires j < 20
    ensures !StartsWith(url[j..], "/tree/")
  {
    if StartsWith(url[j..], "/tree/") {
      var w := url[j..j + 6];
      assert w == "/tree/";
      assert w[0] == url[j] && w[1] == url[j + 1];
      assert url[j] == '/' && url[j + 1] == 't';
      var p := url[..20];
      assert p == "https://github.com/u";
      assert p[j] == '/';
      SlashesOfHead(p, j);
    }
  }

  /** The first `/tree/` of that URL is the one after the owner. */
  lemma FirstTreeMarker(url: string)
    requires url == "https://github.com/u/tree/tree/main"
    ensures Find(url, "/tree/") == 20
  {
    forall j | 0 <= j < 20 ensures !StartsWith(url[j..], "/tree/") {
      NoMarkerInHead(url, j);
    }
    assert url[20..][..6] == "/tree/";
    FindAt(url, "/tree/", 20);
  }

  lemma MisreadAsWritten(url: string)
    requires url == "https://github.com/u/tree/tree/main"
    ensures TreeRefAsWritten(url, "main") == Ref("tree", "main")
  {
    FirstTreeMarker(url);
    var parts := Split(url[26..], '/');
    PartsAfterMarker(url);
    assert Join(parts[1..], '/') == "main";
  }

  lemma PartsAfterMarker(url: string)
    requires url == "https://github.com/u/tree/tree/main"
    ensures Split(url[26..], '/') == ["tree", "main"]
  {
    assert url[26..] == "tree/main";
    assert "tree/main" == "tree" + ['/'] + "main";
    SplitAtFirst("tree", "main", '/');
    SplitWithoutSeparator("main", '/');
  }

  /** `f"https://api.github.com/repos/{username}/{repository}/zipball/{branch}"`. */
  function ApiUrl(user: string, repo: string, branch: string): (u: string)
    ensures StartsWith(u, "https://api.github.com/repos/" + user + "/")
    ensures EndsWith(u, "/" + repo + "/zipball/" + branch)
  {
    "https://api.github.com/repos/" + user + "/" + repo + "/zipball/" + branch
  }

  lemma ApiUrlShape(user: string, repo: string, branch: string)
    ensures ApiUrl(user, repo, branch) ==
            "https:" + ['/'] + ("" + ['/'] + ("api.github.com" + ['/'] +
            ("repos" + ['/'] + (user + ['/'] + (repo + ['/'] + ("zipball" + ['/'] + branch))))))
  {
  }

  lemma EightShape<T>(a: T, b: T, c: T, d: T, e: T, f: T, g: T, h: T)
    ensures [a, b, c] + ([d, e, f] + ([g] + [h])) == [a, b, c, d, e, f, g, h]
  {
  }

  /** The archive URL carries the owner, repository and branch as separate path segments. */
  lemma ApiUrlSegments(user: string, repo: string, branch: string)
    requires '/' !in user && '/' !in repo && '/' !in branch
    ensures Split(ApiUrl(user, repo, branch), '/') ==
            ["https:", "", "api.github.com", "repos", user, repo, "zipball", branch]
  {
    ApiUrlShape(user, repo, branch);
    var z := "zipball" + ['/'] + branch;
    SplitWithoutSeparator(branch, '/');
    SplitAtFirst("zipball", branch, '/');
    assert Split(z, '/') == ["zipball"] + [branch];
    var x := "repos" + ['/'] + (user + ['/'] + (repo + ['/'] + z));
    SplitThree("repos", user, repo, z, '/');
    SplitThree("https:", "", "api.github.com", x, '/');
    EightShape("https:", "", "api.github.com", "repos", user, repo, "zipball", branch);
  }

  // ---------------------------------------------------------------------
  // Validating a repository URL

  /** `\w` on ASCII text. */
  predicate WordChar(c: char) { IsAsciiLetter(c) || IsDigit(c) || c == '_' }

  /** `[\w-]+`. */
  predicate OwnerSegment(s: string) { s != [] && forall i :: 0 <= i < |s| ==> WordChar(s[i]) || s[i] == '-' }

  /** `[\w.-]+`. */
  predicate NameSegment(s: string) { s != [] && forall i :: 0 <= i < |s| ==> WordChar(s[i]) || s[i] == '.' || s[i] == '-' }

  /**
   * `[\w-]+/[\w.-]+(/tree/[\w.-]+(/[\w.-]+)*)?` read segment by segment: none of
   * the classes holds `/`, so the pattern matches exactly when the `/`-separated
   * segments are an owner and a name, optionally followed by `tree` and one or
   * more further names.
   */
  predicate ValidPath(segs: seq<string>) {
    (|segs| == 2 || (|segs| >= 4 && segs[2] == "tree")) &&
    OwnerSegment(segs[0]) && forall k :: 1 <= k < |segs| ==> NameSegment(segs[k])
  }

  /** Without MULTILINE, `$` also matches right before a final newline. */
  function UrlBody(url: string): string {
    if url != [] && url[|url| - 1] == '\n' then url[..|url| - 1] else url
  }

  /** The whole URL is `http(s)://github.com/<owner>/<repo>`, optionally followed by `/tree/<branch>` and more path segments; a final line feed is allowed. */
  predicate ValidRepoUrl(url: string)
    ensures ValidRepoUrl(url) ==> StartsWith(url, "https://github.com/") || StartsWith(url, "http://github.com/")
  {
    var body := UrlBody(url);
    (StartsWith(body, "https://github.com/") && ValidPath(Split(body[19..], '/'))) ||
    (StartsWith(body, "http://github.com/") && ValidPath(Split(body[18..], '/')))
  }

  /** After `<scheme>//github.com/`, a valid path ends in something other than `/`. */
  lemma ValidPathNoTrailingSlash(rest: string)
    requires ValidPath(Split(rest, '/'))
    ensures rest != [] && rest[|rest| - 1] != '/'
  {
    if rest != [] && rest[|rest| - 1] == '/' {
      SplitTrailingSeparator(rest, '/');
    }
  }

  /** A URL that starts with the scheme and host is that head followed by the rest. */
  lemma HeadAndRest(url: string, https: bool)
    requires if https then StartsWith(url, "https://github.com/") else StartsWith(url, "http://github.com/")
    ensures url == (if https then "https:" else "http:") + "//github.com/" + url[if https then 19 else 18..]
  {
    if https {
      assert url[..19] == "https://github.com/";
      assert url == url[..19] + url[19..];
    } else {
      assert url[..18] == "http://github.com/";
      assert url == url[..18] + url[18..];
    }
  }

  /** A URL that ends like the rest of it keeps its trailing character. */
  lemma NoTrailingSlash(url: string, n: nat)
    requires n < |url| && url[|url| - 1] != '/'
    ensures RStripSlash(url) == url
  {
  }

  /** The first `github.com` of segments behind a scheme is the third. */
  lemma SchemeHostIndex(parts: seq<string>)
    requires |parts| >= 3 && (parts[0] == "https:" || parts[0] == "http:") && parts[1] == "" && parts[2] == "github.com"
    ensures IndexOf(parts, "github.com") == 2
  {
    var i := IndexOf(parts, "github.com");
    assert i <= 2;
    assert i != 0 && i != 1;
  }

  /** The segments of a valid URL: the scheme, an empty segment, the host, then the path's segments. */
  lemma ValidSegments(url: string)
    requires ValidRepoUrl(url) && !EndsWith(url, "\n")
    ensures var https := StartsWith(url, "https://github.com/");
            Segments(url) == [if https then "https:" else "http:", "", "github.com"] + Split(url[if https then 19 else 18..], '/')
  {
    BodyOfUnterminated(url);
    if StartsWith(url, "https://github.com/") {
      HttpsSegments(url);
    } else {
      HttpSegments(url);
    }
  }

  /** The `https` case of `ValidSegments`. */
  lemma HttpsSegments(url: string)
    requires UrlBody(url) == url && StartsWith(url, "https://github.com/") && ValidPath(Split(url[19..], '/'))
    ensures Segments(url) == ["https:", "", "github.com"] + Split(url[19..], '/')
  {
    ValidTail(url, url[19..], true);
    SplitScheme("https:", url[19..]);
  }

  /** The `http` case of `ValidSegments`. */
  lemma HttpSegments(url: string)
    requires UrlBody(url) == url && StartsWith(url, "http://github.com/") && ValidPath(Split(url[18..], '/'))
    ensures Segments(url) == ["http:", "", "github.com"] + Split(url[18..], '/')
  {
    ValidTail(url, url[18..], false);
    SplitScheme("http:", url[18..]);
  }

  /** A URL that does not end in a line feed is its own body. */
  lemma BodyOfUnterminated(url: string)
    requires !EndsWith(url, "\n")
    ensures UrlBody(url) == url
  {
    if url != [] && url[|url| - 1] == '\n' {
      assert false;
    }
  }

  /** A valid URL is its head followed by a path that ends in something other than `/`. */
  lemma ValidTail(url: string, rest: string, https: bool)
    requires if https then StartsWith(url, "https://github.com/") && rest == url[19..]
             else StartsWith(url, "http://github.com/") && rest == url[18..]
    requires ValidPath(Split(rest, '/'))
    ensures RStripSlash(url) == url == (if https then "https:" else "http:") + "//github.com/" + rest
  {
    HeadAndRest(url, https);
    ValidPathNoTrailingSlash(rest);
    assert url[|url| - 1] == rest[|rest| - 1];
    NoTrailingSlash(url, if https then 19 else 18);
  }

  /**
   * A URL that passes validation (and does not end in a newline) never reaches
   * the parser's error messages: its owner and repository are the first two
   * segments after the host.
   */
  lemma ValidUrlParses(url: string)
    requires ValidRepoUrl(url) && !EndsWith(url, "\n")
    ensures var scheme := if StartsWith(url, "https://github.com/") then 19 else 18;
            var segs := Split(url[scheme..], '/');
            ParseRepoUrl(url) == Parsed(segs[0], segs[1])
  {
    ValidSegments(url);
    BodyOfUnterminated(url);
    var https := StartsWith(url, "https://github.com/");
    var segs := Split(url[if https then 19 else 18..], '/');
    assert |segs| >= 2;
    ParsedAfterHead(url, if https then "https:" else "http:", segs);
  }

  /** A URL whose segments are a scheme, an empty segment, the host, then owner and repository, parses to them. */
  lemma ParsedAfterHead(url: string, scheme: string, segs: seq<string>)
    requires scheme == "https:" || scheme == "http:"
    requires |segs| >= 2 && Segments(url) == [scheme, "", "github.com"] + segs
    ensures ParseRepoUrl(url) == Parsed(segs[0], segs[1])
  {
    var parts := Segments(url);
    assert parts[0] == scheme && parts[1] == "" && parts[2] == "github.com";
    assert parts[3] == segs[0] && parts[4] == segs[1];
    SchemeHostIndex(parts);
  }

  // ---------------------------------------------------------------------
  // The prefix of scripts from other repositories

  const DefaultRepo := "itsmikethetech/WinPick-Scripts"

  /** `repo_prefix` and `is_default_repo`. */
  datatype Prefix = Prefix(prefix: string, isDefault: bool)

  /**
   * The default repository (compared case-insensitively) gets no prefix;
   * any other gets `<owner>-<repository>-` in lower case. A URL the segments
   * of which name no owner and repository gets no prefix either.
   */
  function RepoPrefix(url: string): (p: Prefix)
    ensures p.isDefault ==> p.prefix == ""
    ensures p.prefix != [] ==> p.prefix[|p.prefix| - 1] == '-'
  {
    var parts := Segments(url);
    var k := IndexOf(parts, "github.com");
    if k + 2 < |parts| then PrefixFor(parts[k + 1], parts[k + 2])
    else Prefix("", false)
  }

  /** The prefix for an owner and a repository. */
  function PrefixFor(user: string, repo: string): Prefix {
    if Lower(user + "/" + repo) == Lower(DefaultRepo) then Prefix("", true)
    else Prefix(Lower(user) + "-" + Lower(repo) + "-", false)
  }

  /** The default-repository test compares the lower-cased owner and repository with the lower-cased default. */
  lemma PrefixForLower(user: string, repo: string)
    ensures PrefixFor(user, repo) ==
              if Lower(user) + "/" + Lower(repo) == "itsmikethetech/winpick-scripts" then Prefix("", true)
              else Prefix(Lower(user) + "-" + Lower(repo) + "-", false)
  {
    LowerSlashed(user, repo);
    LowerDefaultRepo();
  }

  /** The prefix is computed from the same owner and repository the parser reads. */
  lemma PrefixOfParsed(url: string)
    requires ParseRepoUrl(url).Parsed?
    ensures var r := ParseRepoUrl(url);
            RepoPrefix(url) ==
              if Lower(r.user) + "/" + Lower(r.repo) == "itsmikethetech/winpick-scripts" then Prefix("", true)
              else Prefix(Lower(r.user) + "-" + Lower(r.repo) + "-", false)
  {
    var r := ParseRepoUrl(url);
    PrefixOfParsedOwner(url);
    PrefixForLower(r.user, r.repo);
  }

  /** The prefix is computed from the owner and repository the parser reads. */
  lemma PrefixOfParsedOwner(url: string)
    requires ParseRepoUrl(url).Parsed?
    ensures RepoPrefix(url) == PrefixFor(ParseRepoUrl(url).user, ParseRepoUrl(url).repo)
  {
    var parts := Segments(url);
    var k := IndexOf(parts, "github.com");
    assert k + 2 < |parts|;
  }

  /** Lower-casing `<a>/<b>`. */
  lemma LowerSlashed(a: string, b: string)
    ensures Lower(a + "/" + b) == Lower(a) + "/" + Lower(b)
  {
    LowerAppend(a + "/", b);
    LowerAppend(a, "/");
    assert Lower("/") == "/";
  }

  /** The default repository's name, lower-cased. */
  lemma LowerDefaultRepo()
    ensures Lower(DefaultRepo) == "itsmikethetech/winpick-scripts"
  {
  }

  /** The default repository gets no prefix, whatever the case of its name in the URL. */
  lemma DefaultRepoAnyCase(url: string, user: string, repo: string)
    requires url == "https://github.com/" + user + "/" + repo
    requires '/' !in user && '/' !in repo && repo != []
    requires Lower(user) == "itsmikethetech" && Lower(repo) == "winpick-scripts"
    ensures RepoPrefix(url) == Prefix("", true)
  {
    assert url == "https://github.com/" + user + "/" + repo + "";
    ParseCanonical(user, repo, "");
    PrefixOfParsed(url);
    DefaultNameParts();
  }

  lemma DefaultNameParts()
    ensures "itsmikethetech" + "/" + "winpick-scripts" == "itsmikethetech/winpick-scripts"
  {
  }

  /** Lower-casing `<a>-<b>`. */
  lemma LowerDashed(a: string, b: string)
    ensures Lower(a + "-" + b) == Lower(a) + "-" + Lower(b)
  {
    LowerAppend(a + "-", b);
    LowerAppend(a, "-");
    assert Lower("-") == "-";
  }

  /** The prefix of a canonical repository URL outside the default repository. */
  lemma PrefixOfCanonical(user: string, repo: string)
    requires '/' !in user && '/' !in repo && repo != []
    requires Lower(user) + "/" + Lower(repo) != "itsmikethetech/winpick-scripts"
    ensures RepoPrefix("https://github.com/" + user + "/" + repo) == Prefix(Lower(user) + "-" + Lower(repo) + "-", false)
  {
    var url := "https://github.com/" + user + "/" + repo;
    assert url == url + "";
    ParseCanonical(user, repo, "");
    PrefixOfParsed(url);
  }

  /**
   * Two different repositories can share a prefix: `<a>-<b>/<c>` and
   * `<a>/<b>-<c>` both get `<a>-<b>-<c>-`, so their scripts can overwrite
   * each other in a flat copy.
   */
  lemma PrefixCollision(a: string, b: string, c: string)
    requires '/' !in a && '/' !in b && '/' !in c && c != []
    requires Lower(a + "-" + b) + "/" + Lower(c) != "itsmikethetech/winpick-scripts"
    requires Lower(a) + "/" + Lower(b + "-" + c) != "itsmikethetech/winpick-scripts"
    ensures RepoPrefix("https://github.com/" + (a + "-" + b) + "/" + c) ==
            RepoPrefix("https://github.com/" + a + "/" + (b + "-" + c)) ==
            Prefix(Lower(a) + "-" + Lower(b) + "-" + Lower(c) + "-", false)
  {
    assert '/' !in a + "-" + b && '/' !in b + "-" + c;
    PrefixOfCanonical(a + "-" + b, c);
    PrefixOfCanonical(a, b + "-" + c);
    LowerDashed(a, b);
    LowerDashed(b, c);
    Regroup(Lower(a), "-", Lower(b), Lower(c));
  }

  /** Regrouping three names joined by a separator that also ends the result. */
  lemma Regroup<T>(a: seq<T>, d: seq<T>, b: seq<T>, c: seq<T>)
    ensures (a + d + b) + d + c + d == a + d + (b + d + c) + d
  {
  }

  // ---------------------------------------------------------------------
  // Copying the script files of a tree

  /** A file `os.walk` visits: the directory it is in, relative to the walk's root (`.` for the root itself), and its name. */
  datatype WalkFile = WalkFile(rel: string, name: string)

  /** A file whose lower-cased extension is one of the script extensions. */
  predicate IsScriptEntry(f: WalkFile) { IsScriptExt(LowerExt(f.name)) }

  /** The prefix, then the stem, then the extension when a prefix is given; otherwise the name itself. */
  function DestName(prefix: string, name: string): (d: string)
    ensures d == prefix + name
  {
    if prefix != "" then prefix + Root(name) + Ext(name) else name
  }

  /** A prefixed script keeps its extension, so it is still listed as a script of that type. */
  lemma DestNameKeepsType(prefix: string, name: string)
    requires forall i :: 0 <= i < |prefix| ==> !IsSep(prefix[i])
    requires forall i :: 0 <= i < |name| ==> !IsSep(name[i])
    requires IsScriptExt(LowerExt(name))
    ensures LowerExt(DestName(prefix, name)) == LowerExt(name)
  {
    assert Ext(name) != [];
    ExtAfterPrefix(prefix, name);
  }

  /** Where the flat copy puts a file: straight into the category directory. */
  function FlatDest(dir: string, prefix: string): WalkFile -> string {
    (f: WalkFile) => JoinPath(dir, DestName(prefix, f.name))
  }

  /** Where a copy that keeps the folder structure puts a file: under its relative directory. */
  function StructuredDest(outputDir: string, prefix: string): WalkFile -> string {
    (f: WalkFile) => JoinPath(if f.rel == "." then outputDir else JoinPath(outputDir, f.rel), DestName(prefix, f.name))
  }

  /**
   * The loop the three copy routines share: each visited file with a script
   * extension is copied to `dest` of it, in the order of the walk; every other
   * file is passed over. The number of copies is the count returned.
   */
  method CopyScripts(files: seq<WalkFile>, dest: WalkFile -> string) returns (copied: seq<string>)
    ensures copied == FilterMap(files, IsScriptEntry, dest)
    ensures |copied| == Count(files, IsScriptEntry)
  {
    copied := [];
    var i := 0;
    while i < |files|
      invariant 0 <= i <= |files|
      invariant copied == FilterMap(files[..i], IsScriptEntry, dest)
    {
      var file := files[i];
      FilterMapStep(files, i, IsScriptEntry, dest);
      if IsScriptEntry(file) {
        copied := copied + [dest(file)];
      }
      i := i + 1;
    }
    assert files[..i] == files;
    FilterMapCount(files, IsScriptEntry, dest);
  }

  /** `_copy_scripts_to_category`: every script of the walk, prefixed, into one directory. */
  method CopyScriptsToCategory(categoryPath: string, prefix: string, files: seq<WalkFile>)
    returns (count: nat, copied: seq<string>)
    ensures copied == FilterMap(files, IsScriptEntry, FlatDest(categoryPath, prefix))
    ensures count == |copied| == Count(files, IsScriptEntry)
  {
    copied := CopyScripts(files, FlatDest(categoryPath, prefix));
    count := |copied|;
  }

  /** Whether the file lies in the top-level folder `dir` or below it. */
  function InFolder(dir: string): WalkFile -> bool {
    (f: WalkFile) => f.rel == dir || StartsWith(f.rel, dir + "\\")
  }

  /** The same file seen from a walk rooted at the top-level folder `dir`. */
  function Rebase(dir: string): WalkFile -> WalkFile {
    (f: WalkFile) => WalkFile(if StartsWith(f.rel, dir + "\\") then f.rel[|dir| + 1..] else ".", f.name)
  }

  /** What `os.walk` visits below the top-level folder `dir` of a tree. */
  function Under(tree: seq<WalkFile>, dir: string): (r: seq<WalkFile>)
    ensures |r| <= |tree|
  {
    FilterMap(tree, InFolder(dir), Rebase(dir))
  }

  /**
   * The files `_copy_with_structure` walks: it looks at the first name
   * `os.listdir` returns for the source directory and, when that is a folder,
   * walks only that folder; otherwise it walks the whole source.
   */
  function WalkedAsWritten(tree: seq<WalkFile>, items: seq<string>, firstIsDir: bool): seq<WalkFile> {
    if items == [] then [] else if firstIsDir then Under(tree, items[0]) else tree
  }

  /** `repo_prefix if repo_prefix and not is_default_repo else ""`. */
  function EffectivePrefix(prefix: string, isDefault: bool): string {
    if prefix != "" && !isDefault then prefix else ""
  }

  /**
   * `_copy_with_structure` as written. `tree` lists every file below the
   * source directory, `items` is what `os.listdir` returns for it and
   * `firstIsDir` whether its first entry is a folder.
   */
  method CopyWithStructure(outputDir: string, prefix: string, isDefault: bool,
                           items: seq<string>, firstIsDir: bool, tree: seq<WalkFile>)
    returns (count: nat, copied: seq<string>)
    ensures items == [] ==> count == 0 && copied == []
    ensures copied == FilterMap(WalkedAsWritten(tree, items, firstIsDir), IsScriptEntry,
                                StructuredDest(outputDir, EffectivePrefix(prefix, isDefault)))
    ensures count == |copied|
  {
    if items == [] {
      return 0, [];
    }
    var walked := if firstIsDir then Under(tree, items[0]) else tree;
    copied := CopyScripts(walked, StructuredDest(outputDir, EffectivePrefix(prefix, isDefault)));
    count := |copied|;
  }

  /** A script of the tree outside the top-level folder `dir`. */
  function ScriptOutside(dir: string): WalkFile -> bool {
    (f: WalkFile) => IsScriptEntry(f) && !InFolder(dir)(f)
  }

  lemma CountSnoc<A>(xs: seq<A>, x: A, keep: A -> bool)
    ensures Count(xs + [x], keep) == Count(xs, keep) + (if keep(x) then 1 else 0)
  {
    assert (xs + [x])[..|xs|] == xs;
  }

  /** The scripts of a tree split into those below `dir` and those outside it. */
  lemma {:induction false} ScriptsUnderAndOutside(tree: seq<WalkFile>, dir: string)
    ensures Count(Under(tree, dir), IsScriptEntry) + Count(tree, ScriptOutside(dir)) == Count(tree, IsScriptEntry)
  {
    if tree != [] {
      var front, last := tree[..|tree| - 1], tree[|tree| - 1];
      assert tree == front + [last];
      ScriptsUnderAndOutside(front, dir);
      CountSnoc(front, last, IsScriptEntry);
      CountSnoc(front, last, ScriptOutside(dir));
      FilterMapSnoc(front, last, InFolder(dir), Rebase(dir));
      if InFolder(dir)(last) {
        assert Under(tree, dir) == Under(front, dir) + [Rebase(dir)(last)];
        CountSnoc(Under(front, dir), Rebase(dir)(last), IsScriptEntry);
        assert IsScriptEntry(Rebase(dir)(last)) == IsScriptEntry(last);
      } else {
        assert Under(tree, dir) == Under(front, dir);
      }
    }
  }

  lemma {:induction false} CountWitness<A>(xs: seq<A>, keep: A -> bool, x: A)
    requires x in xs && keep(x)
    ensures Count(xs, keep) > 0
  {
    var front, last := xs[..|xs| - 1], xs[|xs| - 1];
    if last != x {
      assert xs == front + [last];
      CountWitness(front, keep, x);
    }
  }

  /**
   * The download leaves the scripts in the temporary directory with their
   * folders; when the first listed entry is one of those folders, the copy
   * as written walks only that folder, so every script outside it is lost.
   */
  lemma FirstFolderOnly(tree: seq<WalkFile>, items: seq<string>, dest: WalkFile -> string, lost: WalkFile)
    requires items != [] && lost in tree && IsScriptEntry(lost) && !InFolder(items[0])(lost)
    ensures |FilterMap(WalkedAsWritten(tree, items, true), IsScriptEntry, dest)| < Count(tree, IsScriptEntry)
  {
    var walked := Under(tree, items[0]);
    FilterMapCount(walked, IsScriptEntry, dest);
    ScriptsUnderAndOutside(tree, items[0]);
    CountWitness(tree, ScriptOutside(items[0]), lost);
  }

  /**
   * `_copy_with_structure` as intended: the temporary directory already holds
   * the repository's scripts with their folders, so every script in it is
   * copied, each under its own relative directory.
   */
  method CopyTreeWithStructure(outputDir: string, prefix: string, isDefault: bool, tree: seq<WalkFile>)
    returns (count: nat, copied: seq<string>)
    ensures copied == FilterMap(tree, IsScriptEntry, StructuredDest(outputDir, EffectivePrefix(prefix, isDefault)))
    ensures count == |copied| == Count(tree, IsScriptEntry)
  {
    copied := CopyScripts(tree, StructuredDest(outputDir, EffectivePrefix(prefix, isDefault)));
    count := |copied|;
  }

  /** Every copied destination comes from a script of the tree, and every script is copied. */
  lemma CopiedAreScripts(tree: seq<WalkFile>, dest: WalkFile -> string, d: string)
    ensures d in FilterMap(tree, IsScriptEntry, dest) <==> exists f :: f in tree && IsScriptEntry(f) && d == dest(f)
  {
    FilterMapMembers(tree, IsScriptEntry, dest, d);
  }

  // ---------------------------------------------------------------------
  // Downloading

  /** The folder whose files are copied: the first extracted entry, or the requested sub-directory of it when that exists. */
  function RepoFolder(extractDir: string, first: string, subdir: string, subdirIsDir: bool): string {
    var root := JoinPath(extractDir, first);
    if subdir != "" && subdirIsDir then JoinPath(root, subdir) else root
  }

  /**
   * `GitHubDownloaderWeb.download_repository` once the branch and
   * sub-directory `ref` have been read from the URL. `status` is the archive
   * request's status code, `extracted` what `os.listdir` returns for the
   * extraction directory, `subdirIsDir` whether the requested sub-directory is
   * a folder there and `walk` what `os.walk` visits from a folder. Returns
   * the success flag, the archive URL requested and the destinations copied.
   */
  method DownloadWithRef(url: string, ref: Ref, outputDir: string, extractDir: string,
                         status: int, extracted: seq<string>, subdirIsDir: bool,
                         walk: string -> seq<WalkFile>)
    returns (ok: bool, request: Option<string>, copied: seq<string>)
    ensures ParseRepoUrl(url).Invalid? ==> !ok && request == None && copied == []
    ensures ParseRepoUrl(url).Parsed? ==>
              request == Some(ApiUrl(ParseRepoUrl(url).user, ParseRepoUrl(url).repo, ref.branch))
    ensures ok <==> ParseRepoUrl(url).Parsed? && status == 200 && extracted != []
    ensures ok ==> copied == FilterMap(walk(RepoFolder(extractDir, extracted[0], ref.subdir, subdirIsDir)),
                                       IsScriptEntry, StructuredDest(outputDir, ""))
    ensures !ok ==> copied == []
  {
    var parsed := ParseRepoUrl(url);
    if parsed.Invalid? {
      return false, None, [];
    }
    request := Some(ApiUrl(parsed.user, parsed.repo, ref.branch));
    if status != 200 || extracted == [] {
      return false, request, [];
    }
    var folder := RepoFolder(extractDir, extracted[0], ref.subdir, subdirIsDir);
    copied := CopyScripts(walk(folder), StructuredDest(outputDir, ""));
    ok := true;
  }

  /**
   * `GitHubDownloaderWeb.download_repository` as written: the branch and
   * sub-directory come from `TreeRefAsWritten`, so a repository called
   * `tree` or a URL ending in `/tree/` asks for the archive of the branch
   * read there.
   */
  method DownloadRepositoryWeb(url: string, branch: string, outputDir: string, extractDir: string,
                               status: int, extracted: seq<string>, subdirIsDir: bool,
                               walk: string -> seq<WalkFile>)
    returns (ok: bool, request: Option<string>, copied: seq<string>)
    ensures ParseRepoUrl(url).Invalid? ==> !ok && request == None && copied == []
    ensures ParseRepoUrl(url).Parsed? ==>
              request == Some(ApiUrl(ParseRepoUrl(url).user, ParseRepoUrl(url).repo, TreeRefAsWritten(url, branch).branch))
    ensures ok <==> ParseRepoUrl(url).Parsed? && status == 200 && extracted != []
    ensures ok ==> copied == FilterMap(walk(RepoFolder(extractDir, extracted[0], TreeRefAsWritten(url, branch).subdir, subdirIsDir)),
                                       IsScriptEntry, StructuredDest(outputDir, ""))
    ensures !ok ==> copied == []
  {
    ok, request, copied := DownloadWithRef(url, TreeRefAsWritten(url, branch), outputDir, extractDir,
                                           status, extracted, subdirIsDir, walk);
  }

  /** The same download with the branch and sub-directory read as intended, by `TreeRef`. */
  method DownloadRepositoryFixed(url: string, branch: string, outputDir: string, extractDir: string,
                                 status: int, extracted: seq<string>, subdirIsDir: bool,
                                 walk: string -> seq<WalkFile>)
    returns (ok: bool, request: Option<string>, copied: seq<string>)
    ensures ParseRepoUrl(url).Invalid? ==> !ok && request == None && copied == []
    ensures ParseRepoUrl(url).Parsed? ==>
              request == Some(ApiUrl(ParseRepoUrl(url).user, ParseRepoUrl(url).repo, TreeRef(url, branch).branch))
    ensures ok <==> ParseRepoUrl(url).Parsed? && status == 200 && extracted != []
    ensures ok ==> copied == FilterMap(walk(RepoFolder(extractDir, extracted[0], TreeRef(url, branch).subdir, subdirIsDir)),
                                       IsScriptEntry, StructuredDest(outputDir, ""))
    ensures !ok ==> copied == []
  {
    ok, request, copied := DownloadWithRef(url, TreeRef(url, branch), outputDir, extractDir,
                                           status, extracted, subdirIsDir, walk);
  }

  /** The dictionary `download_scripts_from_repo_web` returns. */
  datatype RepoResult = RepoResult(success: bool, message: string, filesCount: Option<nat>)

  /** The answers `download_scripts_from_repo_web` gives before copying anything, or `None` when it goes on to copy. */
  function RepoRefusal(url: string, downloaded: bool): (r: Option<RepoResult>)
    ensures url == [] ==> r == Some(RepoResult(false, "Repository URL is required", None))
    ensures url != [] && !ValidRepoUrl(url) ==> r == Some(RepoResult(false, "Invalid GitHub repository URL", None))
    ensures ValidRepoUrl(url) && !downloaded ==> r == Some(RepoResult(false, "Failed to download repository content", None))
    ensures r.None? <==> ValidRepoUrl(url) && downloaded
  {
    if url == [] then Some(RepoResult(false, "Repository URL is required", None))
    else if !ValidRepoUrl(url) then Some(RepoResult(false, "Invalid GitHub repository URL", None))
    else if !downloaded then Some(RepoResult(false, "Failed to download repository content", None))
    else None
  }

  /** The success answer for `n` copied scripts. */
  function Downloaded(url: string, n: nat): RepoResult {
    RepoResult(true, "Successfully downloaded " + NatToString(n) + " scripts from " + url, Some(n))
  }

  /**
   * `download_scripts_from_repo_web` as written. `downloaded` is the
   * download's result, `tree` the files it left in the temporary directory,
   * `items` what `os.listdir` returns for that directory and `firstIsDir`
   * whether its first entry is a folder. With `preserve_structure` (the
   * default), only the walk `CopyWithStructure` makes is copied and counted.
   */
  method DownloadScriptsFromRepoWeb(url: string, outputDir: string, preserveStructure: bool,
                                    downloaded: bool, tree: seq<WalkFile>, items: seq<string>, firstIsDir: bool)
    returns (r: RepoResult, copied: seq<string>)
    ensures RepoRefusal(url, downloaded).Some? ==> r == RepoRefusal(url, downloaded).value && copied == []
    ensures r.success <==> ValidRepoUrl(url) && downloaded
    ensures r.success ==> r == Downloaded(url, |copied|)
    ensures r.success && preserveStructure ==>
              copied == FilterMap(WalkedAsWritten(tree, items, firstIsDir), IsScriptEntry,
                                  StructuredDest(outputDir, RepoPrefix(url).prefix))
    ensures r.success && !preserveStructure ==>
              copied == FilterMap(tree, IsScriptEntry, FlatDest(outputDir, RepoPrefix(url).prefix))
  {
    var refusal := RepoRefusal(url, downloaded);
    if refusal.Some? {
      return refusal.value, [];
    }
    var p := RepoPrefix(url);
    var count: nat;
    if preserveStructure {
      count, copied := CopyWithStructure(outputDir, if !p.isDefault then p.prefix else "", p.isDefault, items, firstIsDir, tree);
    } else {
      count, copied := CopyScriptsToCategory(outputDir, p.prefix, tree);
    }
    r := Downloaded(url, count);
  }

  /**
   * `download_scripts_from_repo_web` with the copy that keeps the folder
   * structure corrected (`CopyTreeWithStructure`): every script the download
   * left is copied and counted, whichever copy is chosen.
   */
  method DownloadScriptsFromRepoFixed(url: string, outputDir: string, preserveStructure: bool,
                                      downloaded: bool, tree: seq<WalkFile>)
    returns (r: RepoResult, copied: seq<string>)
    ensures RepoRefusal(url, downloaded).Some? ==> r == RepoRefusal(url, downloaded).value && copied == []
    ensures r.success <==> ValidRepoUrl(url) && downloaded
    ensures r.success ==> r == Downloaded(url, Count(tree, IsScriptEntry))
    ensures r.success ==>
              copied == FilterMap(tree, IsScriptEntry,
                                  if preserveStructure then StructuredDest(outputDir, RepoPrefix(url).prefix)
                                  else FlatDest(outputDir, RepoPrefix(url).prefix))
  {
    var refusal := RepoRefusal(url, downloaded);
    if refusal.Some? {
      return refusal.value, [];
    }
    var p := RepoPrefix(url);
    var count: nat;
    if preserveStructure {
      count, copied := CopyTreeWithStructure(outputDir, if !p.isDefault then p.prefix else "", p.isDefault, tree);
    } else {
      count, copied := CopyScriptsToCategory(outputDir, p.prefix, tree);
    }
    r := Downloaded(url, count);
  }
}
