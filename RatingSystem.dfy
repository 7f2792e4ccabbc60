/**
 * Script ratings kept as GitHub issues (`src/utils/rating_system.py` and its
 * web twin `web_app/controllers/rating_system_web.py`, which differ only in
 * the user name recorded when the account's details are unavailable).
 *
 * A rating is an issue titled `Script Rating: <id> - <rating>/5`; reading
 * one back takes the most recent issue of the script and the first
 * `<digits>/5` of its title. Ratings are cached per script id together with
 * the time they were fetched, and a cached entry younger than 1800 seconds
 * is answered without asking GitHub. The clock, the authentication state
 * and GitHub's replies are inputs.
 */
module RatingSystem {
  import opened Common

  /** The script's name, an underscore, then the base name of its path. */
  function ScriptId(path: string, name: string): (id: string)
    ensures |id| == |name| + 1 + |Basename(path)|
    ensures id[..|name|] == name && id[|name|] == '_' && id[|name| + 1..] == Basename(path)
  {
    name + "_" + Basename(path)
  }

  /** Scripts of the same name and file name share an id, whatever folders they are in. */
  lemma ScriptIdIgnoresFolder(dir1: string, dir2: string, file: string, name: string)
    requires forall i :: 0 <= i < |file| ==> !IsSep(file[i])
    requires file != [] && !(|file| >= 2 && file[1] == ':')
    ensures ScriptId(dir1 + "\\" + file, name) == ScriptId(dir2 + "\\" + file, name) == name + "_" + file
  {
    BasenameAfterSeparator(dir1, file);
    BasenameAfterSeparator(dir2, file);
  }

  lemma BasenameAfterSeparator(dir: string, file: string)
    requires forall i :: 0 <= i < |file| ==> !IsSep(file[i])
    requires file != []
    ensures Basename(dir + "\\" + file) == file
  {
    var p := dir + "\\" + file;
    var q := if |p| >= 2 && !IsSep(p[0]) && p[1] == ':' then p[2..] else p;
    assert q == (if |p| >= 2 && !IsSep(p[0]) && p[1] == ':' then p[2..|dir| + 1] else dir + "\\") + file;
    NameStartAfterSeparator(q, |q| - |file|);
  }

  lemma NameStartAfterSeparator(q: string, k: nat)
    requires 0 < k <= |q| && IsSep(q[k - 1])
    requires forall i :: k <= i < |q| ==> !IsSep(q[i])
    ensures NameStart(q) == k
  {
  }

  /** The `_` between name and file is not a unique separator: two different scripts can share an id. */
  lemma ScriptIdCollision(a: string, b: string, c: string)
    requires forall i :: 0 <= i < |b| ==> !IsSep(b[i]) && b[i] != ':'
    requires forall i :: 0 <= i < |c| ==> !IsSep(c[i]) && c[i] != ':'
    ensures ScriptId(c, a + "_" + b) == ScriptId(b + "_" + c, a) == a + "_" + b + "_" + c
  {
    var bc := b + "_" + c;
    forall i | 0 <= i < |bc| ensures !IsSep(bc[i]) && bc[i] != ':' {
      if i < |b| { assert bc[i] == b[i]; } else if i > |b| { assert bc[i] == c[i - |b| - 1]; }
    }
    PlainBasename(c);
    PlainBasename(bc);
    Regroup(a, "_", b, "_", c);
  }

  lemma Regroup<T>(a: seq<T>, u: seq<T>, b: seq<T>, v: seq<T>, c: seq<T>)
    ensures a + u + (b + v + c) == a + u + b + v + c
  {
  }

  /** A name without separators or colons is its own base name. */
  lemma PlainBasename(p: string)
    requires forall i :: 0 <= i < |p| ==> !IsSep(p[i]) && p[i] != ':'
    ensures Basename(p) == p
  {
    assert !(|p| >= 2 && p[1] == ':');
  }

  // ---------------------------------------------------------------------
  // Titles

  /** The title of a rating issue; `ratingText` is `str(rating)`. */
  function Title(id: string, ratingText: string): (t: string)
    ensures StartsWith(t, "Script Rating: " + id + " - ")
    ensures EndsWith(t, ratingText + "/5")
  {
    "Script Rating: " + id + " - " + ratingText + "/5"
  }

  /** The length of the run of ASCII digits `t` starts with. */
  function DigitRun(t: string): (n: nat)
    ensures n <= |t|
    ensures forall i :: 0 <= i < n ==> IsDigit(t[i])
    ensures n < |t| ==> !IsDigit(t[n])
  {
    if t != [] && IsDigit(t[0]) then 1 + DigitRun(t[1..]) else 0
  }

  /**
   * The first run of digits followed by `/5`, read as a number. The search tries
   * each start in turn; from a start, the greedy digit run can only be
   * followed by `/5` in full, since every shorter run is followed by a digit.
   */
  function DecodeRating(t: string): (r: Option<nat>)
    ensures r.Some? ==> exists j :: RatingAt(t, j)
    decreases |t|
  {
    if t == [] then None
    else
      var n := DigitRun(t);
      if n > 0 && StartsWith(t[n..], "/5") then
        assert RatingAt(t, n);
        Some(DigitsValue(t[..n]))
      else
        var r := DecodeRating(t[1..]);
        if r.Some? then
          var j :| RatingAt(t[1..], j);
          assert RatingAt(t, j + 1);
          r
        else r
  }

  /** A `/5` right after a digit, at position `j`. */
  predicate RatingAt(t: string, j: int) {
    0 < j && j + 1 < |t| && IsDigit(t[j - 1]) && t[j] == '/' && t[j + 1] == '5'
  }

  /** A title yields a rating exactly when some `/5` follows a digit. */
  lemma {:induction false} DecodeFinds(t: string)
    ensures DecodeRating(t).Some? <==> exists j :: RatingAt(t, j)
    decreases |t|
  {
    if t != [] {
      var n := DigitRun(t);
      if n > 0 && StartsWith(t[n..], "/5") {
        assert RatingAt(t, n);
      } else {
        DecodeFinds(t[1..]);
        if exists j :: RatingAt(t, j) {
          var j :| RatingAt(t, j);
          assert j != 1;
          assert RatingAt(t[1..], j - 1);
        }
        if exists j :: RatingAt(t[1..], j) {
          var j :| RatingAt(t[1..], j);
          assert RatingAt(t, j + 1);
        }
      }
    }
  }

  /** The digit run of text that has a non-digit stays inside that text. */
  lemma {:induction false} DigitRunInside(p: string, s: string)
    requires exists i :: 0 <= i < |p| && !IsDigit(p[i])
    ensures DigitRun(p + s) == DigitRun(p) < |p|
    decreases |p|
  {
    if IsDigit(p[0]) {
      var i :| 0 <= i < |p| && !IsDigit(p[i]);
      assert i > 0 && p[1..][i - 1] == p[i];
      assert (p + s)[1..] == p[1..] + s;
      DigitRunInside(p[1..], s);
    }
  }

  /** Text without `/` that does not end in a digit cannot hold the match, nor start it. */
  lemma {:induction false} DecodeSkips(p: string, s: string)
    requires '/' !in p
    requires p != [] ==> !IsDigit(p[|p| - 1])
    ensures DecodeRating(p + s) == DecodeRating(s)
    decreases |p|
  {
    if p != [] {
      var t := p + s;
      DigitRunInside(p, s);
      var n := DigitRun(t);
      assert t[n] == p[n] != '/';
      assert !StartsWith(t[n..], "/5");
      assert DecodeRating(t) == DecodeRating(t[1..]);
      assert t[1..] == p[1..] + s;
      DecodeSkips(p[1..], s);
    } else {
      assert p + s == s;
    }
  }

  /** A single digit in front of `/5` is read as that digit's value. */
  lemma DecodeDigit(r: nat)
    requires 1 <= r <= 5
    ensures DecodeRating(NatToString(r) + "/5") == Some(r)
  {
    var t := NatToString(r) + "/5";
    assert DigitRun(t[1..]) == 0;
    assert t[..1] == NatToString(r);
  }

  /** The prefix of a title up to its rating. */
  lemma TitleHead(id: string, ratingText: string)
    ensures Title(id, ratingText) == ("Script Rating: " + id + " - ") + (ratingText + "/5")
  {
  }

  lemma NoSlashInHead(id: string)
    requires '/' !in id
    ensures '/' !in "Script Rating: " + id + " - "
  {
    var h := "Script Rating: " + id + " - ";
    forall i | 0 <= i < |h| ensures h[i] != '/' {
      if i >= 15 && i < 15 + |id| {
        assert h[i] == id[i - 15];
      }
    }
  }

  /** Reading back a submitted whole rating from 1 to 5 gives that rating, when the id has no `/`. */
  lemma TitleRoundTrip(id: string, r: nat)
    requires '/' !in id && 1 <= r <= 5
    ensures DecodeRating(Title(id, NatToString(r))) == Some(r)
  {
    TitleHead(id, NatToString(r));
    NoSlashInHead(id);
    DecodeSkips("Script Rating: " + id + " - ", NatToString(r) + "/5");
    DecodeDigit(r);
  }

  /** A rating written as a float (`4.0`) is read back as 0: the match is the `0` before `/5`. */
  lemma FloatTitleReadsZero(id: string, r: nat)
    requires '/' !in id && 1 <= r <= 5
    ensures DecodeRating(Title(id, NatToString(r) + ".0")) == Some(0)
  {
    var d := NatToString(r);
    var h := "Script Rating: " + id + " - ";
    TitleHead(id, d + ".0");
    NoSlashInHead(id);
    assert (d + ".0") + "/5" == d + ".0/5";
    DecodeSkips(h, d + ".0/5");
    FloatTextReadsZero(d);
  }

  /** One digit, then `.0/5`: the match starts at the `0`. */
  lemma FloatTextReadsZero(d: string)
    requires |d| == 1 && IsDigit(d[0])
    ensures DecodeRating(d + ".0/5") == Some(0)
  {
    var t := d + ".0/5";
    assert t[0] == d[0] && t[1] == '.';
    assert DigitRun(t) == 1;
    assert t[1..] == ".0/5";
    assert DecodeRating(t) == DecodeRating(".0/5");
    assert DigitRun(".0/5") == 0;
    assert ".0/5"[1..] == "0/5";
    assert DecodeRating(".0/5") == DecodeRating("0/5");
    assert DigitRun("0/5") == 1 && "0/5"[1..] == "/5" && "0/5"[..1] == "0";
  }

  // ---------------------------------------------------------------------
  // The latest issue

  /** The fields of a search hit the model reads. */
  datatype Issue = Issue(title: string, body: string, login: string, createdAt: string, url: string, number: int)

  /** The index the selection loop ends on: a later issue replaces the current one only when strictly newer. */
  function Latest(issues: seq<Issue>): (k: nat)
    requires issues != []
    ensures k < |issues|
  {
    if |issues| == 1 then 0
    else
      var k := Latest(issues[..|issues| - 1]);
      if StrLess(issues[k].createdAt, issues[|issues| - 1].createdAt) then |issues| - 1 else k
  }

  /** Issue `k` is the newest, and every earlier issue is strictly older. */
  predicate FirstNewest(issues: seq<Issue>, k: int) {
    0 <= k < |issues| &&
    (forall j :: 0 <= j < |issues| ==> !StrLess(issues[k].createdAt, issues[j].createdAt)) &&
    (forall j :: 0 <= j < k ==> StrLess(issues[j].createdAt, issues[k].createdAt))
  }

  /** The selection ends on the first of the newest issues (`created_at` compared as strings). */
  lemma {:induction false} LatestIsFirstNewest(issues: seq<Issue>)
    requires issues != []
    ensures FirstNewest(issues, Latest(issues))
    decreases |issues|
  {
    var n := |issues|;
    StrLessIrreflexive(issues[n - 1].createdAt);
    if n > 1 {
      var front := issues[..n - 1];
      LatestIsFirstNewest(front);
      var k := Latest(front);
      var ck, cx := issues[k].createdAt, issues[n - 1].createdAt;
      if StrLess(ck, cx) {
        forall j | 0 <= j < n - 1 ensures StrLess(issues[j].createdAt, cx) {
          assert issues[j] == front[j];
          if issues[j].createdAt != ck {
            StrLessTotal(issues[j].createdAt, ck);
            StrLessTransitive(issues[j].createdAt, ck, cx);
          }
        }
        forall j | 0 <= j < n ensures !StrLess(cx, issues[j].createdAt) {
          if j < n - 1 && StrLess(cx, issues[j].createdAt) {
            StrLessTransitive(cx, issues[j].createdAt, cx);
          }
        }
      } else {
        forall j | 0 <= j < n ensures !StrLess(ck, issues[j].createdAt) {
          if j < n - 1 { assert issues[j] == front[j]; }
        }
        forall j | 0 <= j < k ensures StrLess(issues[j].createdAt, ck) {
          assert issues[j] == front[j];
        }
      }
    }
  }

  /** There is only one first newest issue. */
  lemma FirstNewestUnique(issues: seq<Issue>, k1: int, k2: int)
    requires FirstNewest(issues, k1) && FirstNewest(issues, k2)
    ensures k1 == k2
  {
    var c1, c2 := issues[k1].createdAt, issues[k2].createdAt;
    assert k1 < k2 ==> StrLess(c1, c2);
    assert k2 < k1 ==> StrLess(c2, c1);
  }

  /** The selection loop of `get_rating`. */
  method LatestIssue(issues: seq<Issue>) returns (latest: Issue)
    requires issues != []
    ensures latest == issues[Latest(issues)]
  {
    latest := issues[0];
    ghost var k := 0;
    StrLessIrreflexive(latest.createdAt);
    var i := 0;
    while i < |issues|
      invariant 0 <= i <= |issues|
      invariant 0 <= k < |issues| && latest == issues[k]
      invariant i == 0 ==> k == 0
      invariant i > 0 ==> k == Latest(issues[..i])
    {
      var issue := issues[i];
      assert i > 0 ==> issues[..i + 1][..i] == issues[..i];
      if StrLess(latest.createdAt, issue.createdAt) {
        latest := issue;
        k := i;
      }
      i := i + 1;
    }
    assert issues[..i] == issues;
  }

  // ---------------------------------------------------------------------
  // The cache

  /** The rating as given: an `int`, or a `float` with no fraction (`4.0`), which is what the web form sends. */
  datatype Score = Whole(n: int) | WholeFloat(n: int)

  /** `str(rating)`. */
  function ScoreText(s: Score): string {
    match s
    case Whole(n) => IntToString(n)
    case WholeFloat(n) => IntToString(n) + ".0"
  }

  /** The dictionary cached for a script. */
  datatype RatingInfo = RatingInfo(rating: Score, comment: string, user: string, date: string, url: string, id: int)

  /** `ratings_cache` and `ratings_cache_time`; a script whose search found nothing is cached as `None`. */
  datatype Cache = Cache(ratings: map<string, Option<RatingInfo>>, times: map<string, real>)

  /** `ratings_cache.get(script_id)`. */
  function CacheGet(c: Cache, id: string): Option<RatingInfo> {
    if id in c.ratings then c.ratings[id] else None
  }

  /** `ratings_cache_time.get(script_id, 0)`. */
  function CacheTime(c: Cache, id: string): real {
    if id in c.times then c.times[id] else 0.0
  }

  /** An entry that is answered from the cache: present, under 1800 seconds old, and no refresh forced. */
  predicate Fresh(c: Cache, id: string, force: bool, now: real) {
    !force && id in c.ratings && now - CacheTime(c, id) < 1800.0
  }

  /** Recording a value for a script at time `now`. */
  function Store(c: Cache, id: string, v: Option<RatingInfo>, now: real): Cache {
    Cache(c.ratings[id := v], c.times[id := now])
  }

  /** What the issue search returned: a failure (a status other than 200, or an error), or its items. */
  datatype Search = SearchFailed | Found(items: seq<Issue>)

  /** The rating read from the newest issue. */
  function InfoOf(latest: Issue, v: nat): RatingInfo {
    RatingInfo(Whole(v), latest.body, latest.login, latest.createdAt, latest.url, latest.number)
  }

  /** `get_rating` on a cache: the answer and the cache afterwards. */
  function Lookup(c: Cache, id: string, force: bool, now: real, authenticated: bool, search: Search)
    : (res: (Option<RatingInfo>, Cache))
    ensures forall other :: other != id ==>
              CacheGet(res.1, other) == CacheGet(c, other) && CacheTime(res.1, other) == CacheTime(c, other) &&
              (other in res.1.ratings <==> other in c.ratings)
    ensures res.1 == c || res.1 == Store(c, id, res.0, now)
  {
    if Fresh(c, id, force, now) then (c.ratings[id], c)
    else if !authenticated then (CacheGet(c, id), c)
    else match search
      case SearchFailed => (CacheGet(c, id), c)
      case Found(items) =>
        if items == [] then (None, Store(c, id, None, now))
        else
          var latest := items[Latest(items)];
          match DecodeRating(latest.title)
          case None => (None, c)
          case Some(v) => (Some(InfoOf(latest, v)), Store(c, id, Some(InfoOf(latest, v)), now))
  }

  /** A fresh entry is answered as cached, and nothing is asked of GitHub. */
  lemma FreshHit(c: Cache, id: string, now: real, authenticated: bool, search: Search)
    requires Fresh(c, id, false, now)
    ensures Lookup(c, id, false, now, authenticated, search) == (c.ratings[id], c)
  {
  }

  /** Whatever was stored at `t` is answered, unchanged, for the next 1800 seconds. */
  lemma StoredStaysFresh(c: Cache, id: string, v: Option<RatingInfo>, t: real, now: real,
                         authenticated: bool, search: Search)
    requires t <= now < t + 1800.0
    ensures Lookup(Store(c, id, v, t), id, false, now, authenticated, search) == (v, Store(c, id, v, t))
  {
  }

  /** Without an account, or when the search fails, the cache is only read. */
  lemma OfflineReadsCache(c: Cache, id: string, force: bool, now: real, authenticated: bool, search: Search)
    requires !authenticated || search.SearchFailed?
    ensures Lookup(c, id, force, now, authenticated, search).1 == c
    ensures !Fresh(c, id, force, now) ==> Lookup(c, id, force, now, authenticated, search).0 == CacheGet(c, id)
  {
  }

  /** A search that finds no issue caches "no rating" for the script, with the time of the search. */
  lemma NoIssuesCachesNone(c: Cache, id: string, force: bool, now: real)
    requires !Fresh(c, id, force, now)
    ensures Lookup(c, id, force, now, true, Found([])) == (None, Store(c, id, None, now))
    ensures var after := Lookup(c, id, force, now, true, Found([])).1;
            id in after.ratings && after.ratings[id].None? && CacheTime(after, id) == now
  {
  }

  /** A refreshed rating is the one in the title of the first newest issue. */
  lemma RefreshReadsNewest(c: Cache, id: string, force: bool, now: real, items: seq<Issue>)
    requires !Fresh(c, id, force, now) && items != []
    ensures var res := Lookup(c, id, force, now, true, Found(items));
            exists k :: FirstNewest(items, k) &&
                        (res.0.None? <==> DecodeRating(items[k].title).None?) &&
                        (res.0.Some? ==> res.0.value.rating == Whole(DecodeRating(items[k].title).value) &&
                                         res.1 == Store(c, id, res.0, now)) &&
                        (res.0.None? ==> res.1 == c)
  {
    LatestIsFirstNewest(items);
  }

  lemma Framed(h: string, m: string, t: string)
    ensures StartsWith(h + m + t, h) && EndsWith(h + m + t, t)
  {
    assert (h + m + t)[..|h|] == h;
    assert (h + m + t)[|h + m|..] == t;
  }

  /** What `submit_rating` posts. */
  datatype IssueRequest = IssueRequest(title: string, body: string)

  /** GitHub's reply to the post: status 201 with the new issue, or anything else. */
  datatype PostReply = Created(createdAt: string, url: string, number: int) | PostFailed

  /** The issue body: the comment or a placeholder, then the script name, file, rating and date. */
  function IssueBody(comment: string, name: string, path: string, rating: Score, date: string): (body: string)
    ensures comment != [] ==> StartsWith(body, comment)
    ensures comment == [] ==> StartsWith(body, "No comment provided.")
    ensures EndsWith(body, "**Date:** " + date + "\n")
  {
    var head := if comment != [] then comment else "No comment provided.";
    var rest := "\n\n**Script Name:** " + name + "\n" + "**Script Path:** " + Basename(path) + "\n" +
                "**Rating:** " + ScoreText(rating) + "/5\n";
    var tail := "**Date:** " + date + "\n";
    Framed(head, rest, tail);
    head + rest + tail
  }

  /**
   * `submit_rating` on a cache: success, the post made (if any), and the
   * cache afterwards. `login` is the account's login when its details are
   * known; the desktop version fails on unknown details after posting (the
   * lookup raises and is caught), the web version records `"Unknown"`.
   */
  function Submit(c: Cache, web: bool, path: string, name: string, rating: Score, comment: string,
                  now: real, date: string, authenticated: bool, reply: PostReply, login: Option<string>)
    : (res: (bool, Option<IssueRequest>, Cache))
    ensures res.0 <==> authenticated && 1 <= rating.n <= 5 && reply.Created? && (login.Some? || web)
    ensures res.0 ==> res.1.Some? &&
                      CacheGet(res.2, ScriptId(path, name)) ==
                        Some(RatingInfo(rating, comment, UserOf(login), reply.createdAt, reply.url, reply.number)) &&
                      CacheTime(res.2, ScriptId(path, name)) == now
    ensures res.0 ==> forall id :: id != ScriptId(path, name) ==>
                        CacheGet(res.2, id) == CacheGet(c, id) && CacheTime(res.2, id) == CacheTime(c, id)
    ensures res.1.Some? ==> 1 <= rating.n <= 5 && authenticated
    ensures !res.0 ==> res.2 == c
  {
    var request := PostedRequest(path, name, rating, comment, date, authenticated);
    var recorded := Recorded(c, web, ScriptId(path, name), rating, comment, now, request.Some?, reply, login);
    (recorded.Some?, request, if recorded.Some? then recorded.value else c)
  }

  /**
   * The cache after a posted submission, when it is recorded: GitHub created
   * the issue and a user name is known (the login, or `Unknown` on the web).
   */
  function Recorded(c: Cache, web: bool, id: string, rating: Score, comment: string, now: real,
                    posted: bool, reply: PostReply, login: Option<string>): (r: Option<Cache>)
    ensures r.Some? <==> posted && reply.Created? && (login.Some? || web)
    ensures r.Some? ==> CacheGet(r.value, id) == Some(RatingInfo(rating, comment, UserOf(login), reply.createdAt, reply.url, reply.number)) &&
                        CacheTime(r.value, id) == now
    ensures r.Some? ==> forall other :: other != id ==>
                          CacheGet(r.value, other) == CacheGet(c, other) && CacheTime(r.value, other) == CacheTime(c, other)
  {
    if !posted then None
    else
      match reply
      case PostFailed => None
      case Created(createdAt, url, number) =>
        var user := if login.Some? then login else if web then Some("Unknown") else None;
        match user
        case None => None
        case Some(u) => Some(Store(c, id, Some(RatingInfo(rating, comment, u, createdAt, url, number)), now))
  }

  /** The user recorded with a submission: the account's login, or `Unknown` where the web version has none. */
  function UserOf(login: Option<string>): string {
    if login.Some? then login.value else "Unknown"
  }

  /** The issue `submit_rating` posts: none without an account or for a rating outside 1 to 5. */
  function PostedRequest(path: string, name: string, rating: Score, comment: string, date: string,
                         authenticated: bool): (r: Option<IssueRequest>)
    ensures r.Some? <==> authenticated && 1 <= rating.n <= 5
  {
    if !authenticated || rating.n < 1 || rating.n > 5 then None
    else Some(IssueRequest(Title(ScriptId(path, name), ScoreText(rating)), IssueBody(comment, name, path, rating, date)))
  }

  /** Nothing is posted without an account or for a rating outside 1 to 5. */
  lemma SubmitRejects(c: Cache, web: bool, path: string, name: string, rating: Score, comment: string,
                      now: real, date: string, authenticated: bool, reply: PostReply, login: Option<string>)
    requires !authenticated || rating.n < 1 || rating.n > 5
    ensures Submit(c, web, path, name, rating, comment, now, date, authenticated, reply, login) == (false, None, c)
  {
  }

  /** After a successful submission the rating is answered from the cache for 1800 seconds. */
  lemma SubmitThenGet(c: Cache, web: bool, path: string, name: string, rating: Score, comment: string,
                      now: real, date: string, reply: PostReply, login: Option<string>,
                      later: real, authenticated: bool, search: Search)
    requires Submit(c, web, path, name, rating, comment, now, date, true, reply, login).0
    requires now <= later < now + 1800.0
    ensures var c2 := Submit(c, web, path, name, rating, comment, now, date, true, reply, login).2;
            var got := Lookup(c2, ScriptId(path, name), false, later, authenticated, search).0;
            got.Some? && got.value.rating == rating && got.value.comment == comment &&
            got.value.user == (if login.Some? then login.value else "Unknown")
  {
  }

  /** The posted title reads back as the rating for a whole number, and as 0 for a float. */
  lemma PostedTitleReadsBack(c: Cache, web: bool, path: string, name: string, rating: Score, comment: string,
                             now: real, date: string, reply: PostReply, login: Option<string>)
    requires Submit(c, web, path, name, rating, comment, now, date, true, reply, login).1.Some?
    requires '/' !in ScriptId(path, name)
    ensures var title := Submit(c, web, path, name, rating, comment, now, date, true, reply, login).1.value.title;
            DecodeRating(title) == Some(if rating.Whole? then rating.n else 0)
  {
    var id := ScriptId(path, name);
    var title := Submit(c, web, path, name, rating, comment, now, date, true, reply, login).1.value.title;
    SubmitTitle(c, web, path, name, rating, comment, now, date, reply, login);
    var n: nat := rating.n;
    assert IntToString(rating.n) == NatToString(n);
    if rating.Whole? {
      assert title == Title(id, NatToString(n));
      TitleRoundTrip(id, n);
    } else {
      assert title == Title(id, NatToString(n) + ".0");
      FloatTitleReadsZero(id, n);
    }
  }

  /** The title a submission posts. */
  lemma SubmitTitle(c: Cache, web: bool, path: string, name: string, rating: Score, comment: string,
                    now: real, date: string, reply: PostReply, login: Option<string>)
    requires Submit(c, web, path, name, rating, comment, now, date, true, reply, login).1.Some?
    ensures 1 <= rating.n <= 5
    ensures Submit(c, web, path, name, rating, comment, now, date, true, reply, login).1.value.title
            == Title(ScriptId(path, name), ScoreText(rating))
  {
    SubmitPosts(c, web, path, name, rating, comment, now, date, true, reply, login);
  }

  /** Whatever the reply, a submission posts exactly the request `PostedRequest` describes. */
  lemma SubmitPosts(c: Cache, web: bool, path: string, name: string, rating: Score, comment: string,
                    now: real, date: string, authenticated: bool, reply: PostReply, login: Option<string>)
    ensures Submit(c, web, path, name, rating, comment, now, date, authenticated, reply, login).1
            == PostedRequest(path, name, rating, comment, date, authenticated)
  {
  }

  // ---------------------------------------------------------------------
  // Averages

  /**
   * What `get_average_rating` returns: nothing, the cached rating, or the
   * ratings whose mean it rounds to one decimal.
   */
  datatype Average = NoAverage | CachedRating(rating: Score) | Mean(ratings: seq<nat>)

  predicate HasRating(i: Issue) { DecodeRating(i.title).Some? }

  function RatingOf(i: Issue): nat {
    match DecodeRating(i.title)
    case Some(v) => v
    case None => 0
  }

  /** The loop of `get_average_rating` that reads the rating of each title that has one. */
  method CollectRatings(issues: seq<Issue>) returns (all: seq<nat>)
    ensures all == FilterMap(issues, HasRating, RatingOf)
  {
    all := [];
    var i := 0;
    while i < |issues|
      invariant 0 <= i <= |issues|
      invariant all == FilterMap(issues[..i], HasRating, RatingOf)
    {
      var issue := issues[i];
      FilterMapStep(issues, i, HasRating, RatingOf);
      var ratingMatch := DecodeRating(issue.title);
      if ratingMatch.Some? {
        all := all + [ratingMatch.value];
      }
      i := i + 1;
    }
    assert issues[..i] == issues;
  }

  /**
   * `get_average_rating` on a cache. Without an account it returns the cached
   * rating; a script cached as `None` makes the subscript raise, which is
   * caught and gives nothing.
   */
  function AverageOf(c: Cache, id: string, authenticated: bool, search: Search): (a: Average)
    ensures a.Mean? ==> authenticated && search.Found? && a.ratings != [] && |a.ratings| <= |search.items|
    ensures !authenticated && id in c.ratings && c.ratings[id].Some? ==> a == CachedRating(c.ratings[id].value.rating)
    ensures !authenticated && (id !in c.ratings || c.ratings[id].None?) ==> a == NoAverage
    ensures authenticated && search.SearchFailed? ==> a == NoAverage
  {
    if !authenticated then
      if id in c.ratings then
        match c.ratings[id]
        case None => NoAverage
        case Some(info) => CachedRating(info.rating)
      else NoAverage
    else match search
      case SearchFailed => NoAverage
      case Found(items) =>
        var rs := FilterMap(items, HasRating, RatingOf);
        if rs == [] then NoAverage else Mean(rs)
  }

  /** The issues whose title decodes to the rating `r`. */
  function DecodesTo(r: nat): Issue -> bool {
    (i: Issue) => DecodeRating(i.title) == Some(r)
  }

  /**
   * The mean is over exactly the ratings read from the titles that have one:
   * each rating appears as many times as there are issues whose title gives it.
   */
  lemma MeanOfEveryRating(c: Cache, id: string, items: seq<Issue>, r: nat)
    requires AverageOf(c, id, true, Found(items)).Mean?
    ensures r in AverageOf(c, id, true, Found(items)).ratings <==>
            exists i :: i in items && DecodeRating(i.title) == Some(r)
    ensures multiset(AverageOf(c, id, true, Found(items)).ratings)[r] == Count(items, DecodesTo(r))
  {
    FilterMapMembers(items, HasRating, RatingOf, r);
    FilterMapMultiplicity(items, HasRating, RatingOf, r);
    forall k | 0 <= k < |items|
      ensures KeptAs(HasRating, RatingOf, r)(items[k]) == DecodesTo(r)(items[k])
    {
    }
    CountSame(items, KeptAs(HasRating, RatingOf, r), DecodesTo(r));
  }

  /** With an account and no search results that carry a rating, there is no average. */
  lemma NoRatedIssueNoMean(c: Cache, id: string, items: seq<Issue>)
    requires forall k :: 0 <= k < |items| ==> DecodeRating(items[k].title).None?
    ensures AverageOf(c, id, true, Found(items)) == NoAverage
  {
    FilterMapCount(items, HasRating, RatingOf);
    CountNone(items, HasRating);
  }

  /** A script cached as having no rating gives no average when offline, rather than an error. */
  lemma CachedNoneGivesNothing(c: Cache, id: string, search: Search)
    requires id in c.ratings && c.ratings[id].None?
    ensures AverageOf(c, id, false, search) == NoAverage
  {
  }

  // ---------------------------------------------------------------------
  // The rating system

  /** `RatingSystem` (desktop) or `RatingSystemWeb` (`web` set). */
  class RatingStore {
    var ratings: map<string, Option<RatingInfo>>
    var times: map<string, real>
    const web: bool

    function State(): Cache
      reads this
    {
      Cache(ratings, times)
    }

    /** The store after `load_cached_ratings`: the loaded dictionaries, empty when loading failed. */
    constructor(web: bool, loaded: Option<Cache>)
      ensures this.web == web
      ensures State() == if loaded.Some? then loaded.value else Cache(map[], map[])
    {
      this.web := web;
      if loaded.Some? {
        ratings, times := loaded.value.ratings, loaded.value.times;
      } else {
        ratings, times := map[], map[];
      }
    }

    /** `get_rating`. */
    method GetRating(path: string, name: string, force: bool, now: real, authenticated: bool, search: Search)
      returns (r: Option<RatingInfo>)
      modifies this
      ensures (r, State()) == Lookup(old(State()), ScriptId(path, name), force, now, authenticated, search)
    {
      ghost var c := State();
      var id := ScriptId(path, name);
      var cacheTime := if id in times then times[id] else 0.0;
      if !force && id in ratings && now - cacheTime < 1800.0 {
        assert Fresh(c, id, force, now);
        return ratings[id];
      }
      assert !Fresh(c, id, force, now);
      if !authenticated || search.SearchFailed? {
        assert Lookup(c, id, force, now, authenticated, search) == (CacheGet(c, id), c);
        return if id in ratings then ratings[id] else None;
      }
      var issues := search.items;
      if issues == [] {
        assert Lookup(c, id, force, now, authenticated, search) == (None, Store(c, id, None, now));
        ratings := ratings[id := None];
        times := times[id := now];
        return None;
      }
      var latest := LatestIssue(issues);
      var match_ := DecodeRating(latest.title);
      if match_.None? {
        assert Lookup(c, id, force, now, authenticated, search) == (None, c);
        return None;
      }
      var info := RatingInfo(Whole(match_.value), latest.body, latest.login, latest.createdAt, latest.url, latest.number);
      assert info == InfoOf(latest, match_.value);
      assert Lookup(c, id, force, now, authenticated, search) == (Some(info), Store(c, id, Some(info), now));
      ratings := ratings[id := Some(info)];
      times := times[id := now];
      r := Some(info);
    }

    /** `submit_rating`: the success flag and the issue posted. */
    method SubmitRating(path: string, name: string, rating: Score, comment: string, now: real, date: string,
                        authenticated: bool, reply: PostReply, login: Option<string>)
      returns (ok: bool, request: Option<IssueRequest>)
      modifies this
      ensures (ok, request, State()) ==
              Submit(old(State()), web, path, name, rating, comment, now, date, authenticated, reply, login)
    {
      if !authenticated {
        return false, None;
      }
      if rating.n < 1 || rating.n > 5 {
        return false, None;
      }
      var id := ScriptId(path, name);
      request := Some(IssueRequest(Title(id, ScoreText(rating)), IssueBody(comment, name, path, rating, date)));
      if reply.PostFailed? {
        return false, request;
      }
      var user: string;
      if login.Some? {
        user := login.value;
      } else if web {
        user := "Unknown";
      } else {
        return false, request;
      }
      ratings := ratings[id := Some(RatingInfo(rating, comment, user, reply.createdAt, reply.url, reply.number))];
      times := times[id := now];
      ok := true;
    }

    /** `get_average_rating`, with the loop that collects the ratings of the titles. */
    method GetAverageRating(path: string, name: string, authenticated: bool, search: Search) returns (a: Average)
      ensures a == AverageOf(State(), ScriptId(path, name), authenticated, search)
    {
      var id := ScriptId(path, name);
      if !authenticated {
        if id in ratings {
          return if ratings[id].Some? then CachedRating(ratings[id].value.rating) else NoAverage;
        }
        return NoAverage;
      }
      if search.SearchFailed? || search.items == [] {
        return NoAverage;
      }
      var all := CollectRatings(search.items);
      if all == [] {
        return NoAverage;
      }
      a := Mean(all);
    }
  }
}
