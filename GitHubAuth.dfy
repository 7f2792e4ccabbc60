/**
 * GitHub sign-in for the desktop application (`src/utils/github_auth.py`).
 * The device flow and the reading of the token endpoint's replies are those
 * of the web handler (`GitHubAuthWeb.PollFrom`); the desktop handler adds a
 * confirmation before it starts, a dialog whose status line follows the
 * polling, and, with a parent window, polling on a background thread.
 */
module GitHubAuth {
  import opened Common
  import opened GitHubAuthWeb

  /** The dialog's first status line. */
  const Waiting := "Waiting for authentication..."

  /** The status line after one round that keeps the loop going; only a dialog that exists is updated. */
  function RoundStatus(r: Reply, s: Option<string>): (t: Option<string>)
    ensures s.None? ==> t.None?
    ensures r.NoVerdict? ==> t == s
  {
    if s.None? then None
    else if r == Error("authorization_pending") then Some("Waiting for you to authorize in the browser...")
    else if r == Error("slow_down") then Some("Polling slowed down, please wait...")
    else if r.Raised? then Some("Connection error, retrying...")
    else s
  }

  /** The status line after rounds `0 .. n-1`. */
  function StatusAfter(s: Option<string>, replies: nat -> Reply, n: nat): (t: Option<string>)
    ensures s.None? ==> t.None?
  {
    if n == 0 then s else RoundStatus(replies(n - 1), StatusAfter(s, replies, n - 1))
  }

  /** The status line a refusal leaves. */
  function RefusalMessage(error: string): string {
    if error == "expired_token" then "Code expired. Please try again."
    else if error == "access_denied" then "Authorization denied. Please try again."
    else "Error: " + error
  }

  /** The status line the end of polling leaves: success greets the account by its login. */
  function ResultMessage(res: PollResult, login: string): string {
    match res
    case Authorized(_) => "Authentication successful! Welcome, " + login + "."
    case Refused(e) => RefusalMessage(e)
    case TimedOut => "Authentication timed out. Please try again."
  }

  /** The final status line tells the outcome apart: the kind, the refused error and the greeted login. */
  lemma {:induction false} MessageNamesOutcome(r1: PollResult, l1: string, r2: PollResult, l2: string)
    requires ResultMessage(r1, l1) == ResultMessage(r2, l2)
    ensures r1.Authorized? <==> r2.Authorized?
    ensures r1.TimedOut? <==> r2.TimedOut?
    ensures r1.Authorized? ==> l1 == l2
    ensures r1.Refused? && r2.Refused? ==> r1.error == r2.error
  {
    var m := ResultMessage(r1, l1);
    var head := "Authentication successful! Welcome, ";
    if r1.Authorized? && r2.Authorized? {
      assert m[..|head|] == head;
      assert m[|head|..] == l1 + "." == l2 + ".";
      assert l1 == (l1 + ".")[..|l1|];
    } else if r1.Refused? && r2.Refused? {
      RefusalInjective(r1.error, r2.error);
    } else {
      KindsDiffer(r1, l1);
      KindsDiffer(r2, l2);
    }
  }

  /** Messages of different kinds differ in their first or fifth character. */
  lemma KindsDiffer(r: PollResult, l: string)
    ensures |ResultMessage(r, l)| > 4
    ensures r.Authorized? ==> ResultMessage(r, l)[0] == 'A' && ResultMessage(r, l)[4] == 'e' && ResultMessage(r, l)[15] == 's'
    ensures r.TimedOut? ==> ResultMessage(r, l)[0] == 'A' && ResultMessage(r, l)[4] == 'e' && ResultMessage(r, l)[15] == 't'
    ensures r.Refused? ==> ResultMessage(r, l)[0] != 'A' || ResultMessage(r, l)[4] == 'o'
  {
    match r
    case Authorized(_) =>
      var head := "Authentication successful! Welcome, ";
      assert ResultMessage(r, l) == head + (l + ".");
      assert head[0] == 'A' && head[4] == 'e' && head[15] == 's';
    case TimedOut =>
      var m := "Authentication timed out. Please try again.";
      assert m[0] == 'A' && m[4] == 'e' && m[15] == 't';
    case Refused(e) =>
      if e == "expired_token" {
        assert "Code expired. Please try again."[0] == 'C';
      } else if e == "access_denied" {
        assert "Authorization denied. Please try again."[4] == 'o';
      } else {
        assert ("Error: " + e)[0] == 'E';
      }
  }

  /** Different refused errors leave different status lines. */
  lemma RefusalInjective(e1: string, e2: string)
    requires RefusalMessage(e1) == RefusalMessage(e2)
    ensures e1 == e2
  {
    var p := "Error: ";
    if e1 != "expired_token" && e1 != "access_denied" && e2 != "expired_token" && e2 != "access_denied" {
      assert RefusalMessage(e1)[|p|..] == e1;
      assert RefusalMessage(e2)[|p|..] == e2;
    } else {
      RefusalHead(e1);
      RefusalHead(e2);
    }
  }

  /** Only errors without a message of their own leave a line that starts with `E`. */
  lemma RefusalHead(e: string)
    ensures |RefusalMessage(e)| > 0
    ensures RefusalMessage(e)[0] == 'E' <==> e != "expired_token" && e != "access_denied"
  {
  }

  /**
   * The status line and the success flag when polling ends as `outcome`,
   * starting from `status`: the rounds that kept it going update the line,
   * then a refusal or time-out is reported on it, and a success greets the
   * account only in an open dialog and when the account lookup with the new
   * token succeeds.
   */
  function EndStatus(outcome: (PollResult, nat), replies: nat -> Reply, status: Option<string>, dialogOpen: bool,
                     authSuccess: bool, lookup: Option<string>): (r: (Option<string>, bool))
    ensures status.None? && !outcome.0.Authorized? ==> r.0.None?
    ensures r.1 ==> authSuccess || outcome.0.Authorized?
  {
    var (res, last) := outcome;
    var before := StatusAfter(status, replies, last);
    if res.Authorized? then
      if HasToken(Some(res.token)) && lookup.Some? && dialogOpen then (Some(ResultMessage(res, lookup.value)), true)
      else (before, authSuccess)
    else if before.Some? then (Some(ResultMessage(res, "")), authSuccess)
    else (before, authSuccess)
  }

  /** `GitHubAuthHandler`: the token, the account's login, and the device-code dialog (its status line and whether it is open). */
  class GitHubAuthHandler {
    const hasParent: bool
    var token: Option<string>
    var userInfo: Option<string>
    var status: Option<string>
    var dialogOpen: bool
    var authSuccess: bool

    /** `__init__` with `load_cached_token`: the cached token is kept only when it is truthy and the account lookup succeeds. */
    constructor(hasParent: bool, cached: Option<string>, lookup: Option<string>)
      ensures this.hasParent == hasParent
      ensures token == (if HasToken(cached) && lookup.Some? then cached else None)
      ensures userInfo == (if HasToken(cached) && lookup.Some? then lookup else None)
      ensures status.None? && !dialogOpen && !authSuccess
    {
      this.hasParent := hasParent;
      token, userInfo := cached, None;
      status, dialogOpen, authSuccess := None, false, false;
      if HasToken(cached) && lookup.Some? {
        userInfo := lookup;
      } else {
        token := None;
      }
    }

    /** `get_user_info`: no lookup without a truthy token; a successful lookup is remembered. */
    method GetUserInfo(lookup: Option<string>) returns (info: Option<string>)
      modifies this
      ensures info == (if HasToken(token) then lookup else None)
      ensures token == old(token) && status == old(status) && dialogOpen == old(dialogOpen) && authSuccess == old(authSuccess)
      ensures userInfo == (if info.Some? then info else old(userInfo))
    {
      if !HasToken(token) {
        return None;
      }
      if lookup.Some? {
        userInfo := lookup;
      }
      info := lookup;
    }

    /** `is_authenticated`: a token is set and the account lookup succeeds with it. */
    method IsAuthenticated(lookup: Option<string>) returns (b: bool)
      modifies this
      ensures b <==> HasToken(old(token)) && lookup.Some?
      ensures token == old(token) && status == old(status) && dialogOpen == old(dialogOpen) && authSuccess == old(authSuccess)
      ensures userInfo == (if b then lookup else old(userInfo))
    {
      if token.None? {
        return false;
      }
      var info := GetUserInfo(lookup);
      b := info.Some?;
    }

    /** `show_device_code_dialog`: the dialog opens with the waiting status and no success yet. */
    method ShowDeviceCodeDialog()
      modifies this
      ensures status == Some(Waiting) && dialogOpen && !authSuccess
      ensures token == old(token) && userInfo == old(userInfo)
    {
      status, dialogOpen, authSuccess := Some(Waiting), true, false;
    }

    /**
     * `_poll_for_token`, as the web handler's, with the status line updated
     * after each round. Success is reported in the dialog, and recorded in
     * `authSuccess`, only when the dialog is open and the account lookup
     * with the new token succeeds.
     */
    method PollForToken(interval: int, expiresIn: int, start: real, checks: seq<real>,
                        replies: nat -> Reply, lookup: Option<string>)
      returns (ok: bool, slept: seq<int>)
      requires ClockRunsOut(start, expiresIn, checks)
      modifies this
      ensures ok <==> PollFrom(start, expiresIn, checks, replies, 0).0.Authorized?
      ensures slept == Slept(replies, interval, PollFrom(start, expiresIn, checks, replies, 0).1)
      ensures ok ==> token == Some(PollFrom(start, expiresIn, checks, replies, 0).0.token) &&
                     userInfo == (if HasToken(token) && lookup.Some? then lookup else old(userInfo))
      ensures !ok ==> token == old(token) && userInfo == old(userInfo)
      ensures (status, authSuccess) ==
              EndStatus(PollFrom(start, expiresIn, checks, replies, 0), replies, old(status), old(dialogOpen), old(authSuccess), lookup)
      ensures dialogOpen == old(dialogOpen)
    {
      var res, k;
      res, k, slept := PollRounds(interval, expiresIn, start, checks, replies);
      if res.Authorized? {
        token := Some(res.token);
        var info := GetUserInfo(lookup);
        if info.Some? && dialogOpen {
          ShowWelcome(info.value);
        }
        return true, slept;
      }
      ShowEnd(res);
      return false, slept;
    }

    /**
     * The rounds of `_poll_for_token` up to the one that ends it: how the
     * polling ends, the round it ends in, and the intervals slept, with the
     * status line updated after each round that keeps it going.
     */
    method PollRounds(interval: int, expiresIn: int, start: real, checks: seq<real>, replies: nat -> Reply)
      returns (res: PollResult, k: nat, slept: seq<int>)
      requires ClockRunsOut(start, expiresIn, checks)
      modifies this`status
      ensures (res, k) == PollFrom(start, expiresIn, checks, replies, 0)
      ensures slept == Slept(replies, interval, k)
      ensures status == StatusAfter(old(status), replies, k)
    {
      k := 0;
      var iv := interval;
      slept := [];
      while checks[k] - start < expiresIn as real
        invariant 0 <= k < |checks|
        invariant PollFrom(start, expiresIn, checks, replies, k) == PollFrom(start, expiresIn, checks, replies, 0)
        invariant iv == IntervalAt(replies, interval, k)
        invariant slept == Slept(replies, interval, k)
        invariant status == StatusAfter(old(status), replies, k)
        decreases |checks| - k
      {
        var reply := replies(k);
        assert InTime(start, expiresIn, checks, k);
        RoundEnds(start, expiresIn, checks, replies, k);
        if reply.Token? {
          return Authorized(reply.token), k, slept;
        }
        if !KeepsPolling(reply) {
          return Refused(reply.error), k, slept;
        }
        if reply == Error("slow_down") {
          iv := iv + 5;
        }
        RoundContinues(start, expiresIn, checks, replies, interval, k);
        ShowRound(reply);
        slept := slept + [iv];
        k := k + 1;
      }
      RoundEnds(start, expiresIn, checks, replies, k);
      res := TimedOut;
    }

    /** A successful sign-in greets the account in the open dialog. */
    method ShowWelcome(login: string)
      modifies this
      ensures status == Some(ResultMessage(Authorized(""), login)) && authSuccess
      ensures token == old(token) && userInfo == old(userInfo) && dialogOpen == old(dialogOpen)
    {
      status := Some("Authentication successful! Welcome, " + login + ".");
      authSuccess := true;
    }

    /** The status line after a round that keeps the loop going (`authorization_pending`, `slow_down`, a connection error). */
    method ShowRound(reply: Reply)
      modifies this`status
      ensures status == RoundStatus(reply, old(status))
    {
      if status.None? {
        return;
      }
      if reply == Error("authorization_pending") {
        status := Some("Waiting for you to authorize in the browser...");
      } else if reply == Error("slow_down") {
        status := Some("Polling slowed down, please wait...");
      } else if reply.Raised? {
        status := Some("Connection error, retrying...");
      }
    }

    /** The status line after a refusal or a time-out, when there is a status line. */
    method ShowEnd(res: PollResult)
      requires !res.Authorized?
      modifies this`status
      ensures status == (if old(status).Some? then Some(ResultMessage(res, "")) else None)
    {
      if status.None? {
        return;
      }
      if res.TimedOut? {
        status := Some("Authentication timed out. Please try again.");
      } else if res.error == "expired_token" {
        status := Some("Code expired. Please try again.");
      } else if res.error == "access_denied" {
        status := Some("Authorization denied. Please try again.");
      } else {
        status := Some("Error: " + res.error);
      }
    }

    /**
     * `authenticate`. Nothing is asked when already signed in. With a parent
     * window the user confirms first (`proceed`); a granted device code then
     * opens the dialog and polling continues on a background thread, so the
     * call succeeds at once. Without a parent window the call polls and
     * returns the outcome.
     */
    method Authenticate(lookup: Option<string>, proceed: bool, device: DeviceReply, start: real, checks: seq<real>,
                        replies: nat -> Reply, lookupAfter: Option<string>)
      returns (ok: bool, slept: seq<int>)
      requires device.DeviceCode? && !hasParent ==> ClockRunsOut(start, ExpiresOf(device), checks)
      modifies this
      ensures HasToken(old(token)) && lookup.Some? ==> ok && token == old(token) && userInfo == lookup && status == old(status)
      ensures !(HasToken(old(token)) && lookup.Some?) && hasParent && !proceed ==>
                !ok && token == old(token) && status == old(status) && dialogOpen == old(dialogOpen)
      ensures !(HasToken(old(token)) && lookup.Some?) && (proceed || !hasParent) && device.DeviceFailed? ==>
                !ok && token == old(token) && userInfo == old(userInfo) && status == old(status)
      ensures !(HasToken(old(token)) && lookup.Some?) && hasParent && proceed && device.DeviceCode? ==>
                ok && token == old(token) && status == Some(Waiting) && dialogOpen && !authSuccess
      ensures !(HasToken(old(token)) && lookup.Some?) && !hasParent && device.DeviceCode? ==>
                var (res, last) := PollFrom(start, ExpiresOf(device), checks, replies, 0);
                (ok <==> res.Authorized?) && slept == Slept(replies, IntervalOf(device), last) &&
                (ok ==> token == Some(res.token) &&
                        userInfo == (if HasToken(token) && lookupAfter.Some? then lookupAfter else old(userInfo))) &&
                (!ok ==> token == old(token) && userInfo == old(userInfo)) &&
                (status, authSuccess) == EndStatus((res, last), replies, old(status), old(dialogOpen), old(authSuccess), lookupAfter) &&
                dialogOpen == old(dialogOpen)
      ensures hasParent || device.DeviceFailed? || (HasToken(old(token)) && lookup.Some?) ==> slept == []
    {
      var signedIn := IsAuthenticated(lookup);
      if signedIn {
        return true, [];
      }
      if hasParent && !proceed {
        return false, [];
      }
      if device.DeviceFailed? {
        return false, [];
      }
      if hasParent {
        ShowDeviceCodeDialog();
        return true, [];
      }
      ok, slept := PollForToken(IntervalOf(device), ExpiresOf(device), start, checks, replies, lookupAfter);
    }

    /** `logout`: both the token and the account details are forgotten; it always succeeds. */
    method Logout() returns (ok: bool)
      modifies this
      ensures token == None && userInfo == None && ok
      ensures status == old(status) && dialogOpen == old(dialogOpen) && authSuccess == old(authSuccess)
    {
      token := None;
      userInfo := None;
      return true;
    }
  }
}
