/**
 * GitHub sign-in for the web application
 * (`web_app/controllers/github_auth_web.py`), by the OAuth 2.0 device
 * authorization grant (RFC 8628): the handler asks for a device code, then
 * polls the token endpoint until it gets a token, an error that ends the
 * flow, or the code's lifetime runs out.
 *
 * The polling loop's reading of the token endpoint's replies is stated once
 * here and shared with the desktop handler. The network and the clock are
 * inputs: the device-code reply, the reply to each token request, the
 * account lookup's result, and the successive readings of `time.time()`.
 */
module GitHubAuthWeb {
  import opened Common

  // ---------------------------------------------------------------------
  // Polling, as a specification

  /**
   * The token endpoint's reply to one poll: a body with `access_token`, a body
   * with `error` (and no token), a body with neither, or a request or
   * decoding error.
   */
  datatype Reply = Token(token: string) | Error(error: string) | NoVerdict | Raised

  /** `authorization_pending` and `slow_down` (section 3.5 of RFC 8628), an empty verdict and an error keep the loop going. */
  predicate KeepsPolling(r: Reply) {
    r.NoVerdict? || r.Raised? || (r.Error? && (r.error == "authorization_pending" || r.error == "slow_down"))
  }

  /** How the polling ends. */
  datatype PollResult = Authorized(token: string) | Refused(error: string) | TimedOut

  /** The loop's condition at round `k`: the `k`-th clock reading is still inside the code's lifetime. */
  predicate InTime(start: real, expiresIn: int, checks: seq<real>, k: nat) {
    k < |checks| && checks[k] - start < expiresIn as real
  }

  /**
   * The polling from round `k`: how it ends and the round it ends in. Round
   * `k` reads the clock (`checks[k]`), sends request `k` and reads
   * `replies(k)`.
   */
  function PollFrom(start: real, expiresIn: int, checks: seq<real>, replies: nat -> Reply, k: nat)
    : (res: (PollResult, nat))
    ensures k <= res.1
    ensures forall j :: k <= j < res.1 ==> InTime(start, expiresIn, checks, j) && KeepsPolling(replies(j))
    ensures res.0.TimedOut? <==> !InTime(start, expiresIn, checks, res.1)
    ensures res.0.Authorized? ==> replies(res.1) == Token(res.0.token)
    ensures res.0.Refused? ==> replies(res.1) == Error(res.0.error) && !KeepsPolling(replies(res.1))
    decreases |checks| - k
  {
    if !InTime(start, expiresIn, checks, k) then (TimedOut, k)
    else
      var r := replies(k);
      if r.Token? then (Authorized(r.token), k)
      else if KeepsPolling(r) then PollFrom(start, expiresIn, checks, replies, k + 1)
      else (Refused(r.error), k)
  }

  /** Polling succeeds exactly when some token arrives in time after replies that all keep it going. */
  predicate AuthorizedAt(start: real, expiresIn: int, checks: seq<real>, replies: nat -> Reply, k: nat, m: nat) {
    k <= m && InTime(start, expiresIn, checks, m) && replies(m).Token? &&
    forall j :: k <= j < m ==> InTime(start, expiresIn, checks, j) && KeepsPolling(replies(j))
  }

  lemma {:induction false} AuthorizedIff(start: real, expiresIn: int, checks: seq<real>, replies: nat -> Reply, k: nat, m: nat)
    ensures AuthorizedAt(start, expiresIn, checks, replies, k, m) ==>
              PollFrom(start, expiresIn, checks, replies, k).0 == Authorized(replies(m).token)
    ensures PollFrom(start, expiresIn, checks, replies, k).0.Authorized? ==>
              AuthorizedAt(start, expiresIn, checks, replies, k, PollFrom(start, expiresIn, checks, replies, k).1)
    decreases |checks| - k
  {
    if AuthorizedAt(start, expiresIn, checks, replies, k, m) && k < m {
      assert InTime(start, expiresIn, checks, k) && KeepsPolling(replies(k)) && !replies(k).Token?;
      assert AuthorizedAt(start, expiresIn, checks, replies, k + 1, m);
      AuthorizedIff(start, expiresIn, checks, replies, k + 1, m);
    }
  }

  /** The interval after the replies of rounds `0 .. m-1`: each `slow_down` adds exactly 5 seconds. */
  function IntervalAt(replies: nat -> Reply, interval: int, m: nat): int {
    if m == 0 then interval
    else IntervalAt(replies, interval, m - 1) + (if replies(m - 1) == Error("slow_down") then 5 else 0)
  }

  /** The interval never shrinks. */
  lemma {:induction false} IntervalNeverDecreases(replies: nat -> Reply, interval: int, m1: nat, m2: nat)
    requires m1 <= m2
    ensures interval <= IntervalAt(replies, interval, m1) <= IntervalAt(replies, interval, m2)
    decreases m2
  {
    if m1 < m2 {
      IntervalNeverDecreases(replies, interval, m1, m2 - 1);
    } else if m1 > 0 {
      IntervalNeverDecreases(replies, interval, m1 - 1, m1 - 1);
    }
  }

  /** The `time.sleep` arguments of the first `n` rounds; round `j` sleeps the interval as its reply left it. */
  function Slept(replies: nat -> Reply, interval: int, n: nat): (s: seq<int>)
    ensures |s| == n
    ensures forall j :: 0 <= j < n ==> s[j] == IntervalAt(replies, interval, j + 1)
  {
    if n == 0 then [] else Slept(replies, interval, n - 1) + [IntervalAt(replies, interval, n)]
  }

  /** Consecutive sleeps grow by 5 after a `slow_down` and stay the same otherwise. */
  lemma SleepsGrowBySlowDown(replies: nat -> Reply, interval: int, n: nat, j: nat)
    requires 0 < j < n
    ensures Slept(replies, interval, n)[j] ==
            Slept(replies, interval, n)[j - 1] + (if replies(j) == Error("slow_down") then 5 else 0)
  {
  }

  /** A round that keeps the loop going: the polling continues from the next round, with the interval and sleeps it leaves. */
  lemma RoundContinues(start: real, expiresIn: int, checks: seq<real>, replies: nat -> Reply, interval: int, k: nat)
    requires InTime(start, expiresIn, checks, k) && KeepsPolling(replies(k))
    ensures PollFrom(start, expiresIn, checks, replies, k) == PollFrom(start, expiresIn, checks, replies, k + 1)
    ensures IntervalAt(replies, interval, k + 1) ==
            IntervalAt(replies, interval, k) + (if replies(k) == Error("slow_down") then 5 else 0)
    ensures Slept(replies, interval, k + 1) == Slept(replies, interval, k) + [IntervalAt(replies, interval, k + 1)]
  {
  }

  /** A round that ends the loop: a token, an error that is not retried, or the clock past the deadline. */
  lemma RoundEnds(start: real, expiresIn: int, checks: seq<real>, replies: nat -> Reply, k: nat)
    ensures !InTime(start, expiresIn, checks, k) ==> PollFrom(start, expiresIn, checks, replies, k) == (TimedOut, k)
    ensures InTime(start, expiresIn, checks, k) && replies(k).Token? ==>
              PollFrom(start, expiresIn, checks, replies, k) == (Authorized(replies(k).token), k)
    ensures InTime(start, expiresIn, checks, k) && replies(k).Error? && !KeepsPolling(replies(k)) ==>
              PollFrom(start, expiresIn, checks, replies, k) == (Refused(replies(k).error), k)
  {
  }

  // ---------------------------------------------------------------------
  // The handler

  /** A truthy token: set and not empty. */
  predicate HasToken(t: Option<string>) { t.Some? && t.value != "" }

  /** The device-code reply: a failure (status other than 200, or an error), or the code and the optional timing fields. */
  datatype DeviceReply = DeviceFailed | DeviceCode(code: string, interval: Option<int>, expiresIn: Option<int>)

  /** `int(device_flow_data.get('interval', 5))`: the default of section 3.2 of RFC 8628. */
  function IntervalOf(d: DeviceReply): (r: int)
    requires d.DeviceCode?
    ensures d.interval.None? ==> r == 5
    ensures d.interval.Some? ==> r == d.interval.value
  {
    if d.interval.Some? then d.interval.value else 5
  }

  /** `int(device_flow_data.get('expires_in', 900))`. */
  function ExpiresOf(d: DeviceReply): (r: int)
    requires d.DeviceCode?
    ensures d.expiresIn.None? ==> r == 900
    ensures d.expiresIn.Some? ==> r == d.expiresIn.value
  {
    if d.expiresIn.Some? then d.expiresIn.value else 900
  }

  /** The clock readings cover the polling: the last one is past the deadline. */
  predicate ClockRunsOut(start: real, expiresIn: int, checks: seq<real>) {
    checks != [] && !InTime(start, expiresIn, checks, |checks| - 1)
  }

  /** `GitHubAuthHandlerWeb`: the token and the account's login (`user_info`). */
  class GitHubAuthHandlerWeb {
    var token: Option<string>
    var userInfo: Option<string>

    /**
     * `__init__` with `load_cached_token`: the cached token is kept only when
     * it is truthy and the account lookup `lookup` succeeds.
     */
    constructor(cached: Option<string>, lookup: Option<string>)
      ensures token == (if HasToken(cached) && lookup.Some? then cached else None)
      ensures userInfo == (if HasToken(cached) && lookup.Some? then lookup else None)
    {
      token, userInfo := cached, None;
      if HasToken(cached) && lookup.Some? {
        userInfo := lookup;
      } else {
        token := None;
      }
    }

    /** `get_user_info`: no lookup without a truthy token; a successful lookup is remembered. */
    method GetUserInfo(lookup: Option<string>) returns (info: Option<string>)
      modifies this
      ensures info == (if HasToken(token) then lookup else None)
      ensures token == old(token)
      ensures userInfo == (if info.Some? then info else old(userInfo))
    {
      if !HasToken(token) {
        return None;
      }
      if lookup.Some? {
        userInfo := lookup;
      }
      info := lookup;
    }

    /** `is_authenticated`: a token is set and the account lookup succeeds with it. */
    method IsAuthenticated(lookup: Option<string>) returns (b: bool)
      modifies this
      ensures b <==> HasToken(old(token)) && lookup.Some?
      ensures token == old(token)
      ensures userInfo == (if b then lookup else old(userInfo))
    {
      if token.None? {
        return false;
      }
      var info := GetUserInfo(lookup);
      b := info.Some?;
    }

    /**
     * `_poll_for_token`. `start` is the first clock reading, `checks` the
     * readings of the loop's condition, `replies` the token endpoint's replies
     * and `lookup` the account lookup made once a token arrives. Returns the
     * outcome and the intervals slept.
     */
    method PollForToken(interval: int, expiresIn: int, start: real, checks: seq<real>,
                        replies: nat -> Reply, lookup: Option<string>)
      returns (ok: bool, slept: seq<int>)
      requires ClockRunsOut(start, expiresIn, checks)
      modifies this
      ensures var (res, last) := PollFrom(start, expiresIn, checks, replies, 0);
              (ok <==> res.Authorized?) &&
              slept == Slept(replies, interval, last) &&
              (ok ==> token == Some(res.token) &&
                      userInfo == (if HasToken(token) && lookup.Some? then lookup else old(userInfo))) &&
              (!ok ==> token == old(token) && userInfo == old(userInfo))
    {
      var k := 0;
      var iv := interval;
      slept := [];
      while checks[k] - start < expiresIn as real
        invariant 0 <= k < |checks|
        invariant PollFrom(start, expiresIn, checks, replies, k) == PollFrom(start, expiresIn, checks, replies, 0)
        invariant iv == IntervalAt(replies, interval, k)
        invariant slept == Slept(replies, interval, k)
        invariant token == old(token) && userInfo == old(userInfo)
        decreases |checks| - k
      {
        var reply := replies(k);
        assert InTime(start, expiresIn, checks, k);
        RoundEnds(start, expiresIn, checks, replies, k);
        if reply.Token? {
          token := Some(reply.token);
          var info := GetUserInfo(lookup);
          return true, slept;
        }
        if reply.Error? {
          var error := reply.error;
          if error == "authorization_pending" {
          } else if error == "slow_down" {
            iv := iv + 5;
          } else if error == "expired_token" {
            return false, slept;
          } else if error == "access_denied" {
            return false, slept;
          } else {
            return false, slept;
          }
        }
        RoundContinues(start, expiresIn, checks, replies, interval, k);
        slept := slept + [iv];
        k := k + 1;
      }
      RoundEnds(start, expiresIn, checks, replies, k);
      return false, slept;
    }

    /**
     * `authenticate`: nothing is requested when already signed in; otherwise
     * a device code is requested and, when granted, the token endpoint is
     * polled with its interval and lifetime (5 and 900 seconds by default).
     */
    method Authenticate(lookup: Option<string>, device: DeviceReply, start: real, checks: seq<real>,
                        replies: nat -> Reply, lookupAfter: Option<string>)
      returns (ok: bool, slept: seq<int>)
      requires device.DeviceCode? ==> ClockRunsOut(start, ExpiresOf(device), checks)
      modifies this
      ensures HasToken(old(token)) && lookup.Some? ==> ok && slept == [] && token == old(token) && userInfo == lookup
      ensures !(HasToken(old(token)) && lookup.Some?) && device.DeviceFailed? ==>
                !ok && slept == [] && token == old(token) && userInfo == old(userInfo)
      ensures !(HasToken(old(token)) && lookup.Some?) && device.DeviceCode? ==>
                var (res, last) := PollFrom(start, ExpiresOf(device), checks, replies, 0);
                (ok <==> res.Authorized?) && slept == Slept(replies, IntervalOf(device), last) &&
                (ok ==> token == Some(res.token) &&
                        userInfo == (if HasToken(token) && lookupAfter.Some? then lookupAfter else old(userInfo))) &&
                (!ok ==> token == old(token) && userInfo == old(userInfo))
      ensures ok ==> token.Some?
    {
      var signedIn := IsAuthenticated(lookup);
      if signedIn {
        return true, [];
      }
      if device.DeviceFailed? {
        return false, [];
      }
      ok, slept := PollForToken(IntervalOf(device), ExpiresOf(device), start, checks, replies, lookupAfter);
      if !ok {
        assert token == old(token);
        assert HasToken(old(token)) ==> lookup.None?;
      }
    }

    /** `logout`: both the token and the account details are forgotten; it always succeeds. */
    method Logout() returns (ok: bool)
      modifies this
      ensures token == None && userInfo == None && ok
    {
      token := None;
      userInfo := None;
      return true;
    }
  }
}
