/**
 * The GitHub sign-in controller of src/hooks/useGitHubAuth.ts: session
 * restore, the device authorization grant of RFC 8628 (device code, then a
 * token poll that reschedules itself), logout and error clearing.
 *
 * Each handler is one atomic step. `Date.now()` is a parameter, `setTimeout`
 * is the `timer` field (the one pending poll and the values its closure
 * captured), and `sessionStorage` is a map.
 */
module Auth {
  import opened Common
  import opened Text
  import opened Types
  import opened GitHubClient

  const TokenStorageKey := "github_token"
  const UserStorageKey := "github_user"
  const ExpiredMessage := "Authentication expired. Please try again."
  const DeniedMessage := "Authentication was denied."
  const SlowDownPenalty := 5000

  /** Where the hook starts: nothing known yet, still loading. */
  const InitialAuthState := GitHubAuthState(false, None, None, true, None)

  /** The state after `logout`. */
  const SignedOut := GitHubAuthState(false, None, None, false, None)

  function Lookup(storage: map<string, string>, key: string): Option<string> {
    if key in storage then Some(storage[key]) else None
  }

  // ---------------------------------------------------------------------
  // Session restore

  /** The auth state once the saved session has been read: both keys must be
      present and non-empty and the saved user must parse. */
  function RestoredAuth(prev: GitHubAuthState, storage: map<string, string>,
                        parseUser: string -> Option<GitHubUser>): GitHubAuthState
  {
    var token := Lookup(storage, TokenStorageKey);
    var saved := Lookup(storage, UserStorageKey);
    if Truthy(token) && Truthy(saved) && parseUser(saved.value).Some? then
      GitHubAuthState(true, token, parseUser(saved.value), false, None)
    else
      prev.(isLoading := false)
  }

  /** The storage once the saved session has been read: an unreadable saved
      user removes both keys. */
  function RestoredStorage(storage: map<string, string>, parseUser: string -> Option<GitHubUser>): map<string, string> {
    var token := Lookup(storage, TokenStorageKey);
    var saved := Lookup(storage, UserStorageKey);
    if Truthy(token) && Truthy(saved) && parseUser(saved.value).None? then
      storage - {TokenStorageKey, UserStorageKey}
    else
      storage
  }

  /** Restore signs in exactly when both keys hold non-empty values and the
      user parses; loading is over in every case; a user that does not parse
      clears both keys and nothing else, and otherwise storage is untouched. */
  lemma {:induction false} RestoreSessionIff(prev: GitHubAuthState, storage: map<string, string>,
                                            parseUser: string -> Option<GitHubUser>)
    requires !prev.isAuthenticated
    ensures var a := RestoredAuth(prev, storage, parseUser);
      && !a.isLoading
      && (a.isAuthenticated <==>
            && TokenStorageKey in storage && storage[TokenStorageKey] != ""
            && UserStorageKey in storage && storage[UserStorageKey] != ""
            && parseUser(storage[UserStorageKey]).Some?)
      && (a.isAuthenticated ==> a.token == Some(storage[TokenStorageKey]) && a.user == parseUser(storage[UserStorageKey]))
    ensures var s := RestoredStorage(storage, parseUser);
      && (s != storage ==> s == storage - {TokenStorageKey, UserStorageKey})
      && (s != storage <==>
            && TokenStorageKey in storage && storage[TokenStorageKey] != ""
            && UserStorageKey in storage && storage[UserStorageKey] != ""
            && parseUser(storage[UserStorageKey]).None?)
  {
    var token := Lookup(storage, TokenStorageKey);
    var saved := Lookup(storage, UserStorageKey);
    if Truthy(token) && Truthy(saved) && parseUser(saved.value).None? {
      assert TokenStorageKey !in RestoredStorage(storage, parseUser);
    }
  }

  /** What a successful poll saves is restored by the next visit, provided the
      user survives its JSON round trip and neither saved value is empty. */
  lemma SessionRoundTrip(prev: GitHubAuthState, storage: map<string, string>, token: string, user: GitHubUser,
                         parseUser: string -> Option<GitHubUser>, stringifyUser: GitHubUser -> string)
    requires token != "" && stringifyUser(user) != ""
    requires parseUser(stringifyUser(user)) == Some(user)
    ensures var saved := storage[TokenStorageKey := token][UserStorageKey := stringifyUser(user)];
      && RestoredAuth(prev, saved, parseUser) == GitHubAuthState(true, Some(token), Some(user), false, None)
      && RestoredStorage(saved, parseUser) == saved
  {
  }

  // ---------------------------------------------------------------------
  // The poll step

  /** A scheduled poll: the closure's captured device code, interval and
      deadline (all in milliseconds), and the delay it was scheduled with. */
  datatype PollTimer = PollTimer(deviceCode: string, pollInterval: int, expiresAt: int, delay: int)

  /** What one run of `poll` decides. `Expired` is the deadline test, which
      comes before any request; `Stopped` carries the error shown, or `None`
      when a non-`Error` value was thrown and the error is left as it was. */
  datatype PollOutcome =
    | Expired
    | Authorized(token: string, user: GitHubUser)
    | Reschedule(delay: int)
    | Stopped(error: Option<string>)

  /** The `catch` of `poll`. */
  function PollFailure(e: Exception, pollInterval: int): (r: PollOutcome)
    ensures r.Reschedule? ==> r.delay == pollInterval || r.delay == pollInterval + SlowDownPenalty
    ensures e.JsError? && e.message == AuthorizationPending <==> r == Reschedule(pollInterval)
    ensures e.JsError? && e.message == SlowDown <==> r == Reschedule(pollInterval + SlowDownPenalty)
    ensures e.JsError? && e.message == ExpiredToken ==> r == Stopped(Some(ExpiredMessage))
    ensures e.JsError? && e.message == AccessDenied ==> r == Stopped(Some(DeniedMessage))
    ensures e.JsError? && e.message !in {AuthorizationPending, SlowDown, ExpiredToken, AccessDenied} ==>
      r == Stopped(Some(e.message))
    ensures e.NonErrorValue? <==> r == Stopped(None)
  {
    match e
    case NonErrorValue => Stopped(None)
    case JsError(_, message) =>
      if message == AuthorizationPending then Reschedule(pollInterval)
      else if message == SlowDown then Reschedule(pollInterval + SlowDownPenalty)
      else if message == ExpiredToken then Stopped(Some(ExpiredMessage))
      else if message == AccessDenied then Stopped(Some(DeniedMessage))
      else Stopped(Some(message))
  }

  /** One run of `poll` at time `now`: the deadline test, then the token
      request, then (with the token) the user request. The delays are the
      captured interval, plus five seconds after `slow_down`; the interval
      itself never grows. */
  function DecidePoll(now: int, t: PollTimer, tokenFetch: Fetched<TokenBody>, userFetch: Fetched<GitHubUser>): (r: PollOutcome)
    ensures r.Expired? <==> now >= t.expiresAt
    ensures r.Reschedule? ==> r.delay == t.pollInterval || r.delay == t.pollInterval + SlowDownPenalty
    ensures r.Authorized? <==> now < t.expiresAt && PollForToken(tokenFetch).Returned? && GetCurrentUser(userFetch).Returned?
    ensures r.Authorized? ==> r.token == PollForToken(tokenFetch).value.accessToken && r.user == GetCurrentUser(userFetch).value
    ensures now < t.expiresAt && PollForToken(tokenFetch).Threw? ==>
      r == PollFailure(PollForToken(tokenFetch).exception, t.pollInterval)
    ensures now < t.expiresAt && PollForToken(tokenFetch).Returned? && GetCurrentUser(userFetch).Threw? ==>
      r == PollFailure(GetCurrentUser(userFetch).exception, t.pollInterval)
  {
    if now >= t.expiresAt then Expired
    else
      match PollForToken(tokenFetch)
      case Threw(e) => PollFailure(e, t.pollInterval)
      case Returned(tokenResponse) =>
        match GetCurrentUser(userFetch)
        case Threw(e) => PollFailure(e, t.pollInterval)
        case Returned(user) => Authorized(tokenResponse.accessToken, user)
  }

  /** Past the deadline no request is made: the replies do not matter. */
  lemma ExpiredPollMakesNoRequest(now: int, t: PollTimer, tokenA: Fetched<TokenBody>, userA: Fetched<GitHubUser>,
                                  tokenB: Fetched<TokenBody>, userB: Fetched<GitHubUser>)
    requires now >= t.expiresAt
    ensures DecidePoll(now, t, tokenA, userA) == DecidePoll(now, t, tokenB, userB) == Expired
  {
  }

  /** How the token endpoint's error codes (section 3.5 of RFC 8628) steer the
      poll, for a request made before the deadline. */
  lemma PollErrorCodes(now: int, t: PollTimer, reply: HttpReply<TokenBody>, userFetch: Fetched<GitHubUser>)
    requires now < t.expiresAt && reply.payload.error.Some?
    ensures var code := reply.payload.error.value;
      var r := DecidePoll(now, t, Returned(reply), userFetch);
      && (code == "authorization_pending" ==> r == Reschedule(t.pollInterval))
      && (code == "slow_down" ==> r == Reschedule(t.pollInterval + SlowDownPenalty))
      && (code == "expired_token" ==> r == Stopped(Some(ExpiredMessage)))
      && (code == "access_denied" ==> r == Stopped(Some(DeniedMessage)))
      && (code !in {"", "authorization_pending", "slow_down", "expired_token", "access_denied"} ==>
            && r == Stopped(Some(TokenErrorMessage(code, reply.payload.errorDescription)))
            && StartsWith(r.error.value, AuthFailedPrefix))
  {
    var code := reply.payload.error.value;
    if code !in {"", "authorization_pending", "slow_down", "expired_token", "access_denied"} {
      var m := TokenErrorMessage(code, reply.payload.errorDescription);
      assert StartsWith(m, AuthFailedPrefix);
      assert m != AuthorizationPending && m != SlowDown && m != ExpiredToken && m != AccessDenied by {
        assert |AuthFailedPrefix| <= |m|;
      }
    }
  }

  /** The other ways a poll made before the deadline stops: a refused user
      lookup shows its 'Failed to get user info: ' message, a request that
      throws an `Error` (a network `TypeError`, say) shows that error's own
      message, and any other thrown value leaves the error as it was. */
  lemma PollStopsOnFailure(now: int, t: PollTimer, tokenFetch: Fetched<TokenBody>, userFetch: Fetched<GitHubUser>)
    requires now < t.expiresAt
    ensures PollForToken(tokenFetch).Returned? && userFetch.Returned? && !userFetch.value.Ok() ==>
      DecidePoll(now, t, tokenFetch, userFetch) == Stopped(Some("Failed to get user info: " + userFetch.value.apiError.message))
    ensures && tokenFetch.Threw? && tokenFetch.exception.JsError?
            && tokenFetch.exception.message !in {AuthorizationPending, SlowDown, ExpiredToken, AccessDenied}
        ==> DecidePoll(now, t, tokenFetch, userFetch) == Stopped(Some(tokenFetch.exception.message))
    ensures tokenFetch.Threw? && tokenFetch.exception.NonErrorValue? ==>
      DecidePoll(now, t, tokenFetch, userFetch) == Stopped(None)
  {
    if PollForToken(tokenFetch).Returned? && userFetch.Returned? && !userFetch.value.Ok() {
      var m := "Failed to get user info: " + userFetch.value.apiError.message;
      assert m[0] == 'F';
    }
  }

  // ---------------------------------------------------------------------
  // Runs of the poll loop

  /** One run of `poll`: when it fired and what it decided. */
  datatype PollEvent = PollEvent(at: int, outcome: PollOutcome)

  /** The replies one run of `poll` would get, if it asked. */
  datatype PollReplies = PollReplies(token: Fetched<TokenBody>, user: Fetched<GitHubUser>)

  /** The runs of `poll` after one scheduled at time `now` with timer `t`:
      each fires `t.delay` later plus its lateness (a timer is never early),
      and the chain goes on exactly while the outcome is `Reschedule`. */
  function RunFrom(now: int, t: PollTimer, replies: seq<PollReplies>, lateness: seq<nat>): (events: seq<PollEvent>)
    requires |lateness| == |replies|
    ensures |events| <= |replies|
    decreases |replies|
  {
    if replies == [] then []
    else
      var at := now + t.delay + lateness[0];
      var outcome := DecidePoll(at, t, replies[0].token, replies[0].user);
      [PollEvent(at, outcome)] + (
        if outcome.Reschedule? then RunFrom(at, t.(delay := outcome.delay), replies[1..], lateness[1..])
        else [])
  }

  /** The shape every run has: all events but the last reschedule, every
      reschedule waits the interval or the interval plus five seconds, an
      event is the expiry test exactly when it fires at or after the
      deadline (so every request is made before it), and consecutive events
      fire at least an interval apart. */
  ghost predicate RunShaped(ev: seq<PollEvent>, t: PollTimer, now: int) {
    && (forall k :: 0 <= k < |ev| - 1 ==> ev[k].outcome.Reschedule?)
    && (forall k :: 0 <= k < |ev| && ev[k].outcome.Reschedule? ==>
          ev[k].outcome.delay == t.pollInterval || ev[k].outcome.delay == t.pollInterval + SlowDownPenalty)
    && (forall k :: 0 <= k < |ev| ==> (ev[k].outcome.Expired? <==> ev[k].at >= t.expiresAt))
    && (ev != [] ==> ev[0].at >= now + t.delay)
    && (forall k :: 1 <= k < |ev| ==> ev[k].at >= ev[k - 1].at + t.pollInterval)
  }

  lemma {:induction false} RunFromShape(now: int, t: PollTimer, replies: seq<PollReplies>, lateness: seq<nat>)
    requires |lateness| == |replies|
    requires t.pollInterval >= 0
    ensures RunShaped(RunFrom(now, t, replies, lateness), t, now)
    decreases |replies|
  {
    var ev := RunFrom(now, t, replies, lateness);
    if replies != [] {
      var at := now + t.delay + lateness[0];
      var outcome := DecidePoll(at, t, replies[0].token, replies[0].user);
      if outcome.Reschedule? {
        var t' := t.(delay := outcome.delay);
        var rest := RunFrom(at, t', replies[1..], lateness[1..]);
        RunFromShape(at, t', replies[1..], lateness[1..]);
        assert ev == [PollEvent(at, outcome)] + rest;
        forall k | 1 <= k < |ev|
          ensures ev[k].at >= ev[k - 1].at + t.pollInterval
        {
          assert ev[k] == rest[k - 1];
          if k >= 2 {
            assert ev[k - 1] == rest[k - 2];
          }
        }
      }
    }
  }

  lemma {:induction false} GapsAccumulate(ev: seq<PollEvent>, pollInterval: int, k: nat)
    requires forall j :: 1 <= j < |ev| ==> ev[j].at >= ev[j - 1].at + pollInterval
    requires k < |ev|
    ensures ev[k].at >= ev[0].at + k * pollInterval
    decreases k
  {
    if k > 0 {
      GapsAccumulate(ev, pollInterval, k - 1);
      assert (k - 1) * pollInterval + pollInterval == k * pollInterval;
    }
  }

  /** Polling respects the deadline: with an interval of at least one
      millisecond and a first delay of at least one interval, the number of
      polls that reschedule is below `(expiresAt - now) / interval`, so a run
      that does not stop early ends with the expiry test. */
  lemma RunFromBound(now: int, t: PollTimer, replies: seq<PollReplies>, lateness: seq<nat>)
    requires |lateness| == |replies|
    requires t.delay >= t.pollInterval >= 1
    ensures var ev := RunFrom(now, t, replies, lateness);
      |ev| >= 2 ==> (|ev| - 1) * t.pollInterval < t.expiresAt - now
  {
    RunFromShape(now, t, replies, lateness);
    ShapedBound(RunFrom(now, t, replies, lateness), t, now);
  }

  lemma ShapedBound(ev: seq<PollEvent>, t: PollTimer, now: int)
    requires RunShaped(ev, t, now)
    requires t.delay >= t.pollInterval >= 1
    ensures |ev| >= 2 ==> (|ev| - 1) * t.pollInterval < t.expiresAt - now
  {
    if |ev| >= 2 {
      var k := |ev| - 2;
      assert ev[k].outcome.Reschedule?;
      assert ev[k].at < t.expiresAt;
      GapsAccumulate(ev, t.pollInterval, k);
      assert (|ev| - 1) * t.pollInterval == k * t.pollInterval + t.pollInterval;
    }
  }

  /** Two pending replies and then a token: the polls fire one interval apart
      (when on time), and the third signs in. */
  lemma RunPendingPendingSuccess(now: int, t: PollTimer, pending: HttpReply<TokenBody>, anyUser: Fetched<GitHubUser>,
                                 success: HttpReply<TokenBody>, user: HttpReply<GitHubUser>)
    requires t.delay == t.pollInterval >= 0 && now + 3 * t.pollInterval < t.expiresAt
    requires pending.payload.error == Some("authorization_pending")
    requires !Truthy(success.payload.error) && user.Ok()
    ensures RunFrom(now, t, [PollReplies(Returned(pending), anyUser), PollReplies(Returned(pending), anyUser),
                             PollReplies(Returned(success), Returned(user))], [0, 0, 0])
      == [PollEvent(now + t.pollInterval, Reschedule(t.pollInterval)),
          PollEvent(now + 2 * t.pollInterval, Reschedule(t.pollInterval)),
          PollEvent(now + 3 * t.pollInterval, Authorized(success.payload.token.accessToken, user.payload))]
  {
    var p := PollReplies(Returned(pending), anyUser);
    var s := PollReplies(Returned(success), Returned(user));
    PollErrorCodes(now + t.pollInterval, t, pending, anyUser);
    PollErrorCodes(now + 2 * t.pollInterval, t, pending, anyUser);
    assert RunFrom(now + 2 * t.pollInterval, t, [s], [0])
      == [PollEvent(now + 3 * t.pollInterval, Authorized(success.payload.token.accessToken, user.payload))];
    assert [p, p, s][1..] == [p, s] && [p, s][1..] == [s];
    assert [0, 0, 0][1..] == [0, 0] && [0, 0][1..] == [0];
  }

  /** `slow_down` adds five seconds to the next wait only: the poll after it
      is back to the plain interval. */
  lemma RunSlowDownThenPending(now: int, t: PollTimer, slow: HttpReply<TokenBody>, pending: HttpReply<TokenBody>,
                               anyUser: Fetched<GitHubUser>, last: PollReplies)
    requires t.delay == t.pollInterval >= 0 && now + 3 * t.pollInterval + SlowDownPenalty < t.expiresAt
    requires slow.payload.error == Some("slow_down") && pending.payload.error == Some("authorization_pending")
    ensures var ev := RunFrom(now, t, [PollReplies(Returned(slow), anyUser), PollReplies(Returned(pending), anyUser), last], [0, 0, 0]);
      && |ev| == 3
      && ev[0] == PollEvent(now + t.pollInterval, Reschedule(t.pollInterval + SlowDownPenalty))
      && ev[1] == PollEvent(now + 2 * t.pollInterval + SlowDownPenalty, Reschedule(t.pollInterval))
      && ev[2].at == now + 3 * t.pollInterval + SlowDownPenalty
  {
    var a := PollReplies(Returned(slow), anyUser);
    var b := PollReplies(Returned(pending), anyUser);
    var t1 := t.(delay := t.pollInterval + SlowDownPenalty);
    var t2 := t.(delay := t.pollInterval);
    PollErrorCodes(now + t.pollInterval, t, slow, anyUser);
    PollErrorCodes(now + 2 * t.pollInterval + SlowDownPenalty, t1, pending, anyUser);
    assert [a, b, last][1..] == [b, last] && [b, last][1..] == [last];
    assert [0, 0, 0][1..] == [0, 0] && [0, 0][1..] == [0];
    assert |RunFrom(now + 2 * t.pollInterval + SlowDownPenalty, t2, [last], [0])| == 1;
  }

  lemma RunFromUnfold(now: int, t: PollTimer, replies: seq<PollReplies>, lateness: seq<nat>, i: nat)
    requires |lateness| == |replies| && i < |replies|
    ensures var at := now + t.delay + lateness[i];
      var outcome := DecidePoll(at, t, replies[i].token, replies[i].user);
      RunFrom(now, t, replies[i..], lateness[i..])
        == [PollEvent(at, outcome)]
           + (if outcome.Reschedule? then RunFrom(at, t.(delay := outcome.delay), replies[i + 1..], lateness[i + 1..]) else [])
  {
    assert replies[i..][1..] == replies[i + 1..] && lateness[i..][1..] == lateness[i + 1..];
  }

  /** One more event of a run: the prefix seen so far grows by the event,
      and what remains is the run of the rescheduled timer, or nothing. */
  lemma RunAdvance(events: seq<PollEvent>, now: int, t: PollTimer, replies: seq<PollReplies>, lateness: seq<nat>,
                   i: nat, full: seq<PollEvent>)
    requires |lateness| == |replies| && i < |replies|
    requires events + RunFrom(now, t, replies[i..], lateness[i..]) == full
    ensures var at := now + t.delay + lateness[i];
      var outcome := DecidePoll(at, t, replies[i].token, replies[i].user);
      && (outcome.Reschedule? ==>
            (events + [PollEvent(at, outcome)]) + RunFrom(at, t.(delay := outcome.delay), replies[i + 1..], lateness[i + 1..]) == full)
      && (!outcome.Reschedule? ==> events + [PollEvent(at, outcome)] == full)
  {
    var at := now + t.delay + lateness[i];
    var outcome := DecidePoll(at, t, replies[i].token, replies[i].user);
    RunFromUnfold(now, t, replies, lateness, i);
    if outcome.Reschedule? {
      AppendEvent(events, PollEvent(at, outcome), RunFrom(at, t.(delay := outcome.delay), replies[i + 1..], lateness[i + 1..]), full);
    } else {
      AppendEvent(events, PollEvent(at, outcome), [], full);
    }
  }

  lemma AppendEvent(events: seq<PollEvent>, e: PollEvent, rest: seq<PollEvent>, full: seq<PollEvent>)
    requires events + ([e] + rest) == full
    ensures (events + [e]) + rest == full
    ensures rest == [] ==> events + [e] == full
  {
    assert events + ([e] + rest) == (events + [e]) + rest;
  }

  // ---------------------------------------------------------------------
  // The controller

  /** The controller's fields other than the timer. */
  datatype ControllerState = ControllerState(auth: GitHubAuthState, flow: Option<DeviceFlowResponse>,
                                             polling: bool, storage: map<string, string>)

  class AuthController {
    var authState: GitHubAuthState
    var deviceFlow: Option<DeviceFlowResponse>
    var isPolling: bool
    var storage: map<string, string>
    /** The pending `setTimeout(poll, delay)`, if any. */
    var timer: Option<PollTimer>
    /** `JSON.parse` and `JSON.stringify` of the saved user, not modelled. */
    const parseUser: string -> Option<GitHubUser>
    const stringifyUser: GitHubUser -> string

    constructor(storage0: map<string, string>, parse: string -> Option<GitHubUser>, stringify: GitHubUser -> string)
      ensures authState == InitialAuthState && deviceFlow == None && !isPolling && timer == None
      ensures storage == storage0 && parseUser == parse && stringifyUser == stringify
    {
      authState := InitialAuthState;
      deviceFlow := None;
      isPolling := false;
      storage := storage0;
      timer := None;
      parseUser := parse;
      stringifyUser := stringify;
    }

    /** The mount effect: read the saved session. */
    method RestoreSession()
      modifies this
      ensures authState == RestoredAuth(old(authState), old(storage), parseUser)
      ensures storage == RestoredStorage(old(storage), parseUser)
      ensures deviceFlow == old(deviceFlow) && isPolling == old(isPolling) && timer == old(timer)
    {
      var token := Lookup(storage, TokenStorageKey);
      var saved := Lookup(storage, UserStorageKey);
      if Truthy(token) && Truthy(saved) {
        var user := parseUser(saved.value);
        if user.Some? {
          authState := GitHubAuthState(true, token, user, false, None);
        } else {
          storage := storage - {TokenStorageKey, UserStorageKey};
          authState := authState.(isLoading := false);
        }
      } else {
        authState := authState.(isLoading := false);
      }
    }

    /** The part of `startDeviceFlow` before its `await`: the hook shows it
        is loading, with no error, while the device code is requested. */
    method BeginDeviceFlow()
      modifies this
      ensures authState == old(authState).(isLoading := true, error := None)
      ensures deviceFlow == old(deviceFlow) && isPolling == old(isPolling)
      ensures storage == old(storage) && timer == old(timer)
    {
      authState := authState.(isLoading := true, error := None);
    }

    /** The rest of `startDeviceFlow`, with `fetched` the reply to the device
        code request: the flow is stored on success, and a failure shows its
        message, or the fallback for a non-`Error`; loading ends either way. */
    method FinishDeviceFlow(fetched: Fetched<DeviceFlowResponse>)
      modifies this
      ensures InitiateDeviceFlow(fetched).Returned? ==>
        deviceFlow == Some(InitiateDeviceFlow(fetched).value) && authState == old(authState).(isLoading := false)
      ensures InitiateDeviceFlow(fetched).Threw? ==>
        && deviceFlow == old(deviceFlow)
        && authState == old(authState).(isLoading := false,
             error := Some(MessageOr(InitiateDeviceFlow(fetched).exception, "Failed to start authentication")))
      ensures isPolling == old(isPolling) && storage == old(storage) && timer == old(timer)
    {
      match InitiateDeviceFlow(fetched) {
        case Returned(f) =>
          deviceFlow := Some(f);
          authState := authState.(isLoading := false);
        case Threw(e) =>
          authState := authState.(isLoading := false, error := Some(MessageOr(e, "Failed to start authentication")));
      }
    }

    /** `startDeviceFlow`, both parts run back to back. */
    method StartDeviceFlow(fetched: Fetched<DeviceFlowResponse>)
      modifies this
      ensures InitiateDeviceFlow(fetched).Returned? ==>
        deviceFlow == Some(InitiateDeviceFlow(fetched).value) && authState == old(authState).(isLoading := false, error := None)
      ensures InitiateDeviceFlow(fetched).Threw? ==>
        && deviceFlow == old(deviceFlow)
        && authState == old(authState).(isLoading := false,
             error := Some(MessageOr(InitiateDeviceFlow(fetched).exception, "Failed to start authentication")))
      ensures isPolling == old(isPolling) && storage == old(storage) && timer == old(timer)
    {
      BeginDeviceFlow();
      FinishDeviceFlow(fetched);
    }

    /** `startPolling` at time `now`: a no-op without a flow or while polling;
        otherwise the first poll is scheduled one interval later. */
    method StartPolling(now: int)
      modifies this
      ensures old(deviceFlow).None? || old(isPolling) ==>
        isPolling == old(isPolling) && timer == old(timer)
      ensures old(deviceFlow).Some? && !old(isPolling) ==>
        var f := old(deviceFlow).value;
        && isPolling
        && timer == Some(PollTimer(f.deviceCode, f.interval * 1000, now + f.expiresIn * 1000, f.interval * 1000))
      ensures authState == old(authState) && deviceFlow == old(deviceFlow) && storage == old(storage)
    {
      if deviceFlow.None? || isPolling {
        return;
      }
      isPolling := true;
      var pollInterval := deviceFlow.value.interval * 1000;
      var expiresAt := now + deviceFlow.value.expiresIn * 1000;
      timer := Some(PollTimer(deviceFlow.value.deviceCode, pollInterval, expiresAt, pollInterval));
    }

    /** The pending poll fires at time `now`. Signing in stores the token and
        the user and ends polling; a reschedule changes only the timer's
        delay; every other outcome ends polling and drops the flow. */
    method Poll(now: int, replies: PollReplies) returns (outcome: PollOutcome)
      requires timer.Some?
      modifies this
      ensures outcome == DecidePoll(now, old(timer).value, replies.token, replies.user)
      ensures outcome.Reschedule? ==>
        && timer == Some(old(timer).value.(delay := outcome.delay))
        && authState == old(authState) && deviceFlow == old(deviceFlow)
        && isPolling == old(isPolling) && storage == old(storage)
      ensures outcome.Authorized? ==>
        && authState == GitHubAuthState(true, Some(outcome.token), Some(outcome.user), false, None)
        && storage == old(storage)[TokenStorageKey := outcome.token][UserStorageKey := stringifyUser(outcome.user)]
      ensures outcome.Expired? ==> authState == old(authState).(error := Some(ExpiredMessage)) && storage == old(storage)
      ensures outcome.Stopped? ==>
        && authState == old(authState).(error := if outcome.error.Some? then outcome.error else old(authState).error)
        && storage == old(storage)
      ensures !outcome.Reschedule? ==> timer == None && !isPolling && deviceFlow == None
      ensures !outcome.Reschedule? ==> StoppedState(outcome, old(authState), old(storage))
    {
      var t := timer.value;
      outcome := DecidePoll(now, t, replies.token, replies.user);
      match outcome {
        case Reschedule(delay) =>
          timer := Some(t.(delay := delay));
        case Authorized(token, user) =>
          storage := storage[TokenStorageKey := token][UserStorageKey := stringifyUser(user)];
          authState := GitHubAuthState(true, Some(token), Some(user), false, None);
          isPolling := false;
          deviceFlow := None;
          timer := None;
        case Expired =>
          authState := authState.(error := Some(ExpiredMessage));
          isPolling := false;
          deviceFlow := None;
          timer := None;
        case Stopped(error) =>
          if error.Some? {
            authState := authState.(error := error);
          }
          isPolling := false;
          deviceFlow := None;
          timer := None;
      }
    }

    /** Lets the timer chain run, the `i`-th poll firing `lateness[i]` after
        its due time and getting `replies[i]`, until it stops or the replies
        run out. The trace is the one `RunFrom` predicts. A chain still
        waiting has changed nothing but its timer; a chain that stopped has
        ended polling, dropped the flow and left the state its last poll
        decided. */
    method RunPolling(start: int, replies: seq<PollReplies>, lateness: seq<nat>) returns (events: seq<PollEvent>)
      requires timer.Some? && |lateness| == |replies|
      modifies this
      ensures events == RunFrom(start, old(timer).value, replies, lateness)
      ensures timer.None? <==> events != [] && !events[|events| - 1].outcome.Reschedule?
      ensures timer.Some? ==>
        && authState == old(authState) && deviceFlow == old(deviceFlow)
        && isPolling == old(isPolling) && storage == old(storage)
      ensures timer.None? ==> !isPolling && deviceFlow == None
      ensures timer.None? ==> StoppedState(events[|events| - 1].outcome, old(authState), old(storage))
      ensures events != [] && events[|events| - 1].outcome.Authorized? ==>
        authState.isAuthenticated && authState.token == Some(events[|events| - 1].outcome.token)
    {
      var t0 := timer.value;
      var now := start;
      var i := 0;
      var running := true;
      ghost var full := RunFrom(start, t0, replies, lateness);
      ghost var state0 := Snapshot();
      events := [];
      while i < |replies| && running
        invariant 0 <= i <= |replies|
        invariant running <==> timer.Some?
        invariant running ==>
          && timer.value == t0.(delay := timer.value.delay)
          && Snapshot() == state0
          && events + RunFrom(now, timer.value, replies[i..], lateness[i..]) == full
          && (events == [] || events[|events| - 1].outcome.Reschedule?)
        invariant !running ==>
          && events == full
          && events != [] && !events[|events| - 1].outcome.Reschedule?
          && !isPolling && deviceFlow == None
          && StoppedState(events[|events| - 1].outcome, state0.auth, state0.storage)
        decreases |replies| - i
      {
        var at, outcome := PollNext(now, replies, lateness, i, events, full);
        events := events + [PollEvent(at, outcome)];
        assert events[|events| - 1].outcome == outcome;
        now := at;
        i := i + 1;
        running := outcome.Reschedule?;
      }
      if running {
        assert replies[i..] == [];
      }
    }

    /** One turn of `RunPolling`: the pending poll fires `lateness[i]` after
        its due time and gets `replies[i]`; the trace seen so far, `events`,
        grows by its event, and what remains of the expected run `full` is
        the run of the rescheduled timer, or nothing. */
    method PollNext(now: int, replies: seq<PollReplies>, lateness: seq<nat>, i: nat,
                    ghost events: seq<PollEvent>, ghost full: seq<PollEvent>) returns (at: int, outcome: PollOutcome)
      requires timer.Some? && |lateness| == |replies| && i < |replies|
      requires events + RunFrom(now, timer.value, replies[i..], lateness[i..]) == full
      modifies this
      ensures at == now + old(timer).value.delay + lateness[i]
      ensures outcome.Reschedule? ==>
        && timer == Some(old(timer).value.(delay := outcome.delay))
        && Snapshot() == old(Snapshot())
        && (events + [PollEvent(at, outcome)]) + RunFrom(at, timer.value, replies[i + 1..], lateness[i + 1..]) == full
      ensures !outcome.Reschedule? ==>
        && timer == None && !isPolling && deviceFlow == None
        && StoppedState(outcome, old(authState), old(storage))
        && events + [PollEvent(at, outcome)] == full
    {
      var t := timer.value;
      at := now + t.delay + lateness[i];
      outcome := Poll(at, replies[i]);
      RunAdvance(events, now, t, replies, lateness, i, full);
    }

    /** Everything but the timer. */
    function Snapshot(): ControllerState
      reads this
    {
      ControllerState(authState, deviceFlow, isPolling, storage)
    }

    /** The auth state and storage after the poll that ended a chain with
        `outcome`, starting from `auth0` and `storage0`: a sign-in stores the
        token and user, expiry shows its message, and any other stop shows
        its error, if it has one. */
    predicate StoppedState(outcome: PollOutcome, auth0: GitHubAuthState, storage0: map<string, string>)
      reads this
    {
      match outcome
      case Authorized(token, user) =>
        && authState == GitHubAuthState(true, Some(token), Some(user), false, None)
        && storage == storage0[TokenStorageKey := token][UserStorageKey := stringifyUser(user)]
      case Expired => authState == auth0.(error := Some(ExpiredMessage)) && storage == storage0
      case Stopped(error) =>
        && authState == auth0.(error := if error.Some? then error else auth0.error)
        && storage == storage0
      case Reschedule(_) => false
    }

    /** `logout`: both keys removed, signed out, no flow, not polling. A poll
        already scheduled is not cancelled. */
    method Logout()
      modifies this
      ensures storage == old(storage) - {TokenStorageKey, UserStorageKey}
      ensures authState == SignedOut && deviceFlow == None && !isPolling
      ensures timer == old(timer)
    {
      storage := storage - {TokenStorageKey, UserStorageKey};
      authState := SignedOut;
      deviceFlow := None;
      isPolling := false;
    }

    /** `clearError` changes the error and nothing else. */
    method ClearError()
      modifies this
      ensures authState == old(authState).(error := None)
      ensures deviceFlow == old(deviceFlow) && isPolling == old(isPolling)
      ensures storage == old(storage) && timer == old(timer)
    {
      authState := authState.(error := None);
    }
  }
}
