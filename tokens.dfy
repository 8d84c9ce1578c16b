/** The token lifecycle of libs/tokenhandler.py: the expiry test, the refresh
    retry loop, the credentials record, the authorization wait and the
    extraction of the code from the callback path. Times are integer
    milliseconds read from a clock that the caller passes in. */
module Tokens {
  import opened Py

  /** A token counts as expired from one second before `expires_at`. */
  const ExpiryMarginMs := 1000
  /** The refresh loop posts at most this many times. */
  const RefreshAttempts := 21
  /** The sleep after each of the first twenty failed refresh posts. */
  const RetryDelayMs := 3000
  /** The bound of the authorization wait loop, never reached. */
  const OAuthAttemptBound := 200

  /** The credentials file: the token server's reply, the refresh token and `expires_at`. */
  datatype Credentials = Credentials(
    accessToken: string, refreshToken: Option<string>, expiresInS: int, expiresAtMs: int)

  /** The JSON body of a token-server reply. */
  datatype TokenReply = TokenReply(accessToken: string, refreshToken: Option<string>, expiresInS: int)

  /** One reply of the token server: its status code and its body. */
  datatype TokenResponse = TokenResponse(status: int, reply: TokenReply)

  /** What `refresh_access_token` produces: None (no usable credentials), an
      access token, or the process exit it forces. */
  datatype Refreshed = NeedsAuthorization | AccessToken(token: string) | Exit(code: int)

  /** The outcome of `do_spotify_oauth`; StillWaiting stands for a wait that has
      not ended when the supplied polls run out. */
  datatype Authorization = Authorized(creds: Credentials) | ExchangeFailed | StillWaiting

  // ---------------------------------------------------------------------------
  // Expiry

  /** `expires_at - time.time() <= 1` */
  predicate TokenExpired(expiresAtMs: int, nowMs: int)
  {
    expiresAtMs - nowMs <= ExpiryMarginMs
  }

  /** `is_token_expired`, which loads the file first: no file raises. */
  function IsTokenExpired(file: Option<Credentials>, nowMs: int): (r: Result<bool>)
    ensures r.Raised? <==> file.None?
    ensures r.Raised? ==> r.error == FileNotFoundError
    ensures r.Ok? ==> (r.value <==> nowMs >= file.value.expiresAtMs - ExpiryMarginMs)
  {
    if file.None? then Raised(FileNotFoundError) else Ok(TokenExpired(file.value.expiresAtMs, nowMs))
  }

  /** Once expired, a token stays expired as the clock advances. */
  lemma ExpiredStaysExpired(expiresAtMs: int, nowMs: int, laterMs: int)
    requires TokenExpired(expiresAtMs, nowMs) && nowMs <= laterMs
    ensures TokenExpired(expiresAtMs, laterMs)
  {
  }

  /** `save_credentials_to_file`: the reply with `expires_at = now + int(expires_in)`. */
  function Stamp(reply: TokenReply, nowMs: int): Credentials
  {
    Credentials(reply.accessToken, reply.refreshToken, reply.expiresInS, nowMs + reply.expiresInS * 1000)
  }

  /** A freshly saved token is expired exactly when it has at most one second
      left, i.e. from `expires_in - 1` seconds after it was saved. */
  lemma StampedExpiry(reply: TokenReply, savedAtMs: int, nowMs: int)
    ensures TokenExpired(Stamp(reply, savedAtMs).expiresAtMs, nowMs)
        <==> nowMs - savedAtMs >= (reply.expiresInS - 1) * 1000
  {
  }

  // ---------------------------------------------------------------------------
  // The refresh retry loop

  /** The first attempt at or after `from` whose post returns 200, if any of the
      twenty-one attempts does. */
  function FirstSuccess(server: nat -> TokenResponse, from: nat): (r: Option<nat>)
    requires from <= RefreshAttempts
    ensures r.Some? ==> from <= r.value < RefreshAttempts && server(r.value).status == 200
    ensures r.Some? ==> forall k :: from <= k < r.value ==> server(k).status != 200
    ensures r.None? ==> forall k :: from <= k < RefreshAttempts ==> server(k).status != 200
    decreases RefreshAttempts - from
  {
    if from == RefreshAttempts then None
    else if server(from).status == 200 then Some(from)
    else FirstSuccess(server, from + 1)
  }

  /** `n` sleeps of `ms` milliseconds. */
  function Repeat(ms: int, n: nat): (r: seq<int>)
    ensures |r| == n && forall k :: 0 <= k < n ==> r[k] == ms
  {
    if n == 0 then [] else Repeat(ms, n - 1) + [ms]
  }

  /** What `refresh_access_token` does to a token file: its result, the
      credentials saved afterwards, the number of posts made to the token
      server and the sleeps taken. */
  datatype RefreshRun = RefreshRun(result: Refreshed, saved: Option<Credentials>, posts: nat, sleepsMs: seq<int>)

  /** `refresh_access_token` on a file holding `saved`, with the clock at
      `nowMs` when the expiry is checked and at `saveTimeMs` when a new token
      is saved. */
  function RefreshSpec(saved: Option<Credentials>, nowMs: int, saveTimeMs: int, server: nat -> TokenResponse)
    : (r: RefreshRun)
    // None exactly when there is nothing to refresh with
    ensures r.result == NeedsAuthorization <==> saved.None? || saved.value.refreshToken.None?
    // the only exit is sys.exit(3), once every attempt was refused, with the file left alone
    ensures r.result.Exit? ==>
      && r.result.code == 3 && r.saved == saved && r.posts == RefreshAttempts
      && forall k :: 0 <= k < RefreshAttempts ==> server(k).status != 200
    // the server is asked only about an expired token, at most 21 times, 3 s apart
    ensures r.posts > 0 ==> saved.Some? && saved.value.refreshToken.Some? && TokenExpired(saved.value.expiresAtMs, nowMs)
    ensures r.posts <= RefreshAttempts && r.sleepsMs == Repeat(RetryDelayMs, if r.posts == 0 then 0 else r.posts - 1)
    // a token returned is the one the file holds afterwards
    ensures r.result.AccessToken? ==> r.saved.Some? && r.saved.value.accessToken == r.result.token
    // a newly saved token keeps the old refresh token and is stamped when saved
    ensures r.saved != saved ==>
      && saved.Some? && r.saved.Some? && r.posts > 0
      && r.saved.value.refreshToken == saved.value.refreshToken
      && r.saved.value.expiresAtMs == saveTimeMs + r.saved.value.expiresInS * 1000
  {
    if saved.None? || saved.value.refreshToken.None? then RefreshRun(NeedsAuthorization, saved, 0, [])
    else if !TokenExpired(saved.value.expiresAtMs, nowMs) then RefreshRun(AccessToken(saved.value.accessToken), saved, 0, [])
    else match FirstSuccess(server, 0)
      case Some(k) =>
        var reply := server(k).reply.(refreshToken := saved.value.refreshToken);
        RefreshRun(AccessToken(reply.accessToken), Some(Stamp(reply, saveTimeMs)), k + 1, Repeat(RetryDelayMs, k))
      case None => RefreshRun(Exit(3), saved, RefreshAttempts, Repeat(RetryDelayMs, RefreshAttempts - 1))
  }

  /** The credentials file as the process sees it, with ghost logs of the posts
      made to the token server and of the sleeps taken. */
  class CredentialsFile {
    var saved: Option<Credentials>
    ghost var posts: nat
    ghost var sleepsMs: seq<int>

    constructor (saved: Option<Credentials>)
      ensures this.saved == saved && posts == 0 && sleepsMs == []
    {
      this.saved := saved;
      posts := 0;
      sleepsMs := [];
    }

    /** `save_credentials_to_file`: stamps the reply and writes it. */
    method SaveCredentials(reply: TokenReply, nowMs: int) returns (c: Credentials)
      modifies this
      ensures c == Stamp(reply, nowMs) && saved == Some(c)
      ensures c.expiresAtMs == nowMs + reply.expiresInS * 1000
      ensures posts == old(posts) && sleepsMs == old(sleepsMs)
    {
      c := Stamp(reply, nowMs);
      saved := Some(c);
    }

    /** The retry loop of `refresh_access_token`: posts until the server
        answers 200, at most `RefreshAttempts` times, sleeping 3 s after each
        refused post that is not the last. None when every post was refused. */
    method PostUntilAccepted(server: nat -> TokenResponse) returns (success: Option<nat>)
      modifies this
      ensures success == FirstSuccess(server, 0) && saved == old(saved)
      ensures success.Some? ==>
        posts == old(posts) + success.value + 1 && sleepsMs == old(sleepsMs) + Repeat(RetryDelayMs, success.value)
      ensures success.None? ==>
        posts == old(posts) + RefreshAttempts && sleepsMs == old(sleepsMs) + Repeat(RetryDelayMs, RefreshAttempts - 1)
    {
      var attempt := 0;
      while true
        invariant 0 <= attempt < RefreshAttempts
        invariant FirstSuccess(server, 0) == FirstSuccess(server, attempt)
        invariant saved == old(saved)
        invariant posts == old(posts) + attempt
        invariant sleepsMs == old(sleepsMs) + Repeat(RetryDelayMs, attempt)
        decreases RefreshAttempts - attempt
      {
        var response := server(attempt);
        posts := posts + 1;
        if response.status == 200 {
          return Some(attempt);
        } else if attempt < RefreshAttempts - 1 {
          sleepsMs := sleepsMs + [RetryDelayMs];
        } else {
          return None;
        }
        attempt := attempt + 1;
      }
    }

    /** `refresh_access_token`. `server(k)` is the reply to the k-th post and
        `saveTimeMs` the clock reading when the new token is saved. */
    method RefreshAccessToken(nowMs: int, saveTimeMs: int, server: nat -> TokenResponse) returns (r: Refreshed)
      modifies this
      // no file or no refresh token: None, nothing posted or written
      ensures (old(saved).None? || old(saved).value.refreshToken.None?) ==>
        r == NeedsAuthorization && saved == old(saved) && posts == old(posts) && sleepsMs == old(sleepsMs)
      // a token that is still valid is returned as stored
      ensures old(saved).Some? && old(saved).value.refreshToken.Some? && !TokenExpired(old(saved).value.expiresAtMs, nowMs) ==>
        r == AccessToken(old(saved).value.accessToken) && saved == old(saved)
        && posts == old(posts) && sleepsMs == old(sleepsMs)
      // an expired token: posts until the first 200, sleeping 3 s after each failure
      ensures old(saved).Some? && old(saved).value.refreshToken.Some? && TokenExpired(old(saved).value.expiresAtMs, nowMs) ==>
        match FirstSuccess(server, 0)
        case Some(k) =>
          var reply := server(k).reply.(refreshToken := old(saved).value.refreshToken);
          && r == AccessToken(reply.accessToken)
          && saved == Some(Stamp(reply, saveTimeMs))
          && posts == old(posts) + k + 1
          && sleepsMs == old(sleepsMs) + Repeat(RetryDelayMs, k)
        case None =>
          && r == Exit(3) && saved == old(saved)
          && posts == old(posts) + RefreshAttempts
          && sleepsMs == old(sleepsMs) + Repeat(RetryDelayMs, RefreshAttempts - 1)
      // the whole run, as a value
      ensures var run := RefreshSpec(old(saved), nowMs, saveTimeMs, server);
        && r == run.result && saved == run.saved
        && posts == old(posts) + run.posts && sleepsMs == old(sleepsMs) + run.sleepsMs
    {
      if saved.None? || saved.value.refreshToken.None? {
        return NeedsAuthorization;
      }
      var tokens := saved.value;
      if !TokenExpired(tokens.expiresAtMs, nowMs) {
        return AccessToken(tokens.accessToken);
      }
      var success := PostUntilAccepted(server);
      if success.None? {
        return Exit(3);
      }
      var reply := server(success.value).reply;
      reply := reply.(refreshToken := tokens.refreshToken);
      var c := SaveCredentials(reply, saveTimeMs);
      return AccessToken(c.accessToken);
    }
  }

  // ---------------------------------------------------------------------------
  // The authorization wait

  /** The first code the callback queue delivers, if any poll delivers one. */
  function FirstCode(polls: seq<Option<string>>): (r: Option<string>)
    ensures r.Some? <==> exists k :: 0 <= k < |polls| && polls[k].Some?
    ensures r.Some? ==> r in polls
  {
    if polls == [] then None
    else if polls[0].Some? then polls[0]
    else
      assert forall k :: 0 < k < |polls| ==> polls[k] == polls[1..][k - 1];
      FirstCode(polls[1..])
  }

  /** `do_spotify_oauth`'s control flow. `polls` are the results of the
      half-second queue reads (None: empty), `exchange` is the token server's
      reply to the code and `saveTimeMs` the clock when it is saved. Returns the
      outcome and whether the callback server was shut down. */
  method DoSpotifyOAuth(file: CredentialsFile, polls: seq<Option<string>>, exchange: TokenResponse, saveTimeMs: int)
    returns (r: Authorization, cleanedUp: bool)
    modifies file
    ensures FirstCode(polls).None? ==> r == StillWaiting && !cleanedUp && file.saved == old(file.saved)
    ensures FirstCode(polls).Some? && exchange.status != 200 ==>
      r == ExchangeFailed && !cleanedUp && file.saved == old(file.saved)
    ensures FirstCode(polls).Some? && exchange.status == 200 ==>
      r == Authorized(Stamp(exchange.reply, saveTimeMs)) && cleanedUp && file.saved == Some(r.creds)
    ensures file.posts == old(file.posts) && file.sleepsMs == old(file.sleepsMs)
  {
    var attemptCount := 0;
    var i := 0;
    var code: Option<string> := None;
    while attemptCount < OAuthAttemptBound
      invariant 0 <= i <= |polls| && attemptCount == 0
      invariant FirstCode(polls) == FirstCode(polls[i..])
      decreases |polls| - i
    {
      if i == |polls| {
        return StillWaiting, false;
      }
      if polls[i].Some? {
        code := polls[i];
        break;
      }
      assert polls[i..][1..] == polls[i + 1..];
      i := i + 1;
    }
    // The timeout branch needs attemptCount >= 200; the loop never changes it.
    assert attemptCount < OAuthAttemptBound;
    if exchange.status != 200 {
      return ExchangeFailed, false;
    }
    cleanedUp := true;
    var c := file.SaveCredentials(exchange.reply, saveTimeMs);
    r := Authorized(c);
  }

  // ---------------------------------------------------------------------------
  // The callback code

  /** `s.lstrip(chars)`: drops leading characters that belong to the set. */
  function LStrip(s: string, chars: set<char>): (r: string)
    ensures |r| <= |s| && r == s[|s| - |r|..]
    ensures forall k :: 0 <= k < |s| - |r| ==> s[k] in chars
    ensures r == [] || r[0] !in chars
  {
    if s != [] && s[0] in chars then LStrip(s[1..], chars) else s
  }

  /** `s.rstrip(chars)`: drops trailing characters that belong to the set. */
  function RStrip(s: string, chars: set<char>): (r: string)
    ensures |r| <= |s| && r == s[..|r|]
    ensures forall k :: |r| <= k < |s| ==> s[k] in chars
    ensures r == [] || r[|r| - 1] !in chars
  {
    if s != [] && s[|s| - 1] in chars then RStrip(s[..|s| - 1], chars) else s
  }

  /** `s.strip(chars)` */
  function Strip(s: string, chars: set<char>): (r: string)
    ensures |r| <= |s|
    ensures r == [] || (r[0] !in chars && r[|r| - 1] !in chars)
  {
    RStrip(LStrip(s, chars), chars)
  }

  const CallbackPath := "/callback?code="

  /** The characters `strip('/callback?code=')` removes: a set, not a prefix. */
  function CallbackChars(): (r: set<char>)
    ensures forall k :: 0 <= k < |CallbackPath| ==> CallbackPath[k] in r
    ensures r == set k | 0 <= k < |CallbackPath| :: CallbackPath[k]
  {
    var r := {'/', 'c', 'a', 'l', 'b', 'k', '?', 'o', 'd', 'e', '='};
    // each character's first position in the path
    assert CallbackPath[0] == '/' && CallbackPath[1] == 'c' && CallbackPath[2] == 'a';
    assert CallbackPath[3] == 'l' && CallbackPath[5] == 'b' && CallbackPath[8] == 'k';
    assert CallbackPath[9] == '?' && CallbackPath[11] == 'o' && CallbackPath[12] == 'd';
    assert CallbackPath[13] == 'e' && CallbackPath[14] == '=';
    r
  }

  /** `do_GET`: the value put on the queue for a request to `path`. */
  function CallbackCode(path: string): (r: string)
    ensures |r| <= |path|
    ensures r == [] || (r[0] !in CallbackChars() && r[|r| - 1] !in CallbackChars())
    ensures r == [] || r[0] != '/'
  {
    Strip(path, CallbackChars())
  }

  /** `Strip` removes the longest prefix and then the longest suffix made of the
      set's characters: the result is the middle `s[i..j]` of `s`. */
  lemma StripIsMiddle(s: string, chars: set<char>)
    ensures exists i, j ::
      && 0 <= i <= j <= |s| && Strip(s, chars) == s[i..j]
      && (forall k :: 0 <= k < i ==> s[k] in chars)
      && (forall k :: j <= k < |s| ==> s[k] in chars)
  {
    var l := LStrip(s, chars);
    var r := RStrip(l, chars);
    var i := |s| - |l|;
    var j := i + |r|;
    assert l == s[i..] && r == l[..|r|];
    assert Strip(s, chars) == s[i..j] by {
      assert s[i..j] == l[..|r|];
    }
    forall k | j <= k < |s|
      ensures s[k] in chars
    {
      assert s[k] == l[k - i];
    }
  }

  /** A code survives the callback path unchanged exactly when it is empty or
      neither its first nor its last character is one of `/callback?code=`. */
  lemma {:induction false} CallbackCodeExact(code: string)
    ensures CallbackCode(CallbackPath + code) == code
        <==> code == [] || (code[0] !in CallbackChars() && code[|code| - 1] !in CallbackChars())
  {
    var chars := CallbackChars();
    var l := LStrip(CallbackPath + code, chars);
    LStripPrefix(CallbackPath, code, chars);
    if code == [] || (code[0] !in chars && code[|code| - 1] !in chars) {
      assert l == code;
    } else {
      assert CallbackCode(CallbackPath + code) != code by {
        if code[0] in chars {
          assert |l| < |code|;
        } else {
          assert l == code;
          assert RStrip(code, chars) != code;
        }
      }
    }
  }

  /** Stripping a prefix made of set characters from `p + c` starts with `c`
      stripped. */
  lemma {:induction false} LStripPrefix(p: string, c: string, chars: set<char>)
    requires forall k :: 0 <= k < |p| ==> p[k] in chars
    ensures LStrip(p + c, chars) == LStrip(c, chars)
    decreases |p|
  {
    if p == [] {
      assert p + c == c;
    } else {
      assert (p + c)[0] == p[0] && (p + c)[1..] == p[1..] + c;
      LStripPrefix(p[1..], c, chars);
    }
  }

  /** Stripping a suffix made of set characters from `p + t` leaves `p` stripped. */
  lemma {:induction false} RStripSuffix(p: string, t: string, chars: set<char>)
    requires forall k :: 0 <= k < |t| ==> t[k] in chars
    ensures RStrip(p + t, chars) == RStrip(p, chars)
    decreases |t|
  {
    if t == [] {
      assert p + t == p;
    } else {
      var u := t[..|t| - 1];
      assert (p + t)[|p + t| - 1] == t[|t| - 1] && (p + t)[..|p + t| - 1] == p + u;
      RStripSuffix(p, u, chars);
    }
  }

  /** Whatever run of `/callback?code=` characters ends the code is lost with
      the prefix. */
  lemma CallbackCodeDropsTail(code: string, tail: string)
    requires code != [] && code[0] !in CallbackChars() && code[|code| - 1] !in CallbackChars()
    requires forall k :: 0 <= k < |tail| ==> tail[k] in CallbackChars()
    ensures CallbackCode(CallbackPath + (code + tail)) == code
  {
    var chars := CallbackChars();
    LStripPrefix(CallbackPath, code + tail, chars);
    assert LStrip(code + tail, chars) == code + tail by {
      assert (code + tail)[0] == code[0];
    }
    RStripSuffix(code, tail, chars);
  }

  /** Spotify's codes are URL-safe base64: one ending in `code` loses that tail. */
  lemma CallbackCodeTruncates()
    ensures CallbackCode(CallbackPath + "AQBx_code") == "AQBx_"
  {
    assert "AQBx_code" == "AQBx_" + "code";
    CallbackCodeDropsTail("AQBx_", "code");
  }

  lemma CallbackCodeKeeps()
    ensures CallbackCode(CallbackPath + "AQBx9") == "AQBx9"
  {
    CallbackCodeExact("AQBx9");
  }
}
