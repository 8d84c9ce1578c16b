/** `SpotifyWrapper` of libs/spotifywrapper.py: the playback state machine over
    the current and previous track, driven by the HTTP replies of the Web API,
    and the escalating back-off used while nothing is playing. */
module Spotify {
  import opened Py
  import opened Tracks
  import Tokens

  /** `REQUEST_DELAY_COMPENSATION_MS`, the wait after a skip before re-reading the player. */
  const RequestDelayCompensationMs := 500
  /** The 403 message the Web API sends when the user acted on the player meanwhile. */
  const RestrictionViolated := "Player command failed: Restriction violated"

  /** An HTTP reply: its status and its body decoded as JSON, None when the body
      is not JSON (an empty 204 body, for one). */
  datatype Response = Response(status: int, body: Option<Json>)

  /** What the wrapper's methods return: a Track, None, -1 or True. */
  datatype Value = TrackValue(track: Track) | NoneValue | Failure | TrueValue

  /** The requests the wrapper sends. */
  datatype ApiCall = GetCurrentlyPlaying | PostNext | PutPause

  // ---------------------------------------------------------------------------
  // Reading the player

  /** How a currently-playing reply is read: a playing track, nothing playing
      (or a podcast), a 2xx reply without a JSON body, or a failure. */
  datatype Poll = Playing(track: Track) | NotPlaying | NoContent | HttpError

  /** A track the wrapper keeps: one that is playing and is not a show. */
  predicate Listening(t: Option<Track>)
  {
    t.Some? ==> Truthy(t.value.playing) && t.value.kind != Some("show")
  }

  /** The reply handling of `update_current_track`: a non-2xx status is a
      failure; a body that is not JSON is None for 204 and a failure otherwise;
      a constructor error propagates; a show or a falsy `is_playing` is nothing
      playing. */
  function ReadPoll(resp: Response): (r: Result<Poll>)
    ensures !Is2xx(resp.status) ==> r == Ok(HttpError)
    ensures r == Ok(NoContent) <==> resp.status == 204 && resp.body.None?
    ensures r.Ok? && r.value.Playing? ==> Is2xx(resp.status) && Listening(Some(r.value.track))
    ensures r.Raised? ==> Is2xx(resp.status) && resp.body.Some? && TrackFromJson(resp.body.value).Raised?
    ensures Is2xx(resp.status) && resp.body.None? && resp.status != 204 ==> r == Ok(HttpError)
    ensures Is2xx(resp.status) && resp.body.Some? ==>
      match TrackFromJson(resp.body.value)
      case Raised(e) => r == Raised(e)
      case Ok(t) => r == (if Listening(Some(t)) then Ok(Playing(t)) else Ok(NotPlaying))
  {
    if !Is2xx(resp.status) then Ok(HttpError)
    else if resp.body.None? then Ok(if resp.status == 204 then NoContent else HttpError)
    else match TrackFromJson(resp.body.value)
      case Raised(e) => Raised(e)
      case Ok(t) => if t.kind == Some("show") || !Truthy(t.playing) then Ok(NotPlaying) else Ok(Playing(t))
  }

  /** The value `update_current_track` returns for a reading. */
  function PollValue(p: Poll): Value
  {
    match p
    case Playing(t) => TrackValue(t)
    case NotPlaying => NoneValue
    case NoContent => NoneValue
    case HttpError => Failure
  }

  /** The (current, previous) pair after a reading. The previous track only
      ever takes the old current one, and only when a track with another id
      starts; failures leave both alone; nothing playing clears the current one. */
  function AfterPoll(cur: Option<Track>, prev: Option<Track>, p: Poll): (r: (Option<Track>, Option<Track>))
    ensures r.1 == prev || r.1 == cur
    ensures r.1 != prev ==> p.Playing? && cur.Some? && cur.value.id != p.track.id
    ensures p.Playing? ==> r.0 == Some(p.track)
    ensures p.NotPlaying? ==> r.0 == None
    ensures (p.NoContent? || p.HttpError?) ==> r == (cur, prev)
    ensures Listening(cur) && Listening(prev) && (p.Playing? ==> Listening(Some(p.track)))
      ==> Listening(r.0) && Listening(r.1)
  {
    match p
    case Playing(t) => (Some(t), if cur.Some? && cur.value.id != t.id then cur else prev)
    case NotPlaying => (None, prev)
    case _ => (cur, prev)
  }

  /** A playing reply built from a playback object is read as that track. */
  lemma ReadPlayback(p: Playback)
    requires p.artists != [] && p.artists[0].0 != ""
    ensures ReadPoll(Response(200, Some(PlaybackJson(p)))).Ok?
    ensures var r := ReadPoll(Response(200, Some(PlaybackJson(p)))).value;
      r.Playing? && r.track.id == Some(p.id) && r.track.artistIds == ArtistIdsOf(p.artists)
  {
    DecodePlayback(p);
  }

  /** After a pause the old track becomes the previous one; if the player then
      reports the same track again, current and previous share an id. */
  lemma StopThenSameTrack(cur: Track, prev: Option<Track>, t: Track)
    requires t.id == cur.id
    ensures var r := AfterPoll(None, Some(cur), Playing(t));
      r.0 == Some(t) && r.1 == Some(cur) && r.1.value.id == r.0.value.id
  {
  }

  // ---------------------------------------------------------------------------
  // Skipping

  /** `response.json().get('error', {}).get('message', None)` on a 403 reply. */
  function ErrorMessage(body: Option<Json>): (r: Result<Option<string>>)
    ensures r.Ok? ==> body.Some? && body.value.JDict?
    ensures body.None? ==> r == Raised(JsonDecodeError)
    ensures body.Some? && body.value.JDict? && "error" !in body.value.fields ==> r == Ok(None)
    ensures r.Ok? <==> body.Some? && body.value.JDict? && Get(body.value.fields, "error", JDict(map[])).JDict?
    ensures body.Some? && !(r.Ok? || r == Raised(JsonDecodeError)) ==> r == Raised(AttributeError)
    // the main case: an error object carrying a message
    ensures body.Some? && body.value.JDict? && "error" in body.value.fields && body.value.fields["error"].JDict?
      && "message" in body.value.fields["error"].fields && body.value.fields["error"].fields["message"].JStr?
      ==> r == Ok(Some(body.value.fields["error"].fields["message"].s))
    ensures r.Ok? && r.value.Some? ==>
      var error := Get(body.value.fields, "error", JDict(map[]));
      "message" in error.fields && error.fields["message"] == JStr(r.value.value)
  {
    if body.None? then Raised(JsonDecodeError)
    else if !body.value.JDict? then Raised(AttributeError)
    else
      var error := Get(body.value.fields, "error", JDict(map[]));
      if !error.JDict? then Raised(AttributeError)
      else Ok(AsText(Get(error.fields, "message", JNull)))
  }

  /** What `skip_current_track` does after its POST: re-read the player or fail. */
  datatype SkipRoute = Refetch | SkipFailed

  function RouteSkip(skip: Response): (r: Result<SkipRoute>)
    ensures r.Raised? ==> skip.status == 403
    ensures r == Ok(Refetch) <==>
      Is2xx(skip.status) || (skip.status == 403 && ErrorMessage(skip.body) == Ok(Some(RestrictionViolated)))
    ensures r == Ok(SkipFailed) <==>
      !Is2xx(skip.status) && (skip.status != 403 || (ErrorMessage(skip.body).Ok? && ErrorMessage(skip.body) != Ok(Some(RestrictionViolated))))
  {
    if skip.status == 403 && ErrorMessage(skip.body).Raised? then Raised(ErrorMessage(skip.body).error)
    else if skip.status == 403 && ErrorMessage(skip.body) == Ok(Some(RestrictionViolated)) then Ok(Refetch)
    else if !Is2xx(skip.status) then Ok(SkipFailed)
    else Ok(Refetch)
  }

  // ---------------------------------------------------------------------------
  // Back-off

  /** The n-th value (from 0) of `not_playing_backoff`, in seconds. */
  function Delay(n: nat): (r: int)
    ensures 1 <= r <= 60
    ensures n >= 14 ==> r == 60
  {
    if n < 4 then 1
    else if n < 8 then 2
    else if n < 10 then 5
    else if n == 10 then 10
    else if n == 11 then 15
    else if n == 12 then 30
    else if n == 13 then 45
    else 60
  }

  /** The schedule never decreases. */
  lemma DelayMonotone(i: nat, j: nat)
    requires i <= j
    ensures Delay(i) <= Delay(j)
  {
  }

  /** The generator `not_playing_backoff` itself: its four loops, stopped after
      it has yielded `count` values. */
  method BackoffPrefix(count: nat) returns (out: seq<int>)
    ensures |out| == count
    ensures forall k :: 0 <= k < count ==> out[k] == Delay(k)
  {
    out := [];
    var blocks := [(4, 1), (4, 2), (2, 5), (1, 10), (1, 15), (1, 30), (1, 45)];
    var b := 0;
    while b < |blocks| && |out| < count
      invariant 0 <= b <= |blocks| && |out| <= count
      invariant b < |blocks| ==> |out| == [0, 4, 8, 10, 11, 12, 13][b]
      invariant b == |blocks| ==> |out| == 14 || |out| == count
      invariant forall k :: 0 <= k < |out| ==> out[k] == Delay(k)
    {
      var i := 0;
      while i < blocks[b].0 && |out| < count
        invariant 0 <= i <= blocks[b].0
        invariant |out| == [0, 4, 8, 10, 11, 12, 13][b] + i && |out| <= count
        invariant forall k :: 0 <= k < |out| ==> out[k] == Delay(k)
      {
        out := out + [blocks[b].1];
        i := i + 1;
      }
      if i < blocks[b].0 {
        return;
      }
      b := b + 1;
    }
    while |out| < count
      invariant |out| <= count
      invariant |out| >= 14 || |out| == count
      invariant forall k :: 0 <= k < |out| ==> out[k] == Delay(k)
    {
      out := out + [60];
    }
  }

  // ---------------------------------------------------------------------------
  // The wrapper

  /** The wrapper's state: the client (its access token once built), the two
      tracks, the back-off position and `backing_off`; the requests sent and
      the sleeps taken are kept as ghost logs. */
  class SpotifyWrapper {
    var client: Option<string>
    var currentTrack: Option<Track>
    var previousTrack: Option<Track>
    var backoffIndex: nat
    var backingOff: bool
    ghost var calls: seq<ApiCall>
    ghost var sleepsMs: seq<int>

    /** `backing_off` is set exactly while the schedule has been advanced since
        the last reset, and both tracks, when present, are playing tracks. */
    ghost predicate Valid()
      reads this
    {
      && (backingOff <==> backoffIndex > 0)
      && Listening(currentTrack) && Listening(previousTrack)
    }

    constructor ()
      ensures Valid()
      ensures client == None && currentTrack == None && previousTrack == None
      ensures backoffIndex == 0 && !backingOff && calls == [] && sleepsMs == []
    {
      client := None;
      currentTrack := None;
      previousTrack := None;
      backoffIndex := 0;
      backingOff := false;
      calls := [];
      sleepsMs := [];
    }

    /** `initialize_spotify_client`: refreshes the token and builds a client
        from it; without a token the old client is kept. */
    method InitializeClient(file: Tokens.CredentialsFile, nowMs: int, saveTimeMs: int, server: nat -> Tokens.TokenResponse)
      returns (r: Tokens.Refreshed)
      requires Valid()
      modifies this, file
      ensures Valid()
      ensures r.AccessToken? ==> client == Some(r.token)
      ensures !r.AccessToken? ==> client == old(client)
      // the refresh runs on the token file exactly as `refresh_access_token` does
      ensures var run := Tokens.RefreshSpec(old(file.saved), nowMs, saveTimeMs, server);
        && r == run.result && file.saved == run.saved
        && file.posts == old(file.posts) + run.posts && file.sleepsMs == old(file.sleepsMs) + run.sleepsMs
      ensures currentTrack == old(currentTrack) && previousTrack == old(previousTrack)
      ensures backoffIndex == old(backoffIndex) && backingOff == old(backingOff)
      ensures calls == old(calls) && sleepsMs == old(sleepsMs)
    {
      r := file.RefreshAccessToken(nowMs, saveTimeMs, server);
      if r.AccessToken? {
        client := Some(r.token);
      }
    }

    /** `update_current_track` behind `needs_initialized_client`. */
    method UpdateCurrentTrack(resp: Response) returns (r: Result<Value>)
      requires Valid()
      modifies this
      ensures Valid()
      ensures old(client).None? ==>
        r == Ok(NoneValue) && currentTrack == old(currentTrack) && previousTrack == old(previousTrack) && calls == old(calls)
      ensures old(client).Some? ==> calls == old(calls) + [GetCurrentlyPlaying]
      ensures old(client).Some? && ReadPoll(resp).Raised? ==>
        r == Raised(ReadPoll(resp).error) && currentTrack == old(currentTrack) && previousTrack == old(previousTrack)
      ensures old(client).Some? && ReadPoll(resp).Ok? ==>
        r == Ok(PollValue(ReadPoll(resp).value))
        && (currentTrack, previousTrack) == AfterPoll(old(currentTrack), old(previousTrack), ReadPoll(resp).value)
      ensures client == old(client) && backoffIndex == old(backoffIndex) && backingOff == old(backingOff)
      ensures sleepsMs == old(sleepsMs)
    {
      if client.None? {
        return Ok(NoneValue);
      }
      calls := calls + [GetCurrentlyPlaying];
      var poll := ReadPoll(resp);
      if poll.Raised? {
        return Raised(poll.error);
      }
      currentTrack, previousTrack := AfterPoll(currentTrack, previousTrack, poll.value).0,
                                     AfterPoll(currentTrack, previousTrack, poll.value).1;
      r := Ok(PollValue(poll.value));
    }

    /** `skip_current_track`: POST next, then (after the compensation delay)
        re-read the player with `refetch`, or fail with -1. */
    method SkipCurrentTrack(skip: Response, refetch: Response) returns (r: Result<Value>)
      requires Valid()
      modifies this
      ensures Valid()
      ensures old(client).None? ==>
        r == Ok(NoneValue) && currentTrack == old(currentTrack) && previousTrack == old(previousTrack)
        && calls == old(calls) && sleepsMs == old(sleepsMs)
      ensures old(client).Some? && RouteSkip(skip).Raised? ==>
        r == Raised(RouteSkip(skip).error) && calls == old(calls) + [PostNext] && sleepsMs == old(sleepsMs)
        && currentTrack == old(currentTrack) && previousTrack == old(previousTrack)
      ensures old(client).Some? && RouteSkip(skip) == Ok(SkipFailed) ==>
        r == Ok(Failure) && calls == old(calls) + [PostNext] && sleepsMs == old(sleepsMs)
        && currentTrack == old(currentTrack) && previousTrack == old(previousTrack)
      ensures old(client).Some? && RouteSkip(skip) == Ok(Refetch) ==>
        && calls == old(calls) + [PostNext, GetCurrentlyPlaying]
        && sleepsMs == old(sleepsMs) + [RequestDelayCompensationMs]
        && match ReadPoll(refetch)
           case Raised(e) => r == Raised(e) && currentTrack == old(currentTrack) && previousTrack == old(previousTrack)
           case Ok(p) =>
             r == Ok(PollValue(p)) && (currentTrack, previousTrack) == AfterPoll(old(currentTrack), old(previousTrack), p)
      ensures client == old(client) && backoffIndex == old(backoffIndex) && backingOff == old(backingOff)
    {
      if client.None? {
        return Ok(NoneValue);
      }
      calls := calls + [PostNext];
      if skip.status == 403 {
        var message := ErrorMessage(skip.body);
        if message.Raised? {
          return Raised(message.error);
        }
        if message.value == Some(RestrictionViolated) {
          sleepsMs := sleepsMs + [RequestDelayCompensationMs];
          r := UpdateCurrentTrack(refetch);
          return;
        }
      }
      if !Is2xx(skip.status) {
        return Ok(Failure);
      }
      sleepsMs := sleepsMs + [RequestDelayCompensationMs];
      r := UpdateCurrentTrack(refetch);
    }

    /** `stop_playback`: on success the current track becomes the previous one. */
    method StopPlayback(resp: Response) returns (r: Value)
      requires Valid()
      modifies this
      ensures Valid()
      ensures old(client).None? ==>
        r == NoneValue && currentTrack == old(currentTrack) && previousTrack == old(previousTrack) && calls == old(calls)
      ensures old(client).Some? ==> calls == old(calls) + [PutPause]
      ensures old(client).Some? && !Is2xx(resp.status) ==>
        r == Failure && currentTrack == old(currentTrack) && previousTrack == old(previousTrack)
      ensures old(client).Some? && Is2xx(resp.status) ==>
        r == TrueValue && currentTrack == None && previousTrack == old(currentTrack)
      ensures client == old(client) && backoffIndex == old(backoffIndex) && backingOff == old(backingOff)
      ensures sleepsMs == old(sleepsMs)
    {
      if client.None? {
        return NoneValue;
      }
      calls := calls + [PutPause];
      if !Is2xx(resp.status) {
        return Failure;
      }
      previousTrack := currentTrack;
      currentTrack := None;
      return TrueValue;
    }

    /** `get_backoff`: the next delay of the schedule, in seconds. */
    method GetBackoff() returns (seconds: int)
      requires Valid()
      modifies this
      ensures Valid()
      ensures seconds == Delay(old(backoffIndex)) && 1 <= seconds <= 60
      ensures backingOff && backoffIndex == old(backoffIndex) + 1
      ensures client == old(client) && currentTrack == old(currentTrack) && previousTrack == old(previousTrack)
      ensures calls == old(calls) && sleepsMs == old(sleepsMs)
    {
      backingOff := true;
      seconds := Delay(backoffIndex);
      backoffIndex := backoffIndex + 1;
    }

    /** `reset_backoff`: the schedule restarts, so the next delay is 1 s again. */
    method ResetBackoff()
      requires Valid()
      modifies this
      ensures Valid()
      ensures !backingOff && backoffIndex == 0 && Delay(backoffIndex) == 1
      ensures client == old(client) && currentTrack == old(currentTrack) && previousTrack == old(previousTrack)
      ensures calls == old(calls) && sleepsMs == old(sleepsMs)
    {
      backingOff := false;
      backoffIndex := 0;
    }
  }
}
