/** libs/hbcontrol.py: the skip loop run on every poll, and the two tray
    handlers that add and remove dislikes for the track now playing. */
module HbControl {
  import opened Py
  import opened Tracks
  import opened Spotify
  import opened Database

  /** The two replies one skip consumes: the POST to `next` and the read of
      the player that follows it. */
  datatype SkipReply = SkipReply(skip: Response, refetch: Response)

  /** How `skip_if_heartbroken` ends: the value it returns, the exception that
      escapes it, or Unfinished when the supplied replies run out while it
      still wants to skip. */
  datatype SkipOutcome = Returned(value: Option<bool>) | Crashed(error: Exc) | Unfinished

  /** The three flags set on the current track after a classification. */
  function MarksFor(c: Classification): (m: Marks)
    ensures m.track.Some? && m.album.Some? && m.artist.Some?
    ensures !(m.track.value && m.album.value) && !(m.track.value && m.artist.value)
      && !(m.album.value && m.artist.value)
    ensures m.track.value <==> c == Disliked(TrackKind)
    ensures m.album.value <==> c == Disliked(AlbumKind)
    ensures m.artist.value <==> c == Disliked(ArtistKind)
  {
    Marks(Some(c == Disliked(TrackKind)), Some(c == Disliked(AlbumKind)), Some(c == Disliked(ArtistKind)))
  }

  // ---------------------------------------------------------------------------
  // What the loop does, as a function of its inputs

  /** A track option with its three flags cleared. The pair the loop leaves
      is stated up to the flags: the kind reported for a disliked track
      depends on which matching row the store's LIMIT 1 returns. */
  function Plain(t: Option<Track>): Option<Track>
  {
    if t.None? then None else Some(t.value.(marks := Unmarked))
  }

  /** What one `skip_current_track` call comes back with: the exception it
      raises, None when there is no client or the POST fails (-1), or the
      reading of the player that follows the skip. */
  function SkipLanding(client: bool, reply: SkipReply): (r: Result<Option<Poll>>)
    ensures !client ==> r == Ok(None)
    ensures client && RouteSkip(reply.skip) == Ok(SkipFailed) ==> r == Ok(None)
    ensures r.Raised? ==> client && (RouteSkip(reply.skip).Raised? || ReadPoll(reply.refetch).Raised?)
    ensures (r.Ok? && r.value.Some?) <==>
      client && RouteSkip(reply.skip) == Ok(Refetch) && ReadPoll(reply.refetch).Ok?
    ensures r.Ok? && r.value.Some? ==> ReadPoll(reply.refetch) == Ok(r.value.value)
  {
    if !client then Ok(None)
    else match RouteSkip(reply.skip)
      case Raised(e) => Raised(e)
      case Ok(SkipFailed) => Ok(None)
      case Ok(Refetch) =>
        match ReadPoll(reply.refetch)
        case Raised(e) => Raised(e)
        case Ok(p) => Ok(Some(p))
  }

  /** The track a skip lands on: the one the player reads as playing after it. */
  function LandsOn(l: Result<Option<Poll>>): Option<Track>
  {
    if l.Ok? && l.value.Some? && l.value.value.Playing? then Some(l.value.value.track) else None
  }

  /** What the skips with `replies` would come back with, one per reply. */
  function Landings(client: bool, replies: seq<SkipReply>): (r: seq<Result<Option<Poll>>>)
    ensures |r| == |replies|
    ensures forall k :: 0 <= k < |replies| ==> r[k] == SkipLanding(client, replies[k])
  {
    if replies == [] then [] else [SkipLanding(client, replies[0])] + Landings(client, replies[1..])
  }

  /** A run of the loop: how it ends, the ids the skips landed on, the number
      of lookups, whether playback was stopped, and the (current, previous)
      pair it leaves, up to the flags. */
  datatype SkipTrace = SkipTrace(outcome: SkipOutcome, landed: seq<Option<string>>, lookups: nat, stopped: bool,
                                 current: Option<Track>, previous: Option<Track>)

  /** One turn of the loop: it ends, with the outcome, the id the skip landed
      on if it got that far, whether playback was stopped and the pair it
      leaves; or it goes on with the track the skip landed on and the
      previous track the re-read left. */
  datatype Turn =
    | Ends(outcome: SkipOutcome, landed: seq<Option<string>>, stopped: bool, current: Option<Track>, previous: Option<Track>)
    | GoesOn(next: Track, previous: Option<Track>)

  /** A turn on `cur` (with `prev` as the previous track), where `lands[0]` is
      what the next skip would come back with: look the track up, and if it
      is disliked skip; landing on `firstId` stops playback, which succeeds
      exactly when `stopOk`. */
  function TurnSpec(rows: seq<Row>, table: bool, fault: bool, cur: Track, prev: Option<Track>,
                    firstId: Option<string>, lands: seq<Result<Option<Poll>>>, stopOk: bool): (r: Turn)
    ensures r.GoesOn? <==>
      && Lookup(rows, table, fault, cur) == Ok(Dislike) && lands != []
      && LandsOn(lands[0]).Some? && LandsOn(lands[0]).value.id != firstId
    ensures r.GoesOn? ==> LandsOn(lands[0]) == Some(r.next) && r.previous == (if cur.id != r.next.id then Some(cur) else prev)
    ensures r.Ends? && r.stopped ==> r.outcome == Returned(None) && |r.landed| == 1 && r.landed[0] == firstId
    ensures r.Ends? && !r.stopped ==> r.landed == [] && r.outcome != Returned(Some(true))
    // a turn that ends other than with None leaves the pair alone
    ensures r.Ends? && r.outcome != Returned(None) ==> r.current == Some(cur) && r.previous == prev
    // a stop that succeeds moves the first track to the previous slot
    ensures r.Ends? && r.stopped && stopOk ==> r.current == None && r.previous.Some? && r.previous.value.id == firstId
    ensures r.Ends? && r.stopped && !stopOk ==> r.current.Some? && r.current.value.id == firstId
  {
    match Lookup(rows, table, fault, cur)
    case Raised(e) => Ends(Crashed(e), [], false, Some(cur), prev)
    case Ok(StoreFault) => Ends(Returned(None), [], false, Some(cur), prev)
    case Ok(Clean) => Ends(Returned(Some(false)), [], false, Some(cur), prev)
    case Ok(Dislike) =>
      if lands == [] then Ends(Unfinished, [], false, Some(cur), prev)
      else SkipStep(cur, prev, {firstId}, lands[0], stopOk)
  }

  /** The second half of a turn: the skip from `cur` comes back with `land`;
      landing on an id in `skipped` stops playback, which succeeds exactly
      when `stopOk`. */
  function SkipStep(cur: Track, prev: Option<Track>, skipped: set<Option<string>>,
                    land: Result<Option<Poll>>, stopOk: bool): Turn
  {
    match land
    case Raised(e) => Ends(Crashed(e), [], false, Some(cur), prev)
    case Ok(None) => Ends(Returned(None), [], false, Some(cur), prev)
    case Ok(Some(p)) =>
      var after := AfterPoll(Some(cur), prev, p);
      if !p.Playing? then Ends(Returned(None), [], false, after.0, after.1)
      else if p.track.id !in skipped then GoesOn(p.track, after.1)
      else if stopOk then Ends(Returned(None), [p.track.id], true, None, after.0)
      else Ends(Returned(None), [p.track.id], true, after.0, after.1)
  }

  /** Two turns that agree up to the flags on the tracks they leave. */
  ghost predicate SameUpToMarks(a: Turn, b: Turn)
  {
    match a
    case Ends(o, l, s, c, p) =>
      b.Ends? && b.outcome == o && b.landed == l && b.stopped == s
      && Plain(b.current) == Plain(c) && Plain(b.previous) == Plain(p)
    case GoesOn(t, p) => b.GoesOn? && b.next == t && Plain(b.previous) == Plain(p)
  }

  /** A step of the loop that ended with `r`, the ids `landed`, the stop
      flag `stopped` and the pair (`cur`, `prev`) did what `turn` says, up
      to the flags on the tracks. */
  ghost predicate Follows(turn: Turn, r: Option<SkipOutcome>, landed: seq<Option<string>>, stopped: bool,
                          cur: Option<Track>, prev: Option<Track>)
  {
    match turn
    case Ends(o, l, s, c, p) =>
      r == Some(o) && landed == l && stopped == s && Plain(cur) == Plain(c) && Plain(prev) == Plain(p)
    case GoesOn(t, p) =>
      r.None? && landed == [t.id] && !stopped && cur == Some(t) && Plain(prev) == Plain(p)
  }

  /** The flags on the tracks do not change the course of a skip: AfterPoll
      and the stop look at ids only. */
  lemma SkipStepMarks(cur: Track, cur2: Track, prev: Option<Track>, prev2: Option<Track>,
                      skipped: set<Option<string>>, land: Result<Option<Poll>>, stopOk: bool)
    requires Plain(Some(cur)) == Plain(Some(cur2)) && Plain(prev) == Plain(prev2)
    ensures SameUpToMarks(SkipStep(cur, prev, skipped, land, stopOk), SkipStep(cur2, prev2, skipped, land, stopOk))
  {
    assert cur.id == Plain(Some(cur)).value.id;
  }

  /** The loop of `skip_if_heartbroken` with `cur` as the current track,
      `prev` the previous one, `firstId` the one id it remembers and `lands`
      what the successive skips come back with: turn after turn until one
      ends. */
  function SkipSpec(rows: seq<Row>, table: bool, fault: bool, cur: Track, prev: Option<Track>,
                    firstId: Option<string>, lands: seq<Result<Option<Poll>>>, stopOk: bool): (r: SkipTrace)
    // an unusable query raises before any skip
    ensures !table || None in cur.artistIds ==>
      r == SkipTrace(Crashed(OperationalError), [], 1, false, Plain(Some(cur)), Plain(prev))
    // IntegrityError reads as (None, None): None, with no skip
    ensures table && None !in cur.artistIds && fault ==>
      r == SkipTrace(Returned(None), [], 1, false, Plain(Some(cur)), Plain(prev))
    // a track no row matches: False, with no skip
    ensures table && None !in cur.artistIds && !fault && (forall i :: 0 <= i < |rows| ==> !RowMatches(rows[i], cur))
      ==> r == SkipTrace(Returned(Some(false)), [], 1, false, Plain(Some(cur)), Plain(prev))
    // a disliked track whose skip fails (-1): None, with the pair untouched
    ensures Lookup(rows, table, fault, cur) == Ok(Dislike) && lands != [] && lands[0] == Ok(None)
      ==> r == SkipTrace(Returned(None), [], 1, false, Plain(Some(cur)), Plain(prev))
    // a disliked track whose skip finds nothing playing: None, with no current track
    ensures Lookup(rows, table, fault, cur) == Ok(Dislike) && lands != [] && lands[0] == Ok(Some(NotPlaying))
      ==> r == SkipTrace(Returned(None), [], 1, false, None, Plain(prev))
    decreases |lands|
  {
    match TurnSpec(rows, table, fault, cur, prev, firstId, lands, stopOk)
    case Ends(o, l, s, c, p) => SkipTrace(o, l, 1, s, Plain(c), Plain(p))
    case GoesOn(t, p) =>
      var rest := SkipSpec(rows, table, fault, t, Plain(p), firstId, lands[1..], stopOk);
      SkipTrace(rest.outcome, [t.id] + rest.landed, rest.lookups + 1, rest.stopped, rest.current, rest.previous)
  }

  /** The (current, previous) pair after `update_current_track` with `fetch`. */
  function FirstRead(client: bool, cur: Option<Track>, prev: Option<Track>, fetch: Response)
    : (r: Result<(Option<Track>, Option<Track>)>)
    ensures !client ==> r == Ok((cur, prev))
    ensures r.Raised? ==> client && ReadPoll(fetch).Raised?
    ensures client && ReadPoll(fetch).Ok? ==> r == Ok(AfterPoll(cur, prev, ReadPoll(fetch).value))
  {
    if !client then Ok((cur, prev))
    else match ReadPoll(fetch)
      case Raised(e) => Raised(e)
      case Ok(p) => Ok(AfterPoll(cur, prev, p))
  }

  /** `skip_if_heartbroken` as a function of the player's state before the
      call, the first reply, the skip replies, whether the pause succeeds,
      and the store. */
  function SkipIfSpec(rows: seq<Row>, table: bool, fault: bool, client: bool, cur: Option<Track>,
                      prev: Option<Track>, fetch: Response, replies: seq<SkipReply>, stopOk: bool): (r: SkipTrace)
    // nothing playing after the read: None, with no lookup and no current track
    ensures client && ReadPoll(fetch) == Ok(NotPlaying) ==>
      r == SkipTrace(Returned(None), [], 0, false, None, Plain(prev))
    // a read that raises escapes before any lookup, leaving the pair alone
    ensures client && ReadPoll(fetch).Raised? ==>
      r == SkipTrace(Crashed(ReadPoll(fetch).error), [], 0, false, Plain(cur), Plain(prev))
    // the previous track's id playing again: False, with no lookup
    ensures client && ReadPoll(fetch).Ok? && ReadPoll(fetch).value.Playing? && cur.Some? && prev.Some?
      && cur.value.id == ReadPoll(fetch).value.track.id && prev.value.id == cur.value.id
      ==> r == SkipTrace(Returned(Some(false)), [], 0, false, Plain(Some(ReadPoll(fetch).value.track)), Plain(prev))
    // a new track starting is always looked up, with its own id remembered
    // and the track it replaced as the previous one
    ensures client && ReadPoll(fetch).Ok? && ReadPoll(fetch).value.Playing? && cur.Some?
      && cur.value.id != ReadPoll(fetch).value.track.id
      ==> var t := ReadPoll(fetch).value.track;
          r == SkipSpec(rows, table, fault, t, Plain(cur), t.id, Landings(client, replies), stopOk)
    // nothing is ever skipped without a lookup
    ensures r.lookups == 0 ==> r.landed == [] && !r.stopped && r.outcome != Unfinished
  {
    match FirstRead(client, cur, prev, fetch)
    case Raised(e) => SkipTrace(Crashed(e), [], 0, false, Plain(cur), Plain(prev))
    case Ok(cp) =>
      if cp.0.None? then SkipTrace(Returned(None), [], 0, false, Plain(cp.0), Plain(cp.1))
      else if cp.1.Some? && cp.0.value.id == cp.1.value.id then
        SkipTrace(Returned(Some(false)), [], 0, false, Plain(cp.0), Plain(cp.1))
      else SkipSpec(rows, table, fault, cp.0.value, Plain(cp.1), cp.0.value.id, Landings(client, replies), stopOk)
  }

  /** One lookup per turn and one skip after each dislike: the loop never
      returns True, and it skips at most once per reply. */
  lemma {:induction false} SkipSpecCounts(rows: seq<Row>, table: bool, fault: bool, cur: Track, prev: Option<Track>,
                                          firstId: Option<string>, lands: seq<Result<Option<Poll>>>, stopOk: bool)
    ensures var r := SkipSpec(rows, table, fault, cur, prev, firstId, lands, stopOk);
      && r.outcome != Returned(Some(true))
      && r.lookups >= 1 && |r.landed| <= r.lookups <= |r.landed| + 1
      && |r.landed| <= |lands|
      && (r.outcome == Unfinished ==> r.lookups == |r.landed| + 1 == |lands| + 1)
    decreases |lands|
  {
    var turn := TurnSpec(rows, table, fault, cur, prev, firstId, lands, stopOk);
    if turn.GoesOn? {
      SkipSpecCounts(rows, table, fault, turn.next, Plain(turn.previous), firstId, lands[1..], stopOk);
    }
  }

  /** Only `firstId` is remembered: no skip before the last lands on it, and
      playback is stopped exactly when the last skip lands on it, which ends
      the loop with None. */
  lemma {:induction false} SkipSpecStops(rows: seq<Row>, table: bool, fault: bool, cur: Track, prev: Option<Track>,
                                         firstId: Option<string>, lands: seq<Result<Option<Poll>>>, stopOk: bool)
    ensures var r := SkipSpec(rows, table, fault, cur, prev, firstId, lands, stopOk);
      && (forall k :: 0 <= k < |r.landed| - 1 ==> r.landed[k] != firstId)
      && (r.stopped <==> |r.landed| > 0 && r.landed[|r.landed| - 1] == firstId)
      && (r.stopped ==> r.outcome == Returned(None))
    decreases |lands|
  {
    var turn := TurnSpec(rows, table, fault, cur, prev, firstId, lands, stopOk);
    if turn.GoesOn? {
      var p := Plain(turn.previous);
      SkipSpecStops(rows, table, fault, turn.next, p, firstId, lands[1..], stopOk);
      SkipStopsStep(SkipSpec(rows, table, fault, turn.next, p, firstId, lands[1..], stopOk), turn.next.id, firstId);
    }
  }

  /** The landed ids of a turn that goes on: the new id, then the rest. */
  lemma SkipStopsStep(r: SkipTrace, id: Option<string>, firstId: Option<string>)
    requires id != firstId
    requires forall k :: 0 <= k < |r.landed| - 1 ==> r.landed[k] != firstId
    requires r.stopped <==> |r.landed| > 0 && r.landed[|r.landed| - 1] == firstId
    ensures var all := [id] + r.landed;
      && (forall k :: 0 <= k < |all| - 1 ==> all[k] != firstId)
      && (r.stopped <==> all[|all| - 1] == firstId)
  {
    var all := [id] + r.landed;
    forall k | 0 <= k < |all| - 1
      ensures all[k] != firstId
    {
      if k > 0 {
        assert all[k] == r.landed[k - 1];
      }
    }
    if r.landed != [] {
      assert all[|all| - 1] == r.landed[|r.landed| - 1];
    } else {
      assert all == [id];
    }
  }

  /** The track the loop leaves as the current one, which `app_loop` reads
      after a False: the last track a skip landed on, or the one it started
      with. A stop that succeeds leaves no current track and the first one
      as the previous track; a failed stop leaves the first one current. */
  lemma {:induction false} SkipSpecLeaves(rows: seq<Row>, table: bool, fault: bool, cur: Track, prev: Option<Track>,
                                          firstId: Option<string>, lands: seq<Result<Option<Poll>>>, stopOk: bool)
    ensures var r := SkipSpec(rows, table, fault, cur, prev, firstId, lands, stopOk);
      && (r.outcome == Returned(Some(false)) || r.outcome == Unfinished ==>
            r.current.Some? && r.current.value.id == (if r.landed == [] then cur.id else r.landed[|r.landed| - 1]))
      && (r.stopped && stopOk ==> r.current == None && r.previous.Some? && r.previous.value.id == firstId)
      && (r.stopped && !stopOk ==> r.current.Some? && r.current.value.id == firstId)
    decreases |lands|
  {
    var turn := TurnSpec(rows, table, fault, cur, prev, firstId, lands, stopOk);
    if turn.GoesOn? {
      var t := turn.next;
      SkipSpecLeaves(rows, table, fault, t, Plain(turn.previous), firstId, lands[1..], stopOk);
      var rest := SkipSpec(rows, table, fault, t, Plain(turn.previous), firstId, lands[1..], stopOk);
      var all := [t.id] + rest.landed;
      assert all[|all| - 1] == if rest.landed == [] then t.id else rest.landed[|rest.landed| - 1];
    }
  }

  /** What `app_loop` relies on after `skip_if_heartbroken`: a False comes
      with a current track, the last one a skip landed on if any; a stop
      that succeeds leaves no current track. */
  lemma SkipIfSpecLeaves(rows: seq<Row>, table: bool, fault: bool, client: bool, cur: Option<Track>,
                         prev: Option<Track>, fetch: Response, replies: seq<SkipReply>, stopOk: bool)
    ensures var r := SkipIfSpec(rows, table, fault, client, cur, prev, fetch, replies, stopOk);
      && (r.outcome == Returned(Some(false)) ==> r.current.Some?)
      && (r.outcome == Returned(Some(false)) && r.landed != [] ==> r.current.value.id == r.landed[|r.landed| - 1])
      && (r.stopped && stopOk ==> r.current == None)
  {
    var first := FirstRead(client, cur, prev, fetch);
    if first.Ok? && first.value.0.Some? {
      var t := first.value.0.value;
      SkipSpecLeaves(rows, table, fault, t, Plain(first.value.1), t.id, Landings(client, replies), stopOk);
    }
  }

  /** A track whose lookup always reports a dislike: its artist ids render
      into a valid query and some row matches it. */
  ghost predicate AlwaysDisliked(rows: seq<Row>, t: Track)
  {
    None !in t.artistIds && exists i :: 0 <= i < |rows| && RowMatches(rows[i], t)
  }

  /** Every skip succeeds and lands on another disliked track that is not the
      first one. */
  ghost predicate EndlessSkips(rows: seq<Row>, lands: seq<Result<Option<Poll>>>, firstId: Option<string>)
  {
    forall k :: 0 <= k < |lands| ==>
      LandsOn(lands[k]).Some? && LandsOn(lands[k]).value.id != firstId && AlwaysDisliked(rows, LandsOn(lands[k]).value)
  }

  /** Since only the first id is remembered, a cycle of disliked tracks that
      avoids the first one is skipped through until the replies run out:
      the source's loop never ends. */
  lemma {:induction false} SkipSpecEndless(rows: seq<Row>, table: bool, fault: bool, cur: Track, prev: Option<Track>,
                                           firstId: Option<string>, lands: seq<Result<Option<Poll>>>, stopOk: bool)
    requires table && !fault && AlwaysDisliked(rows, cur) && EndlessSkips(rows, lands, firstId)
    ensures var r := SkipSpec(rows, table, fault, cur, prev, firstId, lands, stopOk);
      r.outcome == Unfinished && |r.landed| == |lands| && !r.stopped
    decreases |lands|
  {
    if lands != [] {
      var turn := TurnSpec(rows, table, fault, cur, prev, firstId, lands, stopOk);
      assert EndlessSkips(rows, lands[1..], firstId) by {
        forall k | 0 <= k < |lands[1..]|
          ensures lands[1..][k] == lands[k + 1]
        {
        }
      }
      SkipSpecEndless(rows, table, fault, turn.next, Plain(turn.previous), firstId, lands[1..], stopOk);
    }
  }

  /** Where the loop stands after `i` turns on the way to `spec`: the ids
      landed on so far, followed by the rest of the loop from `cur`. */
  ghost predicate Resumes(spec: SkipTrace, landed: seq<Option<string>>, i: nat, rest: SkipTrace)
  {
    spec == SkipTrace(rest.outcome, landed + rest.landed, i + rest.lookups, rest.stopped, rest.current, rest.previous)
  }

  /** A turn that did what `TurnSpec` says either ends the loop or moves it
      one turn further along, from the track it left as the current one. */
  lemma SkipSpecStep(rows: seq<Row>, table: bool, fault: bool, cur: Track, prev: Option<Track>,
                     firstId: Option<string>, lands: seq<Result<Option<Poll>>>, stopOk: bool,
                     spec: SkipTrace, landed: seq<Option<string>>, i: nat,
                     r: Option<SkipOutcome>, l: seq<Option<string>>, s: bool, c: Option<Track>, p: Option<Track>)
    requires Resumes(spec, landed, i, SkipSpec(rows, table, fault, cur, prev, firstId, lands, stopOk))
    requires Follows(TurnSpec(rows, table, fault, cur, prev, firstId, lands, stopOk), r, l, s, c, p)
    ensures r.Some? ==> spec == SkipTrace(r.value, landed + l, i + 1, s, Plain(c), Plain(p))
    ensures r.None? ==>
      && lands != [] && c.Some?
      && Resumes(spec, landed + l, i + 1, SkipSpec(rows, table, fault, c.value, Plain(p), firstId, lands[1..], stopOk))
  {
    var turn := TurnSpec(rows, table, fault, cur, prev, firstId, lands, stopOk);
    if turn.GoesOn? {
      var rest := SkipSpec(rows, table, fault, turn.next, Plain(turn.previous), firstId, lands[1..], stopOk);
      assert landed + ([turn.next.id] + rest.landed) == (landed + l) + rest.landed;
    }
  }

  // ---------------------------------------------------------------------------
  // The loop, step by step

  /** The second half of a turn of the loop of `skip_if_heartbroken`: skip
      with `reply`, give up on a failed skip or on nothing playing, and stop
      playback with `stop` when the skip lands on an id already skipped. None
      means the loop goes on. Ghost results: the id the skip landed on, if it
      got that far, and whether playback was stopped. */
  method SkipTurn(spotify: SpotifyWrapper, skipped: set<Option<string>>, reply: SkipReply, stop: Response)
    returns (r: Option<SkipOutcome>, ghost landed: seq<Option<string>>, ghost stopped: bool)
    requires spotify.Valid() && spotify.currentTrack.Some?
    modifies spotify
    ensures spotify.Valid() && spotify.client == old(spotify.client)
    ensures spotify.backoffIndex == old(spotify.backoffIndex) && spotify.backingOff == old(spotify.backingOff)
    ensures match SkipStep(old(spotify.currentTrack.value), old(spotify.previousTrack), skipped,
                           SkipLanding(old(spotify.client).Some?, reply), Is2xx(stop.status))
      case Ends(o, l, s, c, p) =>
        r == Some(o) && landed == l && stopped == s && spotify.currentTrack == c && spotify.previousTrack == p
      case GoesOn(t, p) =>
        r.None? && landed == [t.id] && !stopped && spotify.currentTrack == Some(t) && spotify.previousTrack == p
  {
    landed, stopped := [], false;
    var next := spotify.SkipCurrentTrack(reply.skip, reply.refetch);
    if next.Raised? {
      return Some(Crashed(next.error)), landed, stopped;
    }
    if next.value.Failure? || next.value.NoneValue? {
      return Some(Returned(None)), landed, stopped;
    }
    landed := [spotify.currentTrack.value.id];
    if spotify.currentTrack.value.id in skipped {
      var _ := spotify.StopPlayback(stop);
      stopped := true;
      return Some(Returned(None)), landed, stopped;
    }
    r := None;
  }

  /** One turn of the loop of `skip_if_heartbroken` on the current track,
      with `replies[i]` for the skip: classify the track and set its flags; on
      a falsy classification end the loop with the classification; otherwise
      remember `firstId` (the id of the track read first, which
      `current_track` still names) and skip. */
  method SkipRound(spotify: SpotifyWrapper, db: HeartbrokenDatabase, firstId: Option<string>,
                   skipped: set<Option<string>>, replies: seq<SkipReply>, i: nat, stop: Response, fault: bool)
    returns (r: Option<SkipOutcome>, skippedAfter: set<Option<string>>, ghost landed: seq<Option<string>>, ghost stopped: bool)
    requires spotify.Valid() && db.Valid() && spotify.currentTrack.Some? && skipped <= {firstId} && i <= |replies|
    modifies spotify
    ensures spotify.Valid() && spotify.client == old(spotify.client)
    ensures spotify.backoffIndex == old(spotify.backoffIndex) && spotify.backingOff == old(spotify.backingOff)
    ensures skippedAfter <= {firstId}
    ensures Follows(TurnSpec(db.rows, db.tableExists, fault, old(spotify.currentTrack.value), Plain(old(spotify.previousTrack)),
                             firstId, Landings(old(spotify.client).Some?, replies)[i..], Is2xx(stop.status)),
                    r, landed, stopped, spotify.currentTrack, spotify.previousTrack)
    // a falsy classification sets its flags on the current track
    ensures r == Some(Returned(Some(false))) ==>
      spotify.currentTrack.Some? && spotify.currentTrack.value.marks == MarksFor(NotDisliked)
  {
    ghost var lands := Landings(spotify.client.Some?, replies)[i..];
    ghost var prev := Plain(spotify.previousTrack);
    skippedAfter, landed, stopped := skipped, [], false;
    var before := spotify.currentTrack.value;
    ghost var turn := TurnSpec(db.rows, db.tableExists, fault, before, prev, firstId, lands, Is2xx(stop.status));
    var c := db.IsHeartbroken(before, fault);
    if c.Raised? {
      assert turn == Ends(Crashed(c.error), [], false, Some(before), prev);
      assert Follows(turn, Some(Crashed(c.error)), landed, stopped, spotify.currentTrack, spotify.previousTrack);
      return Some(Crashed(c.error)), skippedAfter, landed, stopped;
    }
    spotify.currentTrack := Some(before.(marks := MarksFor(c.value)));
    if !c.value.Disliked? {
      assert turn.Ends? && turn.landed == [] && !turn.stopped && turn.current == Some(before) && turn.previous == prev;
      assert Follows(turn, Some(Returned(if c.value == NotDisliked then Some(false) else None)), landed, stopped, spotify.currentTrack, spotify.previousTrack);
      return Some(Returned(if c.value == NotDisliked then Some(false) else None)), skippedAfter, landed, stopped;
    }
    skippedAfter := skipped + {firstId};
    if i == |replies| {
      assert turn == Ends(Unfinished, [], false, Some(before), prev);
      assert Follows(turn, Some(Unfinished), landed, stopped, spotify.currentTrack, spotify.previousTrack);
      return Some(Unfinished), skippedAfter, landed, stopped;
    }
    assert skippedAfter == {firstId};
    assert turn == SkipStep(before, prev, skippedAfter, lands[0], Is2xx(stop.status));
    assert lands[0] == SkipLanding(old(spotify.client).Some?, replies[i]);
    r, landed, stopped := SkipMarked(spotify, before, skippedAfter, replies[i], stop);
  }

  /** `SkipTurn` from the current track once its flags are set: it does what
      the skip from the unflagged `before` would do, up to the flags. */
  method SkipMarked(spotify: SpotifyWrapper, ghost before: Track, skipped: set<Option<string>>,
                    reply: SkipReply, stop: Response)
    returns (r: Option<SkipOutcome>, ghost landed: seq<Option<string>>, ghost stopped: bool)
    requires spotify.Valid() && spotify.currentTrack.Some? && Plain(spotify.currentTrack) == Plain(Some(before))
    modifies spotify
    ensures spotify.Valid() && spotify.client == old(spotify.client)
    ensures spotify.backoffIndex == old(spotify.backoffIndex) && spotify.backingOff == old(spotify.backingOff)
    ensures Follows(SkipStep(before, Plain(old(spotify.previousTrack)), skipped,
                             SkipLanding(old(spotify.client).Some?, reply), Is2xx(stop.status)),
                    r, landed, stopped, spotify.currentTrack, spotify.previousTrack)
    // a skip never ends the loop with False
    ensures r != Some(Returned(Some(false)))
  {
    SkipStepMarks(spotify.currentTrack.value, before, spotify.previousTrack, Plain(spotify.previousTrack),
                  skipped, SkipLanding(spotify.client.Some?, reply), Is2xx(stop.status));
    r, landed, stopped := SkipTurn(spotify, skipped, reply, stop);
  }

  /** The loop of `skip_if_heartbroken`, entered with `first` as the current
      track: turns until one ends. Ghost results: the ids the skips landed
      on, whether playback was stopped, and the number of lookups; together
      with the outcome and the pair it leaves they are exactly `SkipSpec` of
      the store and of what the replies come back with. */
  method SkipLoop(spotify: SpotifyWrapper, db: HeartbrokenDatabase, first: Track,
                  replies: seq<SkipReply>, stop: Response, fault: bool)
    returns (r: SkipOutcome, ghost landed: seq<Option<string>>, ghost stopped: bool, ghost lookups: nat)
    requires spotify.Valid() && db.Valid() && spotify.currentTrack == Some(first)
    modifies spotify
    ensures spotify.Valid() && spotify.client == old(spotify.client)
    ensures spotify.backoffIndex == old(spotify.backoffIndex) && spotify.backingOff == old(spotify.backingOff)
    ensures SkipTrace(r, landed, lookups, stopped, Plain(spotify.currentTrack), Plain(spotify.previousTrack))
         == SkipSpec(db.rows, db.tableExists, fault, first, Plain(old(spotify.previousTrack)), first.id,
                     Landings(old(spotify.client).Some?, replies), Is2xx(stop.status))
    // the loop ends on a falsy classification, whose flags are set on the current track
    ensures r == Returned(Some(false)) ==>
      spotify.currentTrack.Some? && spotify.currentTrack.value.marks == MarksFor(NotDisliked)
  {
    ghost var stopOk := Is2xx(stop.status);
    ghost var spec := SkipSpec(db.rows, db.tableExists, fault, first, Plain(spotify.previousTrack), first.id,
                               Landings(spotify.client.Some?, replies), stopOk);
    landed, stopped, lookups := [], false, 0;
    var skipped: set<Option<string>> := {};
    var i := 0;
    assert Landings(spotify.client.Some?, replies)[0..] == Landings(spotify.client.Some?, replies);
    while true
      invariant 0 <= i <= |replies| && lookups == i && !stopped && skipped <= {first.id}
      invariant spotify.Valid() && spotify.client == old(spotify.client) && spotify.currentTrack.Some?
      invariant spotify.backoffIndex == old(spotify.backoffIndex) && spotify.backingOff == old(spotify.backingOff)
      invariant Resumes(spec, landed, i, SkipSpec(db.rows, db.tableExists, fault, spotify.currentTrack.value,
                                                  Plain(spotify.previousTrack), first.id,
                                                  Landings(spotify.client.Some?, replies)[i..], stopOk))
      decreases |replies| - i
    {
      var end;
      ghost var l, s;
      end, skipped, l, s := SkipAdvance(spotify, db, first.id, skipped, replies, i, stop, fault, spec, landed);
      landed, lookups := landed + l, lookups + 1;
      if end.Some? {
        stopped := s;
        return end.value, landed, stopped, lookups;
      }
      i := i + 1;
    }
  }

  /** One turn of `SkipLoop`: `SkipRound`, placed on the way to `spec`. */
  method SkipAdvance(spotify: SpotifyWrapper, db: HeartbrokenDatabase, firstId: Option<string>,
                     skipped: set<Option<string>>, replies: seq<SkipReply>, i: nat, stop: Response, fault: bool,
                     ghost spec: SkipTrace, ghost landed: seq<Option<string>>)
    returns (r: Option<SkipOutcome>, skippedAfter: set<Option<string>>, ghost l: seq<Option<string>>, ghost s: bool)
    requires spotify.Valid() && db.Valid() && spotify.currentTrack.Some? && skipped <= {firstId} && i <= |replies|
    requires Resumes(spec, landed, i, SkipSpec(db.rows, db.tableExists, fault, spotify.currentTrack.value,
                                               Plain(spotify.previousTrack), firstId,
                                               Landings(spotify.client.Some?, replies)[i..], Is2xx(stop.status)))
    modifies spotify
    ensures spotify.Valid() && spotify.client == old(spotify.client)
    ensures spotify.backoffIndex == old(spotify.backoffIndex) && spotify.backingOff == old(spotify.backingOff)
    ensures skippedAfter <= {firstId}
    ensures r.Some? ==>
      spec == SkipTrace(r.value, landed + l, i + 1, s, Plain(spotify.currentTrack), Plain(spotify.previousTrack))
    ensures r == Some(Returned(Some(false))) ==>
      spotify.currentTrack.Some? && spotify.currentTrack.value.marks == MarksFor(NotDisliked)
    ensures r.None? ==>
      && i < |replies| && spotify.currentTrack.Some?
      && Resumes(spec, landed + l, i + 1, SkipSpec(db.rows, db.tableExists, fault, spotify.currentTrack.value,
                                                   Plain(spotify.previousTrack), firstId,
                                                   Landings(spotify.client.Some?, replies)[i + 1..], Is2xx(stop.status)))
  {
    ghost var lands := Landings(spotify.client.Some?, replies)[i..];
    ghost var cur, prev := spotify.currentTrack.value, Plain(spotify.previousTrack);
    r, skippedAfter, l, s := SkipRound(spotify, db, firstId, skipped, replies, i, stop, fault);
    SkipSpecStep(db.rows, db.tableExists, fault, cur, prev, firstId, lands, Is2xx(stop.status), spec, landed, i,
                 r, l, s, spotify.currentTrack, spotify.previousTrack);
    if r.None? {
      assert lands[1..] == Landings(spotify.client.Some?, replies)[i + 1..];
    }
  }

  /** The first read of `skip_if_heartbroken`, as `FirstRead` states it. */
  method ReadFirst(spotify: SpotifyWrapper, fetch: Response) returns (u: Result<Value>)
    requires spotify.Valid()
    modifies spotify
    ensures spotify.Valid() && spotify.client == old(spotify.client)
    ensures spotify.backoffIndex == old(spotify.backoffIndex) && spotify.backingOff == old(spotify.backingOff)
    ensures match FirstRead(old(spotify.client).Some?, old(spotify.currentTrack), old(spotify.previousTrack), fetch)
      case Raised(e) =>
        u == Raised(e) && spotify.currentTrack == old(spotify.currentTrack)
        && spotify.previousTrack == old(spotify.previousTrack)
      case Ok(cp) =>
        u.Ok? && (spotify.currentTrack, spotify.previousTrack) == cp
  {
    u := spotify.UpdateCurrentTrack(fetch);
  }

  /** `skip_if_heartbroken(spotify)`. `fetch` answers the first read of the
      player, `replies[k]` the k-th skip, `stop` the pause, and `fault` makes
      every lookup hit IntegrityError. Ghost results: the ids the skips
      landed on, whether playback was stopped, and the number of lookups;
      together with the outcome and the (current, previous) pair left on the
      wrapper they are exactly `SkipIfSpec` of the player's state before the
      call and of the replies. */
  method SkipIfHeartbroken(spotify: SpotifyWrapper, db: HeartbrokenDatabase, fetch: Response,
                           replies: seq<SkipReply>, stop: Response, fault: bool)
    returns (r: SkipOutcome, ghost landed: seq<Option<string>>, ghost stopped: bool, ghost lookups: nat)
    requires spotify.Valid() && db.Valid()
    modifies spotify
    ensures spotify.Valid() && spotify.client == old(spotify.client)
    ensures spotify.backoffIndex == old(spotify.backoffIndex) && spotify.backingOff == old(spotify.backingOff)
    ensures SkipTrace(r, landed, lookups, stopped, Plain(spotify.currentTrack), Plain(spotify.previousTrack))
         == SkipIfSpec(db.rows, db.tableExists, fault, old(spotify.client).Some?,
                       old(spotify.currentTrack), old(spotify.previousTrack), fetch, replies, Is2xx(stop.status))
    // returning before the loop leaves the pair exactly as the first read set it
    ensures lookups == 0 && !r.Crashed? ==>
      FirstRead(old(spotify.client).Some?, old(spotify.currentTrack), old(spotify.previousTrack), fetch)
        == Ok((spotify.currentTrack, spotify.previousTrack))
    ensures r == Returned(Some(false)) && lookups > 0 ==>
      spotify.currentTrack.Some? && spotify.currentTrack.value.marks == MarksFor(NotDisliked)
  {
    landed, stopped, lookups := [], false, 0;
    var u := ReadFirst(spotify, fetch);
    if u.Raised? {
      return Crashed(u.error), landed, stopped, lookups;
    }
    var current := spotify.currentTrack;
    var previous := spotify.previousTrack;
    if current.None? {
      return Returned(None), landed, stopped, lookups;
    }
    if previous.Some? && current.value.id == previous.value.id {
      return Returned(Some(false)), landed, stopped, lookups;
    }
    r, landed, stopped, lookups := SkipLoop(spotify, db, current.value, replies, stop, fault);
  }

  // ---------------------------------------------------------------------------
  // The tray handlers

  /** What `get_current_track_static` returned: a Track, None or False. */
  datatype StaticFetch = StaticTrack(track: Track) | StaticNone | StaticFalse

  /** How `handle_heartbreak` ends when it does not raise. */
  datatype Handled = NothingPlaying | NotSaved | SkipRequested

  /** `len([arg for arg in (track, artist, album) if arg])` */
  function TrueCount(track: bool, artist: bool, album: bool): nat
  {
    (if track then 1 else 0) + (if artist then 1 else 0) + (if album then 1 else 0)
  }

  /** `db_success = db_success and save_heartbreak(artist_id=a)` over the
      artist ids from index `i`: the value (or exception) and the rows after.
      Once a save returns False no further save is made. */
  function SaveArtists(rows: seq<Row>, table: bool, ids: seq<Option<string>>, faults: nat -> bool, i: nat)
    : (r: (Result<bool>, seq<Row>))
    requires i <= |ids|
    ensures Unique(rows) ==> Unique(r.1)
    ensures |rows| <= |r.1| && r.1[..|rows|] == rows
    ensures r.0 == Ok(true) ==> forall k :: i <= k < |ids| ==>
      ids[k].Some? && exists j :: 0 <= j < |r.1| && r.1[j].artistId == ids[k]
    decreases |ids| - i
  {
    if i == |ids| then (Ok(true), rows)
    else
      var s := SaveOne(rows, table, Row(ids[i], None, None), faults(i));
      if s.0 != Ok(true) then (s.0, rows)
      else
        var rest := SaveArtists(s.1, table, ids, faults, i + 1);
        assert rest.0 == Ok(true) ==> exists j :: 0 <= j < |rest.1| && rest.1[j].artistId == ids[i] by {
          if rest.0 == Ok(true) {
            if s.1 == rows + [Row(ids[i], None, None)] {
              assert rest.1[|rows|] == s.1[|rows|];
            } else {
              var k :| 0 <= k < |rows| && Clash(rows[k], Row(ids[i], None, None));
              assert rest.1[k] == rows[k];
            }
          }
        }
        assert rest.1[..|rows|] == rows by {
          assert rest.1[..|s.1|] == s.1;
          assert rest.1[..|rows|] == rest.1[..|s.1|][..|rows|];
        }
        rest
  }

  /** The same loop with `remove_heartbreak(artist_id=a)`. */
  function RemoveArtists(rows: seq<Row>, table: bool, ids: seq<Option<string>>, faults: nat -> bool, i: nat)
    : (r: (Result<bool>, seq<Row>))
    requires i <= |ids|
    ensures Unique(rows) ==> Unique(r.1)
    ensures forall x :: x in r.1 ==> x in rows
    ensures r.0 == Ok(true) ==> forall k :: i <= k < |ids| ==>
      ids[k].Some? && forall j :: 0 <= j < |r.1| ==> r.1[j].artistId != ids[k]
    decreases |ids| - i
  {
    if i == |ids| then (Ok(true), rows)
    else
      var s := RemoveOne(rows, table, Row(ids[i], None, None), faults(i));
      if s.0 != Ok(true) then (s.0, rows)
      else
        var rest := RemoveArtists(s.1, table, ids, faults, i + 1);
        assert forall j :: 0 <= j < |rest.1| ==> rest.1[j].artistId != ids[i] by {
          forall j | 0 <= j < |rest.1|
            ensures rest.1[j].artistId != ids[i]
          {
            assert rest.1[j] in rest.1;
          }
        }
        rest
  }

  /** One save of `SaveArtists`: a save that does not return True ends the run. */
  lemma SaveArtistsStep(rows: seq<Row>, table: bool, ids: seq<Option<string>>, faults: nat -> bool, i: nat)
    requires i < |ids|
    ensures var s := SaveOne(rows, table, Row(ids[i], None, None), faults(i));
      SaveArtists(rows, table, ids, faults, i)
        == if s.0 != Ok(true) then (s.0, rows) else SaveArtists(s.1, table, ids, faults, i + 1)
  {
  }

  /** The artist branch of `handle_heartbreak`: one save per artist id, each
      skipped once an earlier save returned False; an exception ends the loop. */
  method SaveEachArtist(db: HeartbrokenDatabase, ids: seq<Option<string>>, faults: nat -> bool)
    returns (r: Result<bool>)
    requires db.Valid()
    modifies db
    ensures db.Valid() && db.tableExists == old(db.tableExists)
    ensures (r, db.rows) == SaveArtists(old(db.rows), db.tableExists, ids, faults, 0)
  {
    var dbSuccess := true;
    var i := 0;
    while i < |ids|
      invariant 0 <= i <= |ids| && db.Valid() && db.tableExists == old(db.tableExists)
      invariant dbSuccess ==>
        SaveArtists(old(db.rows), db.tableExists, ids, faults, 0) == SaveArtists(db.rows, db.tableExists, ids, faults, i)
      invariant !dbSuccess ==> SaveArtists(old(db.rows), db.tableExists, ids, faults, 0) == (Ok(false), db.rows)
    {
      if dbSuccess {
        ghost var before := db.rows;
        var s := db.SaveHeartbreak(None, ids[i], None, faults(i));
        SaveArtistsStep(before, db.tableExists, ids, faults, i);
        if s.Raised? {
          return Raised(s.error);
        }
        dbSuccess := s.value;
      }
      i := i + 1;
    }
    return Ok(dbSuccess);
  }

  /** `handle_heartbreak(track, artist, album)`. `current` is what the static
      read of the player returned, `faults(k)` whether the k-th save hits
      IntegrityError. Not exactly one flag set raises TypeError: the
      `ArgumentError` the source builds is given one argument where its
      constructor takes two, so building it fails first. */
  method HandleHeartbreak(db: HeartbrokenDatabase, track: bool, artist: bool, album: bool,
                          current: StaticFetch, faults: nat -> bool)
    returns (r: Result<Handled>)
    requires db.Valid()
    modifies db
    ensures db.Valid() && db.tableExists == old(db.tableExists)
    ensures TrueCount(track, artist, album) != 1 ==> r == Raised(TypeError) && db.rows == old(db.rows)
    ensures TrueCount(track, artist, album) == 1 && current.StaticNone? ==>
      r == Ok(NothingPlaying) && db.rows == old(db.rows)
    ensures TrueCount(track, artist, album) == 1 && current.StaticFalse? ==>
      r == Raised(AttributeError) && db.rows == old(db.rows)
    ensures TrueCount(track, artist, album) == 1 && current.StaticTrack? ==>
      var saved :=
        if artist then SaveArtists(old(db.rows), db.tableExists, current.track.artistIds, faults, 0)
        else if album then SaveOne(old(db.rows), db.tableExists, Row(None, current.track.albumId, None), faults(0))
        else SaveOne(old(db.rows), db.tableExists, Row(None, None, current.track.id), faults(0));
      && db.rows == saved.1
      && r == match saved.0 { case Raised(e) => Raised(e) case Ok(b) => Ok(if b then SkipRequested else NotSaved) }
  {
    if TrueCount(track, artist, album) > 1 || TrueCount(track, artist, album) == 0 {
      // `ArgumentError(message)` lacks its second argument, so constructing it raises TypeError
      return Raised(TypeError);
    }
    if current.StaticNone? {
      return Ok(NothingPlaying);
    }
    if current.StaticFalse? {
      // False has no `id`, `artist_ids` or `album_id`
      return Raised(AttributeError);
    }
    var t := current.track;
    var dbSuccess: bool;
    if artist {
      var s := SaveEachArtist(db, t.artistIds, faults);
      if s.Raised? {
        return Raised(s.error);
      }
      dbSuccess := s.value;
    } else if album {
      var s := db.SaveHeartbreak(None, None, t.albumId, faults(0));
      if s.Raised? {
        return Raised(s.error);
      }
      dbSuccess := s.value;
    } else {
      var s := db.SaveHeartbreak(t.id, None, None, faults(0));
      if s.Raised? {
        return Raised(s.error);
      }
      dbSuccess := s.value;
    }
    if !dbSuccess {
      return Ok(NotSaved);
    }
    return Ok(SkipRequested);
  }

  /** `handle_clear_heartbreak(track, artist, album)`. The fields of the
      fetched value are read before its None check, so None raises as False
      does; the non-artist path passes both `track_id` and `album_id`. Not
      exactly one flag set raises TypeError, as in `HandleHeartbreak`. */
  method HandleClearHeartbreak(db: HeartbrokenDatabase, track: bool, artist: bool, album: bool,
                               current: StaticFetch, faults: nat -> bool)
    returns (r: Result<bool>)
    requires db.Valid()
    modifies db
    ensures db.Valid() && db.tableExists == old(db.tableExists)
    ensures TrueCount(track, artist, album) != 1 ==> r == Raised(TypeError) && db.rows == old(db.rows)
    ensures TrueCount(track, artist, album) == 1 && !current.StaticTrack? ==>
      r == Raised(AttributeError) && db.rows == old(db.rows)
    ensures TrueCount(track, artist, album) == 1 && current.StaticTrack? ==>
      var removed :=
        if artist then RemoveArtists(old(db.rows), db.tableExists, current.track.artistIds, faults, 0)
        else RemoveOne(old(db.rows), db.tableExists,
                       Row(None, if album then current.track.albumId else None, if track then current.track.id else None),
                       faults(0));
      db.rows == removed.1 && r == removed.0
  {
    if TrueCount(track, artist, album) > 1 || TrueCount(track, artist, album) == 0 {
      // `ArgumentError(message)` lacks its second argument, so constructing it raises TypeError
      return Raised(TypeError);
    }
    if !current.StaticTrack? {
      // `current_track.id` (or `.artist_ids`, `.album_id`) on None or False
      return Raised(AttributeError);
    }
    var t := current.track;
    var trackId := if track then t.id else None;
    var albumId := if album then t.albumId else None;
    if artist {
      var ids := t.artistIds;
      var dbSuccess := true;
      var i := 0;
      while i < |ids|
        invariant 0 <= i <= |ids| && db.Valid() && db.tableExists == old(db.tableExists)
        invariant RemoveArtists(old(db.rows), db.tableExists, ids, faults, 0)
          == if dbSuccess then RemoveArtists(db.rows, db.tableExists, ids, faults, i) else (Ok(false), db.rows)
      {
        if dbSuccess {
          var s := db.RemoveHeartbreak(None, ids[i], None, faults(i));
          if s.Raised? {
            return Raised(s.error);
          }
          dbSuccess := s.value;
        }
        i := i + 1;
      }
      return Ok(dbSuccess);
    }
    r := db.RemoveHeartbreak(trackId, None, albumId, faults(0));
  }

  // ---------------------------------------------------------------------------
  // What a handler leaves for the next lookup

  /** Once every artist of a track is saved, the next lookup of that track
      finds a matching row and reports a dislike. */
  lemma {:induction false} DislikedArtistsAreFound(rows: seq<Row>, table: bool, t: Track, faults: nat -> bool)
    requires t.artistIds != [] && SaveArtists(rows, table, t.artistIds, faults, 0).0 == Ok(true)
    ensures AlwaysDisliked(SaveArtists(rows, table, t.artistIds, faults, 0).1, t)
    ensures forall c :: Classifies(SaveArtists(rows, table, t.artistIds, faults, 0).1, t, c) ==> c.Disliked?
    ensures table ==> Lookup(SaveArtists(rows, table, t.artistIds, faults, 0).1, table, false, t) == Ok(Dislike)
  {
    var res := SaveArtists(rows, table, t.artistIds, faults, 0).1;
    var j :| 0 <= j < |res| && res[j].artistId == t.artistIds[0];
    assert RowMatches(res[j], t);
    forall c | Classifies(res, t, c)
      ensures c.Disliked?
    {
      assert !Classifies(res, t, NotDisliked);
    }
  }

  /** Once every artist of a track is removed, no row matches the track
      through its artists any more. */
  lemma ClearedArtistsAreNotHit(rows: seq<Row>, table: bool, t: Track, faults: nat -> bool)
    requires RemoveArtists(rows, table, t.artistIds, faults, 0).0 == Ok(true)
    ensures var res := RemoveArtists(rows, table, t.artistIds, faults, 0).1;
      forall j :: 0 <= j < |res| ==> !ArtistHit(res[j], t)
  {
  }
}
