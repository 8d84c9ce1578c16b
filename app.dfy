/** heartbroken.py: the polling loop, the pause toggle of the tray menu, the
    quit handler and the start of `main`. */
module App {
  import opened Py
  import opened Tray
  import opened Spotify
  import opened Database
  import Tokens

  /** `SpotifyAPI.REQUEST_INTERVAL_SECONDS` */
  const RequestIntervalS := 1
  const RunningIcon := "./resources/heartbroken.ico"
  const PausedIcon := "./resources/heartbroken-paused.ico"
  const PauseText := "Pause auto-skip"
  const ResumeText := "Resume auto-skip"

  // ---------------------------------------------------------------------------
  // The polling loop

  /** What `skip_if_heartbroken` did in one iteration: returned None,
      returned a non-None value with the given current track id, or raised. */
  datatype SkipResult = ReturnedNone | ReturnedValue(currentId: Option<string>) | Raises(error: Exc)

  /** One iteration's view of the outside: the terminated flag at the top of
      the loop, what `is_token_expired` gave (it raises without a file), what
      the refresh inside `initialize_spotify_client` then gave (read only
      when the token had expired), and the skip result. */
  datatype Iteration = Iteration(terminated: bool, expired: Result<bool>, refresh: Tokens.Refreshed, skip: SkipResult)

  /** The two console messages of the loop. */
  datatype Message = NothingPlaying | CurrentlyPlaying(id: Option<string>)

  datatype Ending = Exit(code: int) | Crash(error: Exc) | OutOfInput

  /** The loop state: the id of the last logged track (None before the
      first) and the wrapper's back-off index and flag. */
  datatype View = View(lastLogged: Option<Option<string>>, index: nat, backingOff: bool)

  /** How the loop ended, what it printed, how long it slept (in seconds),
      and the state it ended in. */
  datatype Trace = Trace(ending: Ending, messages: seq<Message>, sleepsS: seq<int>, last: View)

  /** The iteration gets past the exit checks and the skip. */
  predicate Proceeds(it: Iteration)
  {
    !it.terminated && it.expired.Ok? && (it.expired.value ==> it.refresh.AccessToken?) && !it.skip.Raises?
  }

  /** How an iteration that does not get through ends the loop: 0 once
      terminated, the expiry check's exception, the refresh's own process
      exit (`sys.exit(3)`), 2 when no token is left, or the skip's
      exception. */
  function Halt(it: Iteration): (e: Ending)
    requires !Proceeds(it)
    ensures it.terminated ==> e == Exit(0)
    ensures !it.terminated && it.expired.Raised? ==> e == Crash(it.expired.error)
    ensures !it.terminated && it.expired == Ok(true) ==>
      e == match it.refresh
           case NeedsAuthorization => Exit(2)
           case Exit(c) => Exit(c)
           case AccessToken(_) => Crash(it.skip.error)
    ensures e.Crash? ==> !it.terminated
  {
    if it.terminated then Exit(0)
    else if it.expired.Raised? then Crash(it.expired.error)
    else if it.expired.value && it.refresh.Exit? then Exit(it.refresh.code)
    else if it.expired.value && it.refresh.NeedsAuthorization? then Exit(2)
    else Crash(it.skip.error)
  }

  /** The bottom half of an iteration, after a skip that did not raise. */
  function Poll(v: View, s: SkipResult): (View, seq<Message>, seq<int>)
    requires !s.Raises?
  {
    match s
    case ReturnedNone =>
      (View(v.lastLogged, v.index + 1, true), if v.backingOff then [] else [NothingPlaying],
       [Delay(v.index), RequestIntervalS])
    case ReturnedValue(id) =>
      if v.lastLogged.None? || v.lastLogged.value != id then (View(Some(id), 0, false), [CurrentlyPlaying(id)], [RequestIntervalS])
      else (v, [], [RequestIntervalS])
  }

  /** The loop from state `v` over the iterations `its`. */
  function Run(v: View, its: seq<Iteration>): Trace
    decreases |its|
  {
    if its == [] then Trace(OutOfInput, [], [], v)
    else if !Proceeds(its[0]) then Trace(Halt(its[0]), [], [], v)
    else
      var (w, m, s) := Poll(v, its[0].skip);
      var rest := Run(w, its[1..]);
      Trace(rest.ending, m + rest.messages, s + rest.sleepsS, rest.last)
  }

  /** The sleeps of an idle streak of n iterations with the back-off index
      starting at `index`: each back-off delay followed by the request
      interval. */
  function IdleSleeps(index: nat, n: nat): seq<int>
    decreases n
  {
    if n == 0 then [] else [Delay(index), RequestIntervalS] + IdleSleeps(index + 1, n - 1)
  }

  /** The loop returns 0 at the first iteration that finds the terminated
      flag set, once every earlier iteration got through. */
  lemma {:induction false} TerminatedEndsLoop(v: View, its: seq<Iteration>, k: nat)
    requires k < |its| && its[k].terminated
    requires forall j :: 0 <= j < k ==> Proceeds(its[j])
    ensures Run(v, its).ending == Exit(0)
    decreases k
  {
    if k > 0 {
      var w := Poll(v, its[0].skip).0;
      assert forall j :: 0 <= j < k - 1 ==> its[1..][j] == its[j + 1];
      TerminatedEndsLoop(w, its[1..], k - 1);
    }
  }

  /** The loop ends at the first iteration that does not get through, as
      `Halt` says, in the state the earlier iterations left: the exit codes
      0, 2 and the refresh's 3, or an escaping exception. */
  lemma {:induction false} HaltEndsLoop(v: View, its: seq<Iteration>, k: nat)
    requires k < |its| && !Proceeds(its[k])
    requires forall j :: 0 <= j < k ==> Proceeds(its[j])
    ensures Run(v, its).ending == Halt(its[k])
    ensures Run(v, its).last == Run(v, its[..k]).last
    decreases k
  {
    if k > 0 {
      var w := Poll(v, its[0].skip).0;
      assert forall j :: 0 <= j < k - 1 ==> its[1..][j] == its[j + 1];
      assert its[1..][..k - 1] == its[..k][1..];
      HaltEndsLoop(w, its[1..], k - 1);
    }
  }

  /** An idle streak prints "nothing playing" once, at its start, and only
      when the loop was not already backing off; it sleeps through the
      back-off schedule and leaves the index advanced by the streak's
      length. */
  lemma {:induction false} IdleStreak(v: View, its: seq<Iteration>)
    requires forall j :: 0 <= j < |its| ==> Proceeds(its[j]) && its[j].skip == ReturnedNone
    ensures Run(v, its) == Trace(OutOfInput, if its == [] || v.backingOff then [] else [NothingPlaying],
                                 IdleSleeps(v.index, |its|), View(v.lastLogged, v.index + |its|, v.backingOff || its != []))
    decreases |its|
  {
    if its != [] {
      var w := View(v.lastLogged, v.index + 1, true);
      var m: seq<Message> := if v.backingOff then [] else [NothingPlaying];
      assert forall j :: 0 <= j < |its| - 1 ==> its[1..][j] == its[j + 1];
      IdleStreak(w, its[1..]);
      RunStep(v, its);
      assert Poll(v, its[0].skip) == (w, m, [Delay(v.index), RequestIntervalS]);
      assert m + [] == m;
    }
  }

  /** From a freshly reset back-off, ten idle polls sleep 1, 1, 1, 1, 2, 2,
      2, 2, 5 and 5 seconds, each followed by the one-second interval. */
  lemma TenIdlePolls(id: Option<string>, its: seq<Iteration>)
    requires |its| == 10 && forall j :: 0 <= j < |its| ==> Proceeds(its[j]) && its[j].skip == ReturnedNone
    ensures Run(View(Some(id), 0, false), its).sleepsS == [1, 1, 1, 1, 1, 1, 1, 1, 2, 1, 2, 1, 2, 1, 2, 1, 5, 1, 5, 1]
    ensures Run(View(Some(id), 0, false), its).messages == [NothingPlaying]
  {
    IdleStreak(View(Some(id), 0, false), its);
    FirstTenDelays();
  }

  lemma FirstTenDelays()
    ensures IdleSleeps(0, 10) == [1, 1, 1, 1, 1, 1, 1, 1, 2, 1, 2, 1, 2, 1, 2, 1, 5, 1, 5, 1]
  {
  }

  /** Polls that keep finding the same track print it at most once, at the
      first of them; a new track resets the back-off, and polls of the
      already logged track leave the back-off where it was. */
  lemma {:induction false} PlayingStreak(v: View, id: Option<string>, its: seq<Iteration>)
    requires forall j :: 0 <= j < |its| ==> Proceeds(its[j]) && its[j].skip == ReturnedValue(id)
    ensures Run(v, its).ending == OutOfInput
    ensures Run(v, its).messages == if its == [] || v.lastLogged == Some(id) then [] else [CurrentlyPlaying(id)]
    ensures |Run(v, its).sleepsS| == |its|
    ensures forall j :: 0 <= j < |its| ==> Run(v, its).sleepsS[j] == RequestIntervalS
    ensures Run(v, its).last == if its == [] || v.lastLogged == Some(id) then v else View(Some(id), 0, false)
    decreases |its|
  {
    if its != [] {
      var w := if v.lastLogged == Some(id) then v else View(Some(id), 0, false);
      assert forall j :: 0 <= j < |its| - 1 ==> its[1..][j] == its[j + 1];
      PlayingStreak(w, id, its[1..]);
    }
  }

  /** One iteration that gets through, followed by the rest of the loop. */
  lemma RunStep(v: View, its: seq<Iteration>)
    requires its != [] && Proceeds(its[0])
    ensures var p := Poll(v, its[0].skip);
      var rest := Run(p.0, its[1..]);
      Run(v, its) == Trace(rest.ending, p.1 + rest.messages, p.2 + rest.sleepsS, rest.last)
  {
  }

  /** The part of an iteration of `app_loop` after a skip that did not
      raise and before the request-interval wait: report and back off, or
      log a new track and reset the back-off. */
  method PollOnce(spotify: SpotifyWrapper, lastLogged: Option<Option<string>>, skip: SkipResult)
    returns (logged: Option<Option<string>>, ghost messages: seq<Message>, ghost sleepsS: seq<int>)
    requires spotify.Valid() && !skip.Raises?
    modifies spotify
    ensures spotify.Valid()
    ensures spotify.client == old(spotify.client)
    ensures spotify.currentTrack == old(spotify.currentTrack) && spotify.previousTrack == old(spotify.previousTrack)
    ensures spotify.calls == old(spotify.calls) && spotify.sleepsMs == old(spotify.sleepsMs)
    ensures View(logged, spotify.backoffIndex, spotify.backingOff)
      == Poll(View(lastLogged, old(spotify.backoffIndex), old(spotify.backingOff)), skip).0
    ensures messages
      == Poll(View(lastLogged, old(spotify.backoffIndex), old(spotify.backingOff)), skip).1
    ensures sleepsS + [RequestIntervalS]
      == Poll(View(lastLogged, old(spotify.backoffIndex), old(spotify.backingOff)), skip).2
  {
    logged, messages, sleepsS := lastLogged, [], [];
    if skip.ReturnedNone? {
      if !spotify.backingOff {
        messages := messages + [NothingPlaying];
      }
      var seconds := spotify.GetBackoff();
      sleepsS := sleepsS + [seconds];
      assert sleepsS + [RequestIntervalS] == [Delay(old(spotify.backoffIndex)), RequestIntervalS];
    } else if lastLogged.None? || skip.currentId != lastLogged.value {
      messages := messages + [CurrentlyPlaying(skip.currentId)];
      logged := Some(skip.currentId);
      spotify.ResetBackoff();
    } else {
      assert View(logged, spotify.backoffIndex, spotify.backingOff) == View(lastLogged, old(spotify.backoffIndex), old(spotify.backingOff));
    }
  }

  /** How `app_loop` gets past its start, given what the refresh inside the
      first `initialize_spotify_client` gave, whether the OAuth flow then
      succeeded, and what the refresh of the second call gave: None when the
      loop is entered, or how it ends before the loop. */
  function Startup(first: Tokens.Refreshed, oauthOk: bool, second: Tokens.Refreshed): (r: Option<Ending>)
    // a token from the first refresh enters the loop at once
    ensures first.AccessToken? ==> r.None?
    // a failed OAuth flow returns 1
    ensures first.NeedsAuthorization? && !oauthOk ==> r == Some(Exit(1))
    // the second call's result is not checked: only its process exit stops the start
    ensures first.NeedsAuthorization? && oauthOk ==> r == if second.Exit? then Some(Exit(second.code)) else None
    // either refresh may end the process with its own exit code
    ensures first.Exit? ==> r == Some(Exit(first.code))
  {
    if first.Exit? then Some(Exit(first.code))
    else if first.AccessToken? then None
    else if !oauthOk then Some(Exit(1))
    else if second.Exit? then Some(Exit(second.code))
    else None
  }

  /** `app_loop`, with the results of the calls it makes given as inputs:
      `first` and `second` are what the refreshes of the two
      `initialize_spotify_client` calls before the loop give, `oauthOk` the
      OAuth flow's result, and `its` one entry per iteration of the loop.
      The wrapper's back-off is the loop's own. */
  method AppLoop(spotify: SpotifyWrapper, first: Tokens.Refreshed, oauthOk: bool, second: Tokens.Refreshed,
                 its: seq<Iteration>)
    returns (ending: Ending, ghost messages: seq<Message>, ghost sleepsS: seq<int>)
    requires spotify.Valid()
    modifies spotify
    ensures spotify.Valid()
    ensures Startup(first, oauthOk, second).Some? ==>
      && ending == Startup(first, oauthOk, second).value && messages == [] && sleepsS == []
      && spotify.backoffIndex == old(spotify.backoffIndex) && spotify.backingOff == old(spotify.backingOff)
    ensures Startup(first, oauthOk, second).None? ==>
      var t := Run(View(None, old(spotify.backoffIndex), old(spotify.backingOff)), its);
      && ending == t.ending && messages == t.messages && sleepsS == t.sleepsS
      && spotify.backoffIndex == t.last.index && spotify.backingOff == t.last.backingOff
  {
    messages, sleepsS := [], [];
    var early := Startup(first, oauthOk, second);
    if early.Some? {
      return early.value, messages, sleepsS;
    }
    ghost var start := View(None, spotify.backoffIndex, spotify.backingOff);
    var lastLogged: Option<Option<string>> := None;
    // never set again: the request-interval wait always happens
    var backingOff := false;
    var i := 0;
    while true
      invariant 0 <= i <= |its| && spotify.Valid()
      invariant var rest := Run(View(lastLogged, spotify.backoffIndex, spotify.backingOff), its[i..]);
        Run(start, its) == Trace(rest.ending, messages + rest.messages, sleepsS + rest.sleepsS, rest.last)
      decreases |its| - i
    {
      if i == |its| {
        return OutOfInput, messages, sleepsS;
      }
      var it := its[i];
      assert its[i..][1..] == its[i + 1..];
      if it.terminated {
        return Exit(0), messages, sleepsS;
      }
      if it.expired.Raised? {
        return Crash(it.expired.error), messages, sleepsS;
      }
      if it.expired.value {
        if it.refresh.Exit? {
          return Exit(it.refresh.code), messages, sleepsS;
        }
        if it.refresh.NeedsAuthorization? {
          return Exit(2), messages, sleepsS;
        }
      }
      if it.skip.Raises? {
        return Crash(it.skip.error), messages, sleepsS;
      }
      ghost var v := View(lastLogged, spotify.backoffIndex, spotify.backingOff);
      ghost var rest := Run(Poll(v, it.skip).0, its[i + 1..]);
      RunStep(v, its[i..]);
      ghost var m, sl;
      lastLogged, m, sl := PollOnce(spotify, lastLogged, it.skip);
      assert messages + m + rest.messages == messages + (m + rest.messages);
      messages := messages + m;
      if !backingOff {
        sl := sl + [RequestIntervalS];
      }
      assert sleepsS + sl + rest.sleepsS == sleepsS + (sl + rest.sleepsS);
      sleepsS := sleepsS + sl;
      i := i + 1;
    }
  }

  // ---------------------------------------------------------------------------
  // The run flags and the tray callbacks

  /** The two events shared with the tray: "should run" (set means running)
      and "terminated". */
  class RunFlags {
    var shouldRun: bool
    var terminated: bool

    /** As `main` creates them: running, not terminated. */
    constructor ()
      ensures shouldRun && !terminated
    {
      shouldRun := true;
      terminated := false;
    }
  }

  /** `on_quit_cleanup`: set both events, so a paused loop wakes and returns
      0 at its next check. */
  method OnQuitCleanup(flags: RunFlags)
    modifies flags
    ensures flags.terminated && flags.shouldRun
  {
    flags.terminated := true;
    flags.shouldRun := true;
  }

  /** A menu edit made by the toggle. */
  datatype MenuEdit = Retitle(index: int, text: string) | SetState(index: int, on: bool)

  /** One edit applied to one entry. */
  function Edited(e: Entry, edit: MenuEdit): Entry
  {
    match edit
    case Retitle(_, t) => e.(text := t)
    case SetState(_, b) => e.(third := Flag(b))
  }

  /** The edits in order, stopping at the first IndexError. */
  function ApplyEdits(m: seq<Entry>, edits: seq<MenuEdit>): (r: (Result<()>, seq<Entry>))
    ensures |r.1| == |m|
    ensures r.0.Ok? || r.0 == Raised(IndexError)
    decreases |edits|
  {
    if edits == [] then (Ok(()), m)
    else
      var k := PyIndex(|m|, edits[0].index);
      if k.None? then (Raised(IndexError), m)
      else ApplyEdits(m[k.value := Edited(m[k.value], edits[0])], edits[1..])
  }

  lemma ApplyFirst(m: seq<Entry>, edits: seq<MenuEdit>)
    requires edits != [] && 0 <= edits[0].index < |m|
    ensures ApplyEdits(m, edits) == ApplyEdits(m[edits[0].index := Edited(m[edits[0].index], edits[0])], edits[1..])
  {
  }

  /** The edits `toggle_auto_skip` makes: pausing shows "Resume" and enables
      the three un-dislike items; resuming shows "Pause" and disables them. */
  function ToggleEdits(pausing: bool): seq<MenuEdit>
  {
    SwitchEdits(if pausing then ResumeText else PauseText, pausing)
  }

  /** Retitle entry 0, then set the state of entries 4, 5 and 6. */
  function SwitchEdits(title: string, on: bool): seq<MenuEdit>
  {
    [Retitle(0, title), SetState(4, on), SetState(5, on), SetState(6, on)]
  }

  /** `toggle_auto_skip(menu, app_loop_should_run)` */
  method ToggleAutoSkip(flags: RunFlags, menu: SysTrayIcon) returns (r: Result<()>)
    modifies flags, menu
    ensures (r, menu.menuOptions) == ApplyEdits(old(menu.menuOptions), ToggleEdits(old(flags.shouldRun)))
    ensures flags.shouldRun == !old(flags.shouldRun) && flags.terminated == old(flags.terminated)
    ensures menu.icon == if old(flags.shouldRun) then PausedIcon else RunningIcon
    ensures menu.actionsById == old(menu.actionsById) && menu.destroyed == old(menu.destroyed)
    ensures menu.actionList == old(menu.actionList) && menu.hoverText == old(menu.hoverText)
    ensures menu.nextActionId == old(menu.nextActionId) && menu.defaultMenuIndex == old(menu.defaultMenuIndex)
    ensures menu.windowClassName == old(menu.windowClassName)
  {
    var pausing := flags.shouldRun;
    ghost var e := ToggleEdits(pausing);
    if pausing {
      flags.shouldRun := false;
      menu.icon := PausedIcon;
      r := menu.ChangeMenuItemText(0, ResumeText);
    } else {
      flags.shouldRun := true;
      menu.icon := RunningIcon;
      r := menu.ChangeMenuItemText(0, PauseText);
    }
    if r.Raised? {
      return;
    }
    ApplyFirst(old(menu.menuOptions), e);
    r := SetStates(menu, pausing, e[1..]);
  }

  /** The second half of `toggle_auto_skip`: enable (pausing) or disable
      (resuming) the three un-dislike items, in order. */
  method SetStates(menu: SysTrayIcon, on: bool, ghost e: seq<MenuEdit>) returns (r: Result<()>)
    requires e == [SetState(4, on), SetState(5, on), SetState(6, on)]
    modifies menu
    ensures (r, menu.menuOptions) == ApplyEdits(old(menu.menuOptions), e)
    ensures menu.icon == old(menu.icon) && menu.actionsById == old(menu.actionsById) && menu.destroyed == old(menu.destroyed)
    ensures menu.actionList == old(menu.actionList) && menu.hoverText == old(menu.hoverText)
    ensures menu.nextActionId == old(menu.nextActionId) && menu.defaultMenuIndex == old(menu.defaultMenuIndex)
    ensures menu.windowClassName == old(menu.windowClassName)
  {
    if on {
      r := menu.EnableMenuItem(4);
    } else {
      r := menu.DisableMenuItem(4);
    }
    if r.Raised? {
      return;
    }
    ApplyFirst(old(menu.menuOptions), e);
    ghost var m1 := menu.menuOptions;
    if on {
      r := menu.EnableMenuItem(5);
    } else {
      r := menu.DisableMenuItem(5);
    }
    if r.Raised? {
      return;
    }
    ApplyFirst(m1, e[1..]);
    ghost var m2 := menu.menuOptions;
    if on {
      r := menu.EnableMenuItem(6);
    } else {
      r := menu.DisableMenuItem(6);
    }
    if r.Raised? {
      return;
    }
    ApplyFirst(m2, e[2..]);
    assert e[1..][1..] == e[2..] && e[2..][1..] == [];
  }

  /** The tray menu `gui_runner` builds, before the Quit option is added. */
  const HeartbrokenMenu := [
    MenuOption("Pause auto-skip", Callable("toggle_auto_skip"), true),
    MenuOption("Dislike current track", Callable("handle_heartbreak(track)"), true),
    MenuOption("Dislike current artist", Callable("handle_heartbreak(artist)"), true),
    MenuOption("Dislike current album", Callable("handle_heartbreak(album)"), true),
    MenuOption("Un-dislike current track", Callable("handle_clear_heartbreak(track)"), false),
    MenuOption("Un-dislike current artist", Callable("handle_clear_heartbreak(artist)"), false),
    MenuOption("Un-dislike current album", Callable("handle_clear_heartbreak(album)"), false),
    MenuOption("Hide/show console", Callable("toggle_console_visibility"), true)
  ]

  /** Pausing and then resuming returns a menu in the running state to where
      it was, and neither step touches the menu's action table. */
  lemma ToggleRoundTrip(m: seq<Entry>)
    requires |m| >= 7 && m[0].text == PauseText
    requires forall k :: 4 <= k < 7 ==> m[k].second.Act? && m[k].third == Flag(false)
    ensures var paused := ApplyEdits(m, ToggleEdits(true));
      && paused.0 == Ok(())
      && Leaves(paused.1) == Leaves(m)
      && ApplyEdits(paused.1, ToggleEdits(false)) == (Ok(()), m)
  {
    SwitchRoundTrip(m, ResumeText, PauseText);
  }

  lemma SwitchRoundTrip(m: seq<Entry>, title: string, original: string)
    requires |m| >= 7 && m[0].text == original
    requires forall k :: 4 <= k < 7 ==> m[k].second.Act? && m[k].third == Flag(false)
    ensures var paused := ApplyEdits(m, SwitchEdits(title, true));
      && paused.0 == Ok(())
      && Leaves(paused.1) == Leaves(m)
      && ApplyEdits(paused.1, SwitchEdits(original, false)) == (Ok(()), m)
  {
    SwitchApplies(m, title, true);
    SwitchKeepsLeaves(m, title, true);
    SwitchApplies(Switched(m, title, true), original, false);
    SwitchTwice(m, title, original);
  }

  lemma SwitchTwice(m: seq<Entry>, title: string, original: string)
    requires |m| >= 7 && m[0].text == original
    requires forall k :: 4 <= k < 7 ==> m[k].third == Flag(false)
    ensures Switched(Switched(m, title, true), original, false) == m
  {
    var t := Switched(Switched(m, title, true), original, false);
    forall k | 0 <= k < |m|
      ensures t[k] == m[k]
    {
      var e := m[k];
      if k == 0 {
        assert t[k] == Entry(original, e.second, e.third, e.id);
      } else if 4 <= k < 7 {
        assert t[k] == Entry(e.text, e.second, Flag(false), e.id);
      }
    }
  }

  /** The menu after the four edits: entry 0 retitled, entries 4 to 6
      switched. */
  function Switched(m: seq<Entry>, title: string, on: bool): (r: seq<Entry>)
    requires |m| >= 7
    ensures |r| == |m|
  {
    seq(|m|, k requires 0 <= k < |m| =>
      if k == 0 then m[0].(text := title)
      else if 4 <= k < 7 then m[k].(third := Flag(on))
      else m[k])
  }

  lemma SwitchApplies(m: seq<Entry>, title: string, on: bool)
    requires |m| >= 7
    ensures ApplyEdits(m, SwitchEdits(title, on)) == (Ok(()), Switched(m, title, on))
  {
    var e := SwitchEdits(title, on);
    var m1 := m[0 := m[0].(text := title)];
    var m2 := m1[4 := m1[4].(third := Flag(on))];
    var m3 := m2[5 := m2[5].(third := Flag(on))];
    var m4 := m3[6 := m3[6].(third := Flag(on))];
    ApplyFirst(m, e);
    ApplyFirst(m1, e[1..]);
    ApplyFirst(m2, e[2..]);
    ApplyFirst(m3, e[3..]);
    assert e[1..][1..] == e[2..] && e[2..][1..] == e[3..] && e[3..][1..] == e[4..] == [];
    UpdatesAreSwitched(m, title, on);
  }

  lemma UpdatesAreSwitched(m: seq<Entry>, title: string, on: bool)
    requires |m| >= 7
    ensures var m1 := m[0 := m[0].(text := title)];
      var m2 := m1[4 := m1[4].(third := Flag(on))];
      var m3 := m2[5 := m2[5].(third := Flag(on))];
      m3[6 := m3[6].(third := Flag(on))] == Switched(m, title, on)
  {
  }

  lemma SwitchKeepsLeaves(m: seq<Entry>, title: string, on: bool)
    requires |m| >= 7
    requires forall k :: 4 <= k < 7 ==> m[k].second.Act?
    ensures Leaves(Switched(m, title, on)) == Leaves(m)
  {
    var t := Switched(m, title, on);
    forall k | 0 <= k < |m|
      ensures EntryLeaves(t[k]) == EntryLeaves(m[k])
    {
      SameEntryLeaves(t[k], m[k]);
    }
    SameLeaves(t, m);
  }

  /** An entry's actions depend on its action slot, its id and, for a
      submenu, its children. */
  lemma SameEntryLeaves(e: Entry, f: Entry)
    requires e.second == f.second && e.id == f.id && (e.second.Act? || e.third == f.third)
    ensures EntryLeaves(e) == EntryLeaves(f)
  {
  }

  /** Menus whose entries pairwise carry the same actions have the same
      action table. */
  lemma {:induction false} SameLeaves(a: seq<Entry>, b: seq<Entry>)
    requires |a| == |b| && forall k :: 0 <= k < |a| ==> EntryLeaves(a[k]) == EntryLeaves(b[k])
    ensures Leaves(a) == Leaves(b)
    decreases |a|
  {
    if a != [] {
      SameLeaves(a[..|a| - 1], b[..|b| - 1]);
    }
  }

  /** The tray menu as built: nine entries numbered 1023 to 1031, Quit last
      with id 1031, and in the running state the toggle expects. */
  lemma HeartbrokenMenuNumbering()
    ensures var n := Number(HeartbrokenMenu + [QuitOption], FirstId);
      && |n.entries| == 9
      && (forall k :: 0 <= k < 9 ==> n.entries[k].id == FirstId + k && n.entries[k].second.Act?)
      && n.entries[8].second == Act(Str(QuitAction))
      && 1031 in ToMap(n.actions) && ToMap(n.actions)[1031] == Str(QuitAction)
      && n.entries[0].text == PauseText
      && (forall k :: 4 <= k < 7 ==> n.entries[k].third == Flag(false))
  {
    var all := HeartbrokenMenu + [QuitOption];
    forall j | 0 <= j <= 9
      ensures var n := Number(all[..j], FirstId);
        |n.entries| == j && n.next == FirstId + j
        && (forall k :: 0 <= k < j ==> n.entries[k] == Entry(all[k].text, Act(all[k].action), Flag(all[k].enabled), FirstId + k))
    {
      NumberPrefix(all, j);
    }
    assert all[..9] == all;
    QuitIsLast(HeartbrokenMenu);
    assert Size(HeartbrokenMenu) == 8 by {
      NumberCounts(HeartbrokenMenu, FirstId);
      assert HeartbrokenMenu == all[..8];
    }
  }

  /** Numbering a prefix of options that are all callables or QUIT gives one
      entry per option, numbered consecutively. */
  lemma {:induction false} NumberPrefix(all: seq<MenuOption>, j: nat)
    requires j <= |all| && forall k :: 0 <= k < |all| ==> Mapped(all[k].action)
    ensures var n := Number(all[..j], FirstId);
      |n.entries| == j && n.next == FirstId + j
      && (forall k :: 0 <= k < j ==> n.entries[k] == Entry(all[k].text, Act(all[k].action), Flag(all[k].enabled), FirstId + k))
  {
    if j > 0 {
      NumberPrefix(all, j - 1);
      assert all[..j][..j - 1] == all[..j - 1];
    }
  }

  // ---------------------------------------------------------------------------
  // main

  /** `main` up to the loop: a failed table creation returns 3; otherwise
      the flags are set to running and the loop's result is returned. */
  method RunMain(db: HeartbrokenDatabase, createFault: bool, spotify: SpotifyWrapper,
                 first: Tokens.Refreshed, oauthOk: bool, second: Tokens.Refreshed, its: seq<Iteration>)
    returns (ending: Ending, flags: RunFlags)
    requires db.Valid() && spotify.Valid()
    modifies db, spotify
    ensures fresh(flags) && flags.shouldRun && !flags.terminated
    ensures db.Valid() && db.rows == old(db.rows)
    ensures !createFault ==> db.tableExists
    ensures createFault ==>
      && ending == Exit(3) && db.tableExists == old(db.tableExists)
      && spotify.backoffIndex == old(spotify.backoffIndex) && spotify.backingOff == old(spotify.backingOff)
    ensures !createFault && Startup(first, oauthOk, second).Some? ==> ending == Startup(first, oauthOk, second).value
    ensures !createFault && Startup(first, oauthOk, second).None? ==>
      ending == Run(View(None, old(spotify.backoffIndex), old(spotify.backingOff)), its).ending
  {
    flags := new RunFlags();
    var created := db.MaybeCreateTable(createFault);
    if !created {
      return Exit(3), flags;
    }
    ghost var messages, sleepsS;
    ending, messages, sleepsS := AppLoop(spotify, first, oauthOk, second, its);
  }
}
