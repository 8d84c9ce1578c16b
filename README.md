# Heartbroken, modelled in Dafny

Heartbroken adds a "dislike" button to Spotify. It sits in the Windows system tray. Every second it asks the
Spotify Web API what is playing. If the track, its album or one of its artists is in a local SQLite table of
dislikes, it skips the track, and keeps skipping while the next track is disliked too. The tray menu adds and
removes dislikes for the current track and pauses or resumes the automatic skipping. Spotify access runs
through an OAuth authorization-code flow, and the tokens are kept in a credentials file.

This project models the core of that program and proves properties of the model:

- `py.dfy` (`Py`): the Python values the code relies on: decoded JSON, exceptions as a `Result`,
  truthiness, loose equality with `True`/`False`.
- `utils.dfy` (`Utils`): the nested-dictionary lookup `_deep_get`.
- `tracks.dfy` (`Tracks`): the `Track` value built from a "currently playing" reply, and
  `format_artist_list`.
- `spotify.dfy` (`Spotify`): `SpotifyWrapper` as a class. Its fields are the client, the current and
  previous track, and the back-off position. The HTTP replies are inputs.
- `database.dfy` (`Database`): `HeartbrokenDatabase` as a class over the rows of the `heartbroken` table.
  The SQL statements are given meaning directly, with the table's three UNIQUE columns as an invariant.
- `tokens.dfy` (`Tokens`): the token expiry test, the refresh retry loop, the credentials file, the
  authorization wait, and the extraction of the code from the callback path.
- `hbcontrol.dfy` (`HbControl`): `skip_if_heartbroken` and the two tray handlers.
- `tray.dfy` (`Tray`): the menu bookkeeping of `SysTrayIcon`: numbering options with ids, the action
  table, and editing entries by index.
- `app.dfy` (`App`): `app_loop`, `toggle_auto_skip`, `on_quit_cleanup` and `main` up to the loop.

Loops in the source are `while` loops in the model. Each one is proved against a function that states its
result, and the lemmas about that function carry the properties. Calls the model cannot make (HTTP, SQLite,
the clock, the OAuth callback queue) become parameters: the replies, a `fault` flag for
`sqlite3.IntegrityError`, clock readings in integer milliseconds, and the queue's successive reads.

## Model

| member | source | states |
|---|---|---|
| Utils.DeepGetLoop | libs/utils.py:23-41 | The loop returns the default for a non-dictionary input or a missing key, raises AttributeError on a level that is not a dictionary, and otherwise returns the value at the end of the path. |
| Utils.DeepGetFollowsPath | libs/utils.py:34-41 | When every key is present along the path, the result is the value reached by following the keys in order. |
| Utils.DeepGetMissingKey | libs/utils.py:35-39 | The first key missing along the path yields the default. |
| Utils.DeepGetNonDictLevel | libs/utils.py:35-39 | A level that is reached but is not a dictionary makes `.get` raise AttributeError. |
| Tracks.ValidNamesKeeps | libs/spotifywrapper.py:69 | The filter keeps exactly the non-empty strings and never lengthens the list. |
| Tracks.FormatArtistList | libs/spotifywrapper.py:63-76 | It raises exactly when no valid name remains, and then with IndexError. Otherwise the text starts with the first valid name and ends with the last. |
| Tracks.FormatArtistListShape | libs/spotifywrapper.py:63-76 | An error happens exactly when no valid name remains, and it is IndexError. One name is returned alone, two are joined by " and ", and three or more are comma-separated with "and " before the last. |
| Tracks.FormatArtistListExamples | libs/spotifywrapper.py:63-76 | Concrete lists: "A", "A and B", "A, B, and C"; null, empty and non-string names are dropped; no valid name raises. |
| Tracks.ArtistField | libs/spotifywrapper.py:41-43 | Reading one key from every artist succeeds exactly when every artist is a dictionary, and then gives one value per artist. |
| Tracks.TrackFromJson | libs/spotifywrapper.py:16-48 | A falsy reply reads as `{}`, giving an idle track whose `playing` is False. A truthy non-dictionary raises AttributeError. Every built track is unmarked. Its remaining time is -1 unless `is_playing` equals True. A track without an artist text is the idle track, and one with it has at least one artist id. |
| Tracks.DecodePlayback | libs/spotifywrapper.py:16-48 | A well-formed playing reply decodes to its name, id, album, album id, artist list, artist ids and duration minus progress. The type is None because it is read from the item. |
| Tracks.ItemWithoutArtistsRaises | libs/spotifywrapper.py:41-43 | A playing item without artists makes the constructor raise IndexError. |
| Tracks.NotPlayingDecodes | libs/spotifywrapper.py:21-29 | A reply without `is_playing` decodes to an idle snapshot with no id and a falsy `playing`. |
| Spotify.ReadPoll | libs/spotifywrapper.py:128-168 | A non-2xx reply is a failure. A 204 without a body (and only that) is "no content", and any other 2xx reply without a body is a failure. For a 2xx reply with a body, a decoding error always propagates. Otherwise the track is "playing" exactly when it is playing and not a show, and "nothing playing" otherwise. |
| Spotify.AfterPoll | libs/spotifywrapper.py:158-168 | The previous track only ever takes the old current one, and only when a track with another id starts. Nothing playing clears the current track, failures leave both alone, and both stay playing non-show tracks. |
| Spotify.ReadPlayback | libs/spotifywrapper.py:128-168 | A 200 reply carrying a playback object is read as that playing track, with its id and artist ids. |
| Spotify.StopThenSameTrack | libs/spotifywrapper.py:163-164 | After a pause, reading the same track again leaves current and previous with the same id. |
| Spotify.ErrorMessage | libs/spotifywrapper.py:183-184 | A body that is not JSON raises JSONDecodeError. A dictionary whose `error` is an object carrying a string message gives that message, and one without `error` gives None. It succeeds exactly on a dictionary whose `error` (default `{}`) is a dictionary, and every other body raises AttributeError. |
| Spotify.RouteSkip | libs/spotifywrapper.py:171-198 | The player is re-read exactly when the POST succeeded, or failed with 403 "Restriction violated". Any other failure is -1. Only a 403 can raise. |
| Spotify.Delay | libs/spotifywrapper.py:299-316 | Every delay is between 1 and 60 seconds, and it is 60 from the fifteenth on. |
| Spotify.DelayMonotone | libs/spotifywrapper.py:299-316 | The back-off schedule never decreases. |
| Spotify.BackoffPrefix | libs/spotifywrapper.py:299-316 | The generator's loops yield exactly the schedule `Delay(0), Delay(1), ...` for as many values as are taken. |
| Spotify.SpotifyWrapper.constructor | libs/spotifywrapper.py:86-94 | No client, no tracks, back-off at its start and not backing off. |
| Spotify.SpotifyWrapper.InitializeClient | libs/spotifywrapper.py:97-111 | A refreshed token becomes the client; otherwise the old client stays. The refresh acts on the credentials file exactly as `RefreshSpec` says: the result, the file afterwards, the posts and the sleeps. The tracks and back-off are untouched. |
| Spotify.SpotifyWrapper.UpdateCurrentTrack | libs/spotifywrapper.py:114-168 | Without a client it returns None and sends nothing. Otherwise it sends one GET, and the result and tracks are `ReadPoll` followed by `AfterPoll`; an exception leaves the tracks alone. |
| Spotify.SpotifyWrapper.SkipCurrentTrack | libs/spotifywrapper.py:171-198 | It sends POST next. On the re-read route it waits 500 ms and updates as `UpdateCurrentTrack` does; otherwise it returns -1 or raises, with the tracks unchanged. |
| Spotify.SpotifyWrapper.StopPlayback | libs/spotifywrapper.py:201-220 | A successful pause returns True and moves the current track to previous. A failure returns -1 and changes nothing. |
| Spotify.SpotifyWrapper.GetBackoff | libs/spotifywrapper.py:283-288 | It returns the next delay of the schedule, advances the position by one, and sets `backing_off`. |
| Spotify.SpotifyWrapper.ResetBackoff | libs/spotifywrapper.py:291-296 | It clears `backing_off` and restarts the schedule, so the next delay is 1 s. |
| Database.InsertOrIgnore | libs/database.py:117 | A row that would break a UNIQUE column is dropped, and is dropped exactly then; otherwise it is appended. Uniqueness is preserved. |
| Database.RemoveMatching | libs/database.py:147 | It keeps exactly the rows the WHERE clause does not match, never lengthens the table, and preserves uniqueness. |
| Database.RemoveMatchingSplits | libs/database.py:147 | The deletion goes row by row and keeps the order: on a concatenation it is the concatenation of the two results. |
| Database.RemoveMatchingCons | libs/database.py:147 | A row in front is kept, in front, exactly when the WHERE clause does not match it. |
| Database.SaveOne | libs/database.py:102-125 | No id raises, a missing table raises OperationalError, and IntegrityError gives False. Otherwise it returns True whether the row was inserted or ignored. The rows change only on True. |
| Database.RemoveOne | libs/database.py:128-155 | The same outcomes as `SaveOne`. On True, exactly the rows matching any column (with '_' for a missing id) are gone. |
| Database.RowKind | libs/database.py:47-67 | A matching row reads as 'artist' exactly when its artist id is one of the track's; else as 'album' exactly when its album matches; else as 'track'. |
| Database.PrecedenceIsPerRow | libs/database.py:47-57 | With an album row and an artist row both matching one track, either kind can be reported. |
| Database.DropCommaParen | libs/database.py:41 | The replacement never lengthens the text, and text without a comma comes back unchanged. |
| Database.DropCommaParenSteps | libs/database.py:41 | It works left to right: a comma-free prefix is copied, each `,)` becomes `)`, and a comma not followed by `)` is copied. |
| Database.GuardNeverRejects | libs/database.py:41-45 | The rendered ids always start with `(`, so the character-class guard never rejects them. |
| Database.SingleIdRendering | libs/database.py:41 | A single id renders as `('x')`, without the tuple's trailing comma. |
| Database.HeartbrokenDatabase.constructor | libs/database.py:75-99 | A table over the given rows, with the UNIQUE invariant. |
| Database.HeartbrokenDatabase.MaybeCreateTable | libs/database.py:75-99 | It returns False exactly on IntegrityError; otherwise the table exists afterwards. The rows are kept either way. |
| Database.HeartbrokenDatabase.IsHeartbroken | libs/database.py:19-72 | A missing table or a None artist id raises OperationalError, and IntegrityError gives (None, None). Otherwise the answer is the kind of some matching row, or "not disliked" exactly when no row matches. Up to the kind, the answer is `Lookup` of the rows, the table flag and the fault. |
| Database.HeartbrokenDatabase.SaveHeartbreak | libs/database.py:102-125 | The result and the new rows are those of `SaveOne`, and the UNIQUE invariant is kept. |
| Database.HeartbrokenDatabase.RemoveHeartbreak | libs/database.py:128-155 | The result and the new rows are those of `RemoveOne`, and the UNIQUE invariant is kept. |
| Database.SavedArtistMatches | libs/database.py:102-125 | After an artist is saved, every track by that artist matches some row. |
| Database.RemovedArtistGone | libs/database.py:128-155 | After an artist is removed, no row holds that artist id. |
| Database.PlaceholderDeletes | libs/database.py:140-147 | The '_' placeholder also deletes a row whose value is literally '_'. |
| Tokens.IsTokenExpired | libs/tokenhandler.py:31-38 | No file raises FileNotFoundError. Otherwise the token counts as expired exactly from one second before `expires_at`. |
| Tokens.ExpiredStaysExpired | libs/tokenhandler.py:31-38 | Once expired, a token stays expired as time goes on. |
| Tokens.StampedExpiry | libs/tokenhandler.py:98-110 | A freshly saved token counts as expired exactly from `expires_in - 1` seconds after saving. |
| Tokens.FirstSuccess | libs/tokenhandler.py:76-89 | It finds the first of the 21 attempts that gets status 200, and every earlier attempt failed; when there is none, all of them failed. |
| Tokens.Repeat | libs/tokenhandler.py:84 | `n` sleeps of the given length. |
| Tokens.CredentialsFile.constructor | libs/tokenhandler.py:98-110 | The file holds the given credentials, with nothing posted or slept yet. |
| Tokens.CredentialsFile.SaveCredentials | libs/tokenhandler.py:98-110 | It writes the reply stamped with `expires_at = now + expires_in`. |
| Tokens.CredentialsFile.RefreshAccessToken | libs/tokenhandler.py:41-95 | No file or no refresh token gives None, with nothing posted. A still-valid token is returned as stored. An expired token posts until the first 200, sleeping 3 s after each failure, and saves the reply with the old refresh token; 21 failures exit with code 3. The result, the file and the logs are exactly `RefreshSpec` of the file before the call. |
| Tokens.RefreshSpec | libs/tokenhandler.py:41-95 | None exactly when there is no file or no refresh token. The only exit is code 3, after 21 refused posts, with the file unchanged. Only an expired token is posted, at most 21 times, with a 3 s sleep between posts. A returned token is the one the file then holds. A newly saved token keeps the old refresh token and is stamped at the save time. |
| Tokens.CredentialsFile.PostUntilAccepted | libs/tokenhandler.py:76-89 | Posts until the first 200, as `FirstSuccess` of the server replies says, and at most 21 times. Each refused post but the last is followed by a 3 s sleep. The stored credentials are not changed. |
| Tokens.FirstCode | libs/tokenhandler.py:150-156 | A code is found exactly when some read of the queue delivers one, and it is one of the delivered values. |
| Tokens.DoSpotifyOAuth | libs/tokenhandler.py:131-188 | With no code the wait continues. A failed exchange gives None, without cleanup. A successful one saves the stamped reply, shuts the server down and returns the credentials. |
| Tokens.LStrip | libs/tokenhandler.py:235 | It drops the longest leading run of set characters and nothing else. |
| Tokens.RStrip | libs/tokenhandler.py:235 | It drops the longest trailing run of set characters and nothing else. |
| Tokens.Strip | libs/tokenhandler.py:235 | The result is no longer than the input, and unless empty it neither starts nor ends with a set character. |
| Tokens.CallbackChars | libs/tokenhandler.py:235 | The stripped set is exactly the set of characters of `/callback?code=`. |
| Tokens.CallbackCode | libs/tokenhandler.py:227-235 | The queued value is no longer than the path. Unless empty, it neither starts nor ends with a character of `/callback?code=`, so it never starts with `/`. |
| Tokens.StripIsMiddle | libs/tokenhandler.py:235 | `strip` returns a middle slice, with only set characters removed on either side. |
| Tokens.CallbackCodeExact | libs/tokenhandler.py:227-235 | A code comes through unchanged exactly when it is empty, or neither its first nor its last character is in `/callback?code=`. |
| Tokens.CallbackCodeDropsTail | libs/tokenhandler.py:227-235 | A trailing run of those characters is lost from the code. |
| Tokens.CallbackCodeTruncates | libs/tokenhandler.py:227-235 | A code ending in "code" loses that tail. |
| Tokens.CallbackCodeKeeps | libs/tokenhandler.py:227-235 | A code with no such characters at its ends is kept whole. |
| HbControl.MarksFor | libs/hbcontrol.py:34-36 | All three flags are set, at most one is true, and each is true exactly for its kind of dislike. |
| HbControl.SkipLanding | libs/hbcontrol.py:51-57 | No client, a failed POST (-1) or a failed re-read ends the loop with None. Only a 403 body or the re-read can raise. A landed track comes from a successful re-read, and is playing and not a show. |
| HbControl.TurnSpec | libs/hbcontrol.py:32-63 | A turn goes on exactly when the track is disliked and the skip lands on a track whose id is not the first one. It then moves to that track, and the old current track becomes the previous one when the id changed. A stopping turn has landed on the first id and returns None. A successful pause then leaves nothing current and the first track previous; a failed one leaves the first id current. A turn that ends without stopping lands nowhere and never returns True. A turn ending in anything but None leaves the tracks as they were. |
| HbControl.SkipSpec | libs/hbcontrol.py:30-65 | An unusable query raises, and IntegrityError returns None, both before any skip. A track no row matches returns False without a skip. A disliked track whose skip fails returns None. Each of these leaves the (current, previous) pair as it was. A skip that finds nothing playing returns None with no current track. |
| HbControl.SkipIfSpec | libs/hbcontrol.py:10-65 | Nothing playing returns None and clears the current track. A failed read raises and leaves both tracks. The previous id playing again returns False with the read track current. None of these makes a lookup. A newly started track is always looked up, with its own id remembered and the replaced track as the previous one. Nothing is skipped without a lookup. |
| HbControl.FirstRead | libs/hbcontrol.py:19-22 | Without a client the tracks stay. A raised read escapes; otherwise the pair is `AfterPoll` of the read. |
| HbControl.SkipSpecCounts | libs/hbcontrol.py:30-63 | One lookup per turn and one skip per dislike: at most one skip per reply and one more lookup than skips. True is never returned, and running out of replies means every reply was used. |
| HbControl.SkipSpecStops | libs/hbcontrol.py:49-63 | Only the first id is remembered. No skip before the last lands on it, playback is stopped exactly when the last skip lands on it, and then None is returned. |
| HbControl.SkipSpecEndless | libs/hbcontrol.py:30-63 | A cycle of disliked tracks avoiding the first one is skipped through until the replies run out: the loop never ends on its own. |
| HbControl.SkipSpecLeaves | libs/hbcontrol.py:30-63 | A False, or running out of replies, leaves the last track a skip landed on current, or the first track if there was no skip. A stop with a successful pause leaves nothing current and the first track previous; a failed pause leaves the first track current. |
| HbControl.SkipIfSpecLeaves | libs/hbcontrol.py:10-65 | A False always comes with a current track, the last one landed on when there was a skip. A stop with a successful pause leaves no current track. |
| HbControl.SkipTurn | libs/hbcontrol.py:49-63 | The skip ends as `SkipStep` of `SkipLanding` of the reply says, and leaves exactly the tracks that step names. An exception escapes, and a failed skip (-1) or nothing playing ends the loop with None. Landing on an id already in the set stops playback and ends with None. Otherwise the loop goes on with the landed track as the current one. The client and back-off are untouched. |
| HbControl.SkipRound | libs/hbcontrol.py:32-63 | One turn of the loop ends, or goes on with a new current track, exactly as `TurnSpec` of the rows, table flag, fault, tracks, client and replies says. That includes the outcome, the ids landed on and the (current, previous) pair it leaves. A falsy classification sets its flags on the current track. The client and back-off are untouched. |
| HbControl.SkipLoop | libs/hbcontrol.py:30-65 | Its outcome, the ids it landed on, its number of lookups, whether it stopped playback and the (current, previous) pair it leaves are exactly `SkipSpec` of the rows, table flag, fault, client and replies, starting from the first track. False comes with the current track's flags set. The client and back-off are untouched. |
| HbControl.SkipIfHeartbroken | libs/hbcontrol.py:10-65 | Its outcome, landed ids, lookups, stop and the (current, previous) pair it leaves are exactly `SkipIfSpec` of the player's state before the call, the first reply, the skip replies and the store. Returning before the loop leaves the tracks as the first read set them. The client and back-off are untouched. |
| HbControl.SaveArtists | libs/hbcontrol.py:89-92 | The rows only grow and stay unique. On True every artist id is present and held by some row. |
| HbControl.RemoveArtists | libs/hbcontrol.py:132-135 | The rows only shrink and stay unique. On True no row holds any of the artist ids. |
| HbControl.SaveEachArtist | libs/hbcontrol.py:89-92 | One save per artist id, with no save once one has returned False. The value or exception and the rows after are exactly `SaveArtists` of the rows before. |
| HbControl.HandleHeartbreak | libs/hbcontrol.py:68-107 | Not exactly one flag raises TypeError and changes nothing. None playing returns, and False raises AttributeError. Otherwise it saves the artists (stopping at the first False), the album or the track, and asks for a skip exactly when that succeeded. |
| HbControl.HandleClearHeartbreak | libs/hbcontrol.py:110-144 | Not exactly one flag raises TypeError and changes nothing, and None and False both raise AttributeError. Otherwise it removes the artists or the track/album row and returns the removal's result. |
| HbControl.DislikedArtistsAreFound | libs/hbcontrol.py:89-92 | Once every artist of a track is saved, any lookup of that track reports a dislike, and `Lookup` gives Dislike. |
| HbControl.ClearedArtistsAreNotHit | libs/hbcontrol.py:132-135 | Once every artist of a track is removed, no row matches the track through an artist. |
| Tray.NonStringIterable | libs/pytotray.py:251-257 | True exactly for a tuple of options, and never for a string. |
| Tray.Mapped | libs/pytotray.py:99 | A callable is mapped, a string exactly when it is QUIT, and a mapped value is never a submenu or another value. |
| Tray.NumberCounts | libs/pytotray.py:93-120 | The counter advances by one per option visited, submenus included. The action table is exactly the menu's leaves, each callable or QUIT. |
| Tray.NumberRanges | libs/pytotray.py:93-120 | Every id lies between the counter before and after, and action ids strictly increase, so no two are equal. |
| Tray.NumberNests | libs/pytotray.py:104-113 | A submenu's id exceeds every id below it. |
| Tray.ToMapHolds | libs/pytotray.py:46 | With distinct ids the dictionary holds exactly the numbered pairs. |
| Tray.QuitIsLast | libs/pytotray.py:40-46 | The Quit option is the last entry, numbered after everything given, and maps to QUIT. Every id maps to a callable or QUIT. |
| Tray.PyIndex | libs/pytotray.py:215-228 | An index is valid exactly in `[-n, n)`, and negative indices count from the end. |
| Tray.RetitleKeeps | libs/pytotray.py:215-220 | Retitling keeps the menu's actions and ids. |
| Tray.SetStateKeeps | libs/pytotray.py:223-228 | A state edit keeps an action entry's actions and ids, but on a submenu it replaces the children. |
| Tray.SysTrayIcon.constructor | libs/pytotray.py:28-51 | The menu is the given options plus Quit, numbered from 1023, with the action table built from them. The default index is 0 when none is given, and there is a default window class. |
| Tray.SysTrayIcon.AddIds | libs/pytotray.py:93-120 | The loop produces exactly `Number`'s entries and pairs and advances the counter to match. Nothing else changes. |
| Tray.SysTrayIcon.ChangeMenuItemText | libs/pytotray.py:215-220 | An out-of-range index raises IndexError and changes nothing; otherwise only that entry's text changes. Every other field of the icon is unchanged. |
| Tray.SysTrayIcon.SetMenuItemState | libs/pytotray.py:223-228 | An out-of-range index raises IndexError; otherwise only that entry's third slot becomes the flag. Every other field of the icon is unchanged. |
| Tray.SysTrayIcon.EnableMenuItem | libs/pytotray.py:233-234 | `SetMenuItemState` with True. Every other field of the icon is unchanged. |
| Tray.SysTrayIcon.DisableMenuItem | libs/pytotray.py:230-231 | `SetMenuItemState` with False. Every other field of the icon is unchanged. |
| Tray.SysTrayIcon.ExecuteMenuOption | libs/pytotray.py:242-248 | An unknown id raises KeyError, QUIT destroys the window, and a callable is called. The menu and every other field but `destroyed` are unchanged. |
| App.TerminatedEndsLoop | heartbroken.py:46-48 | The loop returns 0 at the first iteration that finds the terminated flag set. |
| App.Halt | heartbroken.py:46-58 | A set terminated flag ends with 0. Otherwise an expiry check that raises (no credentials file) escapes. An expired token whose refresh exits ends with that code, and one whose refresh needs authorisation ends with 2. The remaining case is a skip that raised, and it escapes. |
| App.HaltEndsLoop | heartbroken.py:46-71 | The loop ends at the first iteration that does not go on, with that iteration's `Halt`, and with the back-off left by the iterations before it. |
| App.IdleStreak | heartbroken.py:58-71 | A run of empty polls prints "nothing playing" once, only if not already backing off. It sleeps through the back-off schedule with the interval after each delay, and advances the schedule by the run's length. |
| App.TenIdlePolls | heartbroken.py:58-71 | From a reset, ten empty polls sleep 1,1,1,1,2,2,2,2,5,5 seconds, each followed by the 1 s interval. |
| App.PlayingStreak | heartbroken.py:64-71 | Polls finding the same track print it at most once, sleep only the interval, and reset the back-off only for a new track. |
| App.PollOnce | heartbroken.py:58-67 | One poll's state, messages and back-off sleep are those of the loop specification `Poll`. The client, the tracks and the logs of calls and sleeps are untouched. |
| App.AppLoop | heartbroken.py:18-71 | When `Startup` ends the run, it returns that ending with no message, no sleep and the back-off untouched. Otherwise its ending, messages, sleeps and final back-off are those of the loop specification `Run`: exit 0, the refresh's exit code, exit 2, an escaping exception, or input exhausted. |
| App.Startup | heartbroken.py:28-40 | A token from the first refresh enters the loop. A failed OAuth flow returns 1. After OAuth only the second refresh's process exit stops the start. An exit of the first refresh ends the run with its code. |
| App.RunFlags.constructor | heartbroken.py:174-177 | Running, and not terminated. |
| App.OnQuitCleanup | heartbroken.py:109-115 | Both events are set, so a paused loop wakes and then returns 0. |
| App.ApplyEdits | libs/pytotray.py:215-228 | The menu keeps its length, and the only error is IndexError. |
| App.ToggleAutoSkip | heartbroken.py:74-106 | It flips "should run", sets the icon, and makes the four menu edits of the toggle, stopping at the first IndexError. The action table and every other field of the icon are untouched. |
| App.SetStates | heartbroken.py:84-86 | It makes the three state edits in order, stopping at the first IndexError. Every other field of the icon is untouched. |
| App.ToggleRoundTrip | heartbroken.py:74-106 | On a menu in the running state, pausing succeeds without changing the actions, and resuming restores the menu exactly. |
| App.HeartbrokenMenuNumbering | heartbroken.py:147-156 | The tray menu numbers nine entries from 1023, with Quit at 1031. It starts in the running state the toggle expects. |
| App.RunMain | heartbroken.py:165-184 | A failed table creation returns 3, leaving the table flag and the back-off. The rows are never changed, and otherwise the table exists. The flags are running, and the result is the ending of `Startup` or of the loop. |

## Left out

- HTTP transport, SQLite and the token server are not modelled. Their replies, the `IntegrityError` fault and
  the token responses are inputs; `OperationalError` for a missing table is modelled.
- The `app_loop_should_run.wait()` pause, the two processes and their shared events are not modelled.
  `RunFlags` holds the events as two booleans.
- The Win32 side of the tray is not modelled: window creation, `refresh_icon`, `create_menu`, `show_menu`,
  `notify`, `command`, `destroy`/`on_quit`, `restart` and the message loop. `toggle_console_visibility`
  and `gui_runner`'s process are not modelled either.
- Printing is reduced to the two loop messages. Exact texts, including `attempt {attempt}/10` in the
  refresh loop, are not modelled.
- Floating-point time is modelled as integer milliseconds read from parameters, and sleeps are logged,
  not taken.
- The JSON credentials file is a field of `CredentialsFile`, and `build_oauth_session` is reduced to its
  access token. `load_credentials_from_file` is the field read. Malformed token replies are not modelled.
- `get_current_track_static` and `skip_current_track_static` are not modelled as calls. The handlers take
  the static read's result as input, and `HandleHeartbreak` returns `SkipRequested` where the source
  calls the static skip.
- App.AppLoop: the results of the refreshes behind the two `initialize_spotify_client` calls before the
  loop, the OAuth flow's result, and per iteration the expiry check (a value or its FileNotFoundError),
  the re-initialisation's refresh and `skip_if_heartbroken` enter as inputs rather than calls. The
  `update_current_track` before the loop is not repeated there.
- App.AppLoop: the source calls `next()` on the result of `do_spotify_oauth`, which returns a
  dictionary or None rather than a generator. Only the intended outcome (None ends with 1) is modelled.
- App.AppLoop: the local `backing_off` flag is never set in the source, so the 1 s interval always
  follows the back-off delay. The model keeps that behaviour.
- Tokens.DoSpotifyOAuth: `attempt_count` is never incremented in the source, so the timeout branch is
  unreachable. The wait is bounded by the supplied queue reads (StillWaiting when they run out), and the
  half-second sleeps are not logged.
- Tokens.DoSpotifyOAuth: the generator protocol and the callback server process are reduced to a
  `cleanedUp` flag.
- HbControl.SkipIfHeartbroken: the "Skipping disliked ..." message and the per-kind text are not modelled.
  The skip replies run out as `Unfinished` instead of looping forever.
- HbControl.SkipIfHeartbroken and HbControl.SkipLoop: the (current, previous) pair is stated up to the
  three dislike flags (`Plain` clears them). With several matching rows the store may report any of
  them, so the flags of a disliked track are not determined; a False still comes with its flags set.
- HbControl.HandleHeartbreak and HbControl.HandleClearHeartbreak: the source means to raise
  `argparse.ArgumentError` when not exactly one flag is set. It calls that constructor with one argument
  where two are required, so the call raises TypeError first. The model follows the code and raises
  TypeError.
- Tracks.TrackFromJson: ids are read as text, so an id that is not a string (a number, say) becomes None.
  Two tracks with different numeric ids then compare equal in the `current_track.id == previous_track.id`
  test, where Python would compare the numbers.
- Database.HeartbrokenDatabase.IsHeartbroken: `LIMIT 1` without ORDER BY is modelled as "some matching
  row", not as SQLite's actual row order.
- The `str(...).replace("'", '"')` JSON writing and `__str__`/`__repr__` of `Track` are not modelled.
- `StaticClass` and `_NoWrite` only forbid instantiation and assignment, and are not modelled.
- Tracks: `_time_remaining_ms` on the idle path, and any other attribute assigned only for display, are
  reduced to the fields the core reads.
