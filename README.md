# Track recording in maplibui, modelled in Dafny

This project models the GPS track recorder of the maplibui Android library and proves
properties about it. There are two parts.

- **`TrackerService`**, the background service that records tracks:
  - it starts a track, or resumes a track left open when its process was killed;
  - it splits the track when its daily alarm fires (meant for local midnight; see Findings);
  - it closes the track when stopped;
  - it turns every location fix into a trackpoint;
  - it counts the satellites used in the fix.
- **`TracksActivity`**, the track list:
  - its selection list;
  - the `?,?,…` placeholders of the delete statement;
  - the delete, select-all and show/hide actions;
  - the map from item id to list position.

Files:

- `java_text.dfy`, modules `Wrappers` and `JavaText`. The Java and Android library behaviour
  the core relies on:
  - `String.split("-")` and its dropped trailing empty strings;
  - `Integer.parseInt` with its 32-bit range, and `Integer.toString`;
  - 32-bit `int` overflow;
  - `Uri.getLastPathSegment`.
- `day_clock.dfy`, module `DayClock`. The day boundary:
  - the local midnight the code intends;
  - what its `Calendar` code computes as written (see Findings).
- `track_store.dfy`, module `TrackStore`. The state that outlives a service instance, held in the
  class `Platform`:
  - the tracks and trackpoints tables;
  - the `tracks_temp` scratch preferences;
  - the pending split alarm;
  - the posted notifications.

  It also holds the queries and updates the service issues.
- `tracker_service.dfy`, module `Tracker`. The service as the class `TrackerService`:
  - the constructor is `onCreate`;
  - `OnStartCommand`, `OnDestroy`, `OnLocationChanged` and `OnGpsStatusChanged` are its callbacks;
  - its fields are the service's own fields;
  - it holds the suffix rule of track names, and the invariant `Coherent`.
- `tracks_activity.dfy`, module `Tracks`. The activity as the class `TracksActivity`, whose
  fields are:
  - `mIds`;
  - `mSelectState`;
  - the list's checked positions;
  - `mTracksPositionsIds`.

  Requests to the content provider are returned as values.

`Tracker.TrackerService.Coherent` is the invariant the service keeps between commands:

- only the last track (largest id) may be open;
- the scratch `track_uri` names that open track;
- a running service holds that track's URI in `newTrack` and its id text in `trackId`;
- an idle service's `lastTrack` snapshot matches the table.

`OnStartCommand` preserves `Coherent` for every command except one: a split that reaches an
instance which is not running while a track is open. `OnDestroy` likewise closes the only open
track when the service was running. A lemma shows what happens in the excluded case, and the
section below describes it.

## Model

| member | source | states |
|---|---|---|
| JavaText.AfterLast | src/main/java/com/nextgis/maplibui/service/TrackerService.java:238-240 | the text after the last separator contains no separator and is preceded by one when shorter than the input |
| JavaText.AfterLastIsSuffix | src/main/java/com/nextgis/maplibui/service/TrackerService.java:238-240 | that text is a suffix of the input |
| JavaText.TrimTrailing | src/main/java/com/nextgis/maplibui/service/TrackerService.java:238-240 | split drops trailing empty strings: the result is a prefix, not ending in the separator, and only separators were removed |
| JavaText.LastSplitSegment | src/main/java/com/nextgis/maplibui/service/TrackerService.java:238-241 | `segments[segments.length - 1]` throws exactly when the name is non-empty and made only of '-'; otherwise the segment has no '-' |
| JavaText.LastSplitSegmentOfAppended | src/main/java/com/nextgis/maplibui/service/TrackerService.java:238-241 | for a name `<prefix ending in '-'><text without '-'>` the last segment is that text |
| JavaText.ParseInteger | src/main/java/com/nextgis/maplibui/service/TrackerService.java:241 | a parse succeeds exactly on digits, or on '+' or '-' followed by digits; anything else is a NumberFormatException; digits parse to their decimal value, with the sign applied |
| JavaText.ParseInt | src/main/java/com/nextgis/maplibui/service/TrackerService.java:241 | Integer.parseInt succeeds exactly on sign-and-digits text whose value fits in 32 bits |
| JavaText.Wrap32 | src/main/java/com/nextgis/maplibui/service/TrackerService.java:241 | the `+ 1` on an int wraps: the result is in the int range, congruent modulo 2^32, and unchanged when already in range |
| JavaText.IntToString | src/main/java/com/nextgis/maplibui/service/TrackerService.java:242 | Integer.toString yields non-empty digits, with a leading '-' exactly for negative values, and no '/' |
| JavaText.NatToDecimal | src/main/java/com/nextgis/maplibui/service/TrackerService.java:242 | a non-negative value is written as digits without a leading zero |
| JavaText.DigitsValueOfNatToDecimal | src/main/java/com/nextgis/maplibui/service/TrackerService.java:242 | reading back the digits of n gives n |
| JavaText.ParseIntegerOfIntToString | src/main/java/com/nextgis/maplibui/service/TrackerService.java:256 | parsing the text of any id gives the id back |
| JavaText.ParseIntOfIntToString | src/main/java/com/nextgis/maplibui/service/TrackerService.java:241-242 | parseInt(toString(n)) == n for every 32-bit n |
| JavaText.LastPathSegment | src/main/java/com/nextgis/maplibui/service/TrackerService.java:215 | getLastPathSegment is null for the empty URI, and any segment it returns is a non-empty text without '/' |
| JavaText.LastPathSegmentNone | src/main/java/com/nextgis/maplibui/service/TrackerService.java:215 | getLastPathSegment is null exactly for a URI whose path has no segment: one made only of '/' characters (the empty URI included) |
| JavaText.LastPathSegmentOfAppended | src/main/java/com/nextgis/maplibui/service/TrackerService.java:256 | the last segment of `base/seg` is seg |
| JavaText.CountCharAppend | src/main/java/com/nextgis/maplibui/activity/TracksActivity.java:294-299 | occurrences of a character add up over concatenation |
| DayClock.Midnight | src/main/java/com/nextgis/maplibui/service/TrackerService.java:222-225 | the intended day start: the local midnight at or before now, less than a day before it |
| DayClock.SecondsIntoMinute | src/main/java/com/nextgis/maplibui/service/TrackerService.java:222-225 | the seconds of the current local minute, one of the things that survive clearing HOUR, MINUTE and MILLISECOND (AM_PM is the other): a whole number of seconds, below one minute |
| DayClock.CalendarDayStart | src/main/java/com/nextgis/maplibui/service/TrackerService.java:222-225 | the day start as written: the start of the current local half-day (noon in the afternoon) plus the current second of the minute, i.e. now with the 12-hour HOUR, MINUTE and MILLISECOND cleared and SECOND kept |
| DayClock.NextMidnightIsAfterNow | src/main/java/com/nextgis/maplibui/service/TrackerService.java:261-262 | the intended split alarm, one day after the midnight day start, is the first local midnight after now |
| DayClock.CalendarDayStartMissesMorning | src/main/java/com/nextgis/maplibui/service/TrackerService.java:223 | for any afternoon instant, the as-written day start is at least noon |
| DayClock.AfternoonBoundaryIsNoon | src/main/java/com/nextgis/maplibui/service/TrackerService.java:222-225 | at 15:30:42 UTC the as-written day start is 12:00:42, the midnight is 00:00:00 |
| TrackStore.MaxIdBelow | src/main/java/com/nextgis/maplibui/service/TrackerService.java:190-191 | `MAX(_id)` over ids below a bound: a present id that bounds every id below the bound, or none present |
| TrackStore.LastIdIn | src/main/java/com/nextgis/maplibui/service/TrackerService.java:187-195 | the largest id of the table, absent exactly when the table is empty |
| TrackStore.LastTrackIn | src/main/java/com/nextgis/maplibui/service/TrackerService.java:187-195 | getLastTrack returns a row exactly when the table is non-empty, with the name and end of the largest id |
| TrackStore.TrackUriRoundTrip | src/main/java/com/nextgis/maplibui/service/TrackerService.java:253-256 | the last path segment of an inserted track's URI is its id's text, and the provider reads the id back from it |
| TrackStore.EndOpenTrack | src/main/java/com/nextgis/maplibui/service/TrackerService.java:274-276 | the update sets end = now on the designated row only when its end is NULL or ''; every other row, and a closed one, is unchanged |
| TrackStore.GetString | src/main/java/com/nextgis/maplibui/service/TrackerService.java:214 | getString reads the stored value, or the default when the key is absent |
| TrackStore.PutString | src/main/java/com/nextgis/maplibui/service/TrackerService.java:172 | putString stores the value, and a null value removes the key |
| TrackStore.GetAfterPutString | src/main/java/com/nextgis/maplibui/service/TrackerService.java:172 | after putString the key reads as the value, or as the default after a null; other keys read as before |
| TrackStore.Platform.QueryLastTrack | src/main/java/com/nextgis/maplibui/service/TrackerService.java:129 | getLastTrack on the current table: a row exactly when the table is non-empty, with the name and end of the largest id |
| TrackStore.Platform.InsertTrack | src/main/java/com/nextgis/maplibui/service/TrackerService.java:253 | the insert adds exactly one row under a fresh id, which becomes the last track id |
| TrackStore.Platform.EndTrack | src/main/java/com/nextgis/maplibui/service/TrackerService.java:276 | the update of the track URI closes that row if open |
| TrackStore.Platform.InsertPoint | src/main/java/com/nextgis/maplibui/service/TrackerService.java:384 | a trackpoint insert appends exactly one point |
| Tracker.CommandOf | src/main/java/com/nextgis/maplibui/service/TrackerService.java:149-166 | TRACK_STOP and TRACK_SPLIT are recognised only on a non-null intent; a null intent, empty or other action is a start |
| Tracker.TargetExtra | src/main/java/com/nextgis/maplibui/service/TrackerService.java:147-150 | the target name is "" without an intent and the (possibly null) extra with one |
| Tracker.EndMillis | src/main/java/com/nextgis/maplibui/service/TrackerService.java:234 | `getLong` on the end column reads the stored time, and 0 for NULL or '' |
| Tracker.NameSuffix | src/main/java/com/nextgis/maplibui/service/TrackerService.java:230-243 | the suffix is "1" without a last track or when it ended at or before the day start; any suffix produced parses as an int |
| Tracker.NewTrackName | src/main/java/com/nextgis/maplibui/service/TrackerService.java:228-248 | the name is the date prefix followed by an int-parseable suffix, measured against the given day start; it is absent exactly when the suffix rule throws |
| Tracker.SameDayOrdinalIncrements | src/main/java/com/nextgis/maplibui/service/TrackerService.java:233-243 | after a track `<prefix>k` that ended after the day start, the suffix is k + 1 |
| Tracker.SplitContinuesOrdinal | src/main/java/com/nextgis/maplibui/service/TrackerService.java:158-161 | the split names the new track with the old ordinal plus one, unless it runs exactly at the day start; this holds with the as-written day start and with midnight |
| Tracker.FixType | src/main/java/com/nextgis/maplibui/service/TrackerService.java:374 | the fix is "3d" exactly when the location has an altitude, else "2d" |
| Tracker.CountUsed | src/main/java/com/nextgis/maplibui/service/TrackerService.java:416-423 | the count of used satellites is at most the number of satellites |
| Tracker.CountUsedIsUsedPositions | src/main/java/com/nextgis/maplibui/service/TrackerService.java:416-423 | the count equals the size of the set of satellites used in the fix |
| Tracker.ResolveTarget | src/main/java/com/nextgis/maplibui/service/TrackerService.java:329-345 | the open action targets the named activity exactly when the name is non-empty and resolves; otherwise the default intent |
| Tracker.AfterStop | src/main/java/com/nextgis/maplibui/service/TrackerService.java:266-277 | stopTrack keeps the set of rows, and a null or empty URI leaves the table untouched |
| Tracker.NoneOpenHasNoOpenLast | src/main/java/com/nextgis/maplibui/service/TrackerService.java:204-208 | a table without open rows has no open last track |
| Tracker.ClosedLastMeansNoneOpen | src/main/java/com/nextgis/maplibui/service/TrackerService.java:168-172 | under the invariant, a missing or closed last track means no track is open, so the fresh start opens the only one |
| Tracker.InsertAfterNoneOpen | src/main/java/com/nextgis/maplibui/service/TrackerService.java:246-258 | inserting at the counter over a table with no open row makes the new row the last and the only open one |
| Tracker.StartOpensOnlyTrack | src/main/java/com/nextgis/maplibui/service/TrackerService.java:246-258 | after the insert and the `track_uri` write, the stored state is coherent: the new track is the last one, the only open one, and the saved URI names it |
| Tracker.StopClosesOpenLast | src/main/java/com/nextgis/maplibui/service/TrackerService.java:266-277 | stopTrack on the open last track's URI leaves no open track |
| Tracker.StopKeepsNoneOpen | src/main/java/com/nextgis/maplibui/service/TrackerService.java:266-277 | stopTrack leaves no open track both when the service was recording the open last track and when nothing was open |
| Tracker.StopWithNoneOpen | src/main/java/com/nextgis/maplibui/service/TrackerService.java:274-276 | with no open track, stopTrack's update changes nothing |
| Tracker.StopOnFreshInstanceOrphansOpenTrack | src/main/java/com/nextgis/maplibui/service/TrackerService.java:266-286 | stopTrack with a null URI leaves the open track open but removes its scratch URI, which then reads as "" with no path segment |
| Tracker.SplitOnIdleServiceLeavesTwoOpen | src/main/java/com/nextgis/maplibui/service/TrackerService.java:158-163 | a split on an instance that never started, while a track is open, leaves two open tracks |
| Tracker.AfternoonStartRepeatsFirstName | src/main/java/com/nextgis/maplibui/service/TrackerService.java:222-243 | for every afternoon start after a track that ended that morning, the as-written name restarts at "1", while the midnight boundary gives k + 1 |
| Tracker.DuplicateNameExample | src/main/java/com/nextgis/maplibui/service/TrackerService.java:222-248 | after "1970-01-01-1" ended at 09:00, a 15:30:42 start is named "1970-01-01-1" again as written, "1970-01-01-2" as intended |
| Tracker.AfternoonAlarmMissesMidnight | src/main/java/com/nextgis/maplibui/service/TrackerService.java:260-262 | an alarm armed in the afternoon fires at least twelve hours after the next midnight as written; the intended one fires at that midnight |
| Tracker.TrackerService.Create | src/main/java/com/nextgis/maplibui/service/TrackerService.java:88-129 | a new instance is not running, has no track, and snapshots the last track; it is coherent when the stored state is |
| Tracker.TrackerService.AddNotification | src/main/java/com/nextgis/maplibui/service/TrackerService.java:289-320 | the notification under id 1 is replaced by one showing the track name and the open target |
| Tracker.TrackerService.RemoveNotification | src/main/java/com/nextgis/maplibui/service/TrackerService.java:322-325 | the notification under id 1 is cancelled, leaving none |
| Tracker.TrackerService.InitTargetIntent | src/main/java/com/nextgis/maplibui/service/TrackerService.java:329-350 | the open target is the resolved activity or the default |
| Tracker.TrackerService.HasLastTrack | src/main/java/com/nextgis/maplibui/service/TrackerService.java:198-202 | getLastTrack found a row; with a current snapshot, exactly when the tracks table is non-empty |
| Tracker.TrackerService.IsLastTrackClosed | src/main/java/com/nextgis/maplibui/service/TrackerService.java:204-208 | the snapshot's end is neither NULL nor ''; with a current snapshot, exactly when the row with the largest id has an end time |
| Tracker.TrackerService.RestoreData | src/main/java/com/nextgis/maplibui/service/TrackerService.java:211-217 | the name comes from the snapshot, the URI from the scratch `track_uri` (default ""), the id is its last segment, and the service runs |
| Tracker.TrackerService.StartTrack | src/main/java/com/nextgis/maplibui/service/TrackerService.java:220-263 | one open, visible row named prefix + suffix with start = now is inserted under the next id; the day start is CalendarDayStart, as the code computes it; its URI is saved; the alarm is one day after that day start; a suffix that does not parse changes nothing |
| Tracker.TrackerService.InsertNewTrack | src/main/java/com/nextgis/maplibui/service/TrackerService.java:246-258 | the insert half of startTrack: one open, visible row named as given with start = now under the next id, which becomes the largest id; its URI is saved under `track_uri`, the id text is that URI's last segment, the service runs; with no track open before, exactly the new track is open |
| Tracker.TrackerService.StopTrack | src/main/java/com/nextgis/maplibui/service/TrackerService.java:266-286 | the current URI's row is closed if open, the service stops, the alarm is cancelled, both scratch keys are removed; with the invariant, no track stays open |
| Tracker.TrackerService.HandleSplit | src/main/java/com/nextgis/maplibui/service/TrackerService.java:158-163 | stopTrack, re-query, startTrack (with the as-written day start) and notification, with the whole new state stated; the invariant is kept when the service was running or nothing was open |
| Tracker.TrackerService.HandleStart | src/main/java/com/nextgis/maplibui/service/TrackerService.java:167-180 | a start command on an idle instance goes to recovery exactly when the snapshot shows an unclosed last track, otherwise to a fresh start; each branch's whole new state is stated and the invariant is kept |
| Tracker.TrackerService.FreshStart | src/main/java/com/nextgis/maplibui/service/TrackerService.java:169-179 | startTrack inserts one track named and alarmed against the as-written day start, the target class is saved in the scratch store and opened by the notification; a failed start reports a crash; the invariant is kept |
| Tracker.TrackerService.Recover | src/main/java/com/nextgis/maplibui/service/TrackerService.java:172-179 | the unclosed last track is adopted without any insert or alarm change: name from the snapshot, URI and target from the scratch store, running, notification shown; the invariant is kept |
| Tracker.TrackerService.OnStartCommand | src/main/java/com/nextgis/maplibui/service/TrackerService.java:141-184 | per command: stop only requests the stop; split as HandleSplit; start while running changes nothing; otherwise fresh start or recovery; the invariant is kept except for a split on an idle instance with an open track |
| Tracker.TrackerService.OnDestroy | src/main/java/com/nextgis/maplibui/service/TrackerService.java:353-361 | stopTrack and the notification is removed; a running service leaves no open track |
| Tracker.TrackerService.OnLocationChanged | src/main/java/com/nextgis/maplibui/service/TrackerService.java:371-385 | exactly one trackpoint is appended, with the current track id, the fix type, the last satellite count and the fix time; nothing else changes |
| Tracker.TrackerService.OnGpsStatusChanged | src/main/java/com/nextgis/maplibui/service/TrackerService.java:413-426 | a satellite-status event sets the count to the number of satellites used in the fix; other events keep it |
| Tracks.Repeat | src/main/java/com/nextgis/maplibui/activity/TracksActivity.java:297-299 | repeating a text n times multiplies its length by n |
| Tracks.RepeatCounts | src/main/java/com/nextgis/maplibui/activity/TracksActivity.java:297-299 | n copies of ",?" hold n '?' and n ',' |
| Tracks.Placeholders | src/main/java/com/nextgis/maplibui/activity/TracksActivity.java:291-302 | the placeholder list for n ids has length 2n - 1, n '?' and n - 1 ',' |
| Tracks.Selection | src/main/java/com/nextgis/maplibui/activity/TracksActivity.java:418 | the delete selection has the column name's own '?' plus one per selected id |
| Tracks.SelectionParameters | src/main/java/com/nextgis/maplibui/activity/TracksActivity.java:418-420 | the delete selection has exactly one '?' per selected id |
| Tracks.NoCharNoCount | src/main/java/com/nextgis/maplibui/activity/TracksActivity.java:418 | a text without '?' adds no parameter |
| Tracks.IndexOf | src/main/java/com/nextgis/maplibui/activity/TracksActivity.java:264 | the first position holding the element |
| Tracks.RemoveFirst | src/main/java/com/nextgis/maplibui/activity/TracksActivity.java:264 | ArrayList.remove(Object) drops exactly the first occurrence and keeps the rest in order; an absent element changes nothing |
| Tracks.RemovedPositions | src/main/java/com/nextgis/maplibui/activity/TracksActivity.java:264 | after the removal, every position maps to the original position skipping the removed one |
| Tracks.RemoveFirstOfDistinct | src/main/java/com/nextgis/maplibui/activity/TracksActivity.java:263-265 | on a list without duplicates the id is absent afterwards, every other id stays, and there are still no duplicates |
| Tracks.Toggled | src/main/java/com/nextgis/maplibui/activity/TracksActivity.java:432-452 | no more updates than rows, each setting the requested visibility (which rows get one is ToggledExactly) |
| Tracks.ToggledExactly | src/main/java/com/nextgis/maplibui/activity/TracksActivity.java:432-452 | every update sets the requested visibility on a checked row that differed, and every such row gets one |
| Tracks.RowUri | src/main/java/com/nextgis/maplibui/activity/TracksActivity.java:251 | `withAppendedPath` makes the row id the URI's last path segment |
| Tracks.RowUriIsTrackUri | src/main/java/com/nextgis/maplibui/activity/TracksActivity.java:245-251 | the visibility update of the row for track k goes to the URI the service stores for k, which designates k |
| Tracks.PositionMap | src/main/java/com/nextgis/maplibui/activity/TracksActivity.java:325-329 | every id in the map points to a position holding that id |
| Tracks.PositionMapLastOccurrence | src/main/java/com/nextgis/maplibui/activity/TracksActivity.java:325-329 | the map's keys are the item ids, and each maps to the last position holding it |
| Tracks.PositionMapInverts | src/main/java/com/nextgis/maplibui/activity/TracksActivity.java:325-329 | with distinct ids, the id at each position maps back to that position |
| Tracks.TracksActivity.constructor | src/main/java/com/nextgis/maplibui/activity/TracksActivity.java:88-92 | the selection is empty, or the one saved in the instance state |
| Tracks.TracksActivity.UpdateSelectedItems | src/main/java/com/nextgis/maplibui/activity/TracksActivity.java:255-274 | checking appends the id only when absent; unchecking removes it; the id is present exactly when checked, others keep their membership, and no duplicates arise |
| Tracks.TracksActivity.OnItemClick | src/main/java/com/nextgis/maplibui/activity/TracksActivity.java:197-212 | a click flips the row's selection: the id is appended when absent, its first occurrence removed when present, other ids keep their membership; the clicked position is checked exactly when the id is now selected |
| Tracks.TracksActivity.SetSelection | src/main/java/com/nextgis/maplibui/activity/TracksActivity.java:228-242 | every listed row ends selected exactly when selectState holds, other ids keep their membership, and only clicked rows change their checked position |
| Tracks.TracksActivity.OnSelectAll | src/main/java/com/nextgis/maplibui/activity/TracksActivity.java:429-431 | select-all flips selectState and brings every row to it: ids outside the list keep their membership, the positions of the rows it clicks become checked exactly when selectState holds, and every other position keeps its checked state |
| Tracks.TracksActivity.MakePlaceholders | src/main/java/com/nextgis/maplibui/activity/TracksActivity.java:291-302 | the builder yields "?" and then ",?" for every further id: length 2n - 1 with n '?' |
| Tracks.TracksActivity.OnDelete | src/main/java/com/nextgis/maplibui/activity/TracksActivity.java:407-428 | with ids selected, one delete of exactly those ids with one '?' per id, stopping a running tracker, then an empty selection; with none, nothing changes |
| Tracks.TracksActivity.OnVisibility | src/main/java/com/nextgis/maplibui/activity/TracksActivity.java:432-455 | the updates are those of ToggledExactly, in row order |
| Tracks.TracksActivity.OnLoadFinished | src/main/java/com/nextgis/maplibui/activity/TracksActivity.java:320-329 | the position map is rebuilt from the item ids, as PositionMapLastOccurrence describes |

## Left out

- Android plumbing is not modelled:
  - location and GPS-status listener registration;
  - `AlarmManager`, `PendingIntent` and notification-builder details (icons, ticker, the stop action);
  - toasts;
  - the action bar and the action-mode title;
  - `finish()` of the action mode, and with it `onDestroyActionMode`, which resets selectState
    and clicks the rows again;
  - the `TextView`/`ImageView` binding;
  - `onSaveInstanceState`.

  The alarm, the notifications and the scratch preferences are fields of `Platform`.
- The content provider is not part of this model. `TrackLayer` is not part of this model either:
  - the table is a map from id to row;
  - ids come from a counter, as an AUTOINCREMENT key does;
  - the tracks URI is `content://<authority>/tracks`;
  - the id column name is a constant of the activity.
- The activity returns its delete and visibility requests as values and does not apply them.
  `isTrackerServiceRunning` is a parameter.
- Time is a `Clock` parameter:
  - `now` is one value, so `System.currentTimeMillis()` and `Calendar.getInstance()` within a
    command read the same instant;
  - the zone offset is constant over a day, so daylight-saving changes are not modelled;
  - the `yyyy-MM-dd-` text of `SimpleDateFormat` is given.
- The minimum time and distance preferences, parsed with `Long.parseLong` and `Float.parseFloat`,
  only configure location updates. Coordinates are opaque reals.
- `Class.forName` is a lookup in the set of resolvable class names.
- TrackStore.EndOpenTrack assumes the provider applies the update of a row URI as
  `_id = N AND (selection)`, so stopTrack's `end IS NULL OR end = ''` selection closes only the
  current URI's row. The provider is not part of this model; one that appended ` AND _id = N`
  without parentheses would instead close every row whose end is NULL.
- JavaText.ParseInt: accepts only ASCII digits, while Java also accepts other Unicode decimal
  digits. Track names are produced by the service itself, in ASCII.
- JavaText.LastPathSegment: models only the URIs this core builds (no query, fragment or percent
  encoding).
- The exception that `startTrack` throws on a last track name without an int suffix ends the
  command as `Crashed`. The fields it would have set are left as they were, and the process
  death that follows is not modelled.
- `Tracks.TracksActivity.MakePlaceholders` requires at least one id. `new StringBuilder(-1)`
  throws for none, and its only caller checks for a non-empty list first.
- A row's checkbox is taken to show whether its id is in `mIds`, as the binder sets it. A view
  whose checkbox is stale is not modelled.
- `Tracker.TrackerService.OnStartCommand`: keeps `Coherent` only when a split reaches a running
  instance or no track is open. `Tracker.SplitOnIdleServiceLeavesTwoOpen` shows the other case.

### Behaviour of the code worth noting

- A location fix is stored whether or not a track is being recorded. Its session is the
  current `trackId`, which may be null.
- Recovery does not re-arm the split alarm.
- With no `track_uri` in the scratch preferences, recovery adopts the URI `""`. It does not fall
  back to a fresh start, so later fixes get a null session.
- A split at the day start continues the old ordinal (`Tracker.SplitContinuesOrdinal`)
  rather than starting the new day at 1.
- A stop delivered to an instance that never started (for example from a notification that
  outlived its process) leaves the open track open and discards its scratch URI
  (`Tracker.StopOnFreshInstanceOrphansOpenTrack`).
- The ordinal after `...-2147483647` wraps to `-2147483648`.

## Findings

| source | as written | input that shows it | evidently intended | confidence | as-written member | corrected member |
|---|---|---|---|---|---|---|
| src/main/java/com/nextgis/maplibui/service/TrackerService.java:222-225 | `today.set(Calendar.HOUR, 0)` clears the 12-hour field, so AM_PM survives, and SECOND is never cleared. In the afternoon the "day start" is 12:00:ss. A track that ended that morning counts as before today, and the split alarm fires at 12:00:ss the next day. | last track "1970-01-01-1" ended 09:00 UTC; start at 15:30:42 UTC (offset 0): the new track is named "1970-01-01-1" again, and the alarm is set for 12:00:42 the next day | the local midnight (HOUR_OF_DAY and SECOND cleared): the new track is "1970-01-01-2" and the alarm fires at the next midnight | not executed | DayClock.CalendarDayStart, Tracker.TrackerService.StartTrack, Tracker.DuplicateNameExample, Tracker.AfternoonStartRepeatsFirstName, Tracker.AfternoonAlarmMissesMidnight | DayClock.Midnight, DayClock.NextMidnightIsAfterNow, Tracker.NewTrackName, Tracker.SameDayOrdinalIncrements |

The service class runs the code as written: `StartTrack`, and with it `HandleSplit`,
`HandleStart` and `OnStartCommand`, names tracks and arms the alarm against
`CalendarDayStart`. `NewTrackName` takes the day start as a parameter. The lemmas above
instantiate it with both `CalendarDayStart` and `Midnight`, which shows the duplicate name as
written and the continued ordinal as intended.
