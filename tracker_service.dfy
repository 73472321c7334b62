/**
 * TrackerService: the background service that records a GPS track. Commands arrive one at a
 * time through OnStartCommand; location fixes and GPS status changes are separate events.
 * The service's own fields live in the TrackerService class; what outlives it (tables,
 * scratch preferences, the split alarm, notifications) lives in the shared Platform.
 */
module Tracker {
  import opened Wrappers
  import opened JavaText
  import opened DayClock
  import opened TrackStore

  const TargetClassKey: string := "target_class"
  const TrackUriKey: string := "track_uri"
  const ActionStop: string := "TRACK_STOP"
  const ActionSplit: string := "TRACK_SPLIT"
  const TrackNotificationId: int := 1
  /** GpsStatus.GPS_EVENT_SATELLITE_STATUS */
  const GpsEventSatelliteStatus: int := 4

  /** The parts of a start intent the service reads: its action and its target_class extra. */
  datatype Intent = Intent(action: Option<string>, targetClass: Option<string>)

  /** What onStartCommand does with an intent. */
  datatype Command = StopCommand | SplitCommand | StartCommand

  /** Wall-clock input of one command: epoch milliseconds, the local zone offset, and the
      "yyyy-MM-dd-" text SimpleDateFormat renders for that instant. */
  datatype Clock = Clock(now: int, offset: int, datePrefix: string)

  /** The parts of an android.location.Location the service copies into a trackpoint. */
  datatype Location = Location(coordinates: Coordinates, hasAltitude: bool, time: int)

  datatype Satellite = Satellite(usedInFix: bool)

  /** onStartCommand's return value, or the uncaught exception that ends the process. */
  datatype StartResult = StartSticky | StartNotSticky | Crashed

  /** A null intent, an empty action or an unknown action all take the start path. */
  function CommandOf(intent: Option<Intent>): (c: Command)
    ensures c == StopCommand <==> intent.Some? && intent.value.action == Some(ActionStop)
    ensures c == SplitCommand <==> intent.Some? && intent.value.action == Some(ActionSplit)
  {
    match intent
    case None => StartCommand
    case Some(i) =>
      if i.action == Some(ActionStop) then StopCommand
      else if i.action == Some(ActionSplit) then SplitCommand
      else StartCommand
  }

  /** The target activity name onStartCommand starts from: "" without an intent, the
      (possibly null) extra with one. */
  function TargetExtra(intent: Option<Intent>): (r: Option<string>)
    ensures intent.None? ==> r == Some("")
    ensures intent.Some? ==> r == intent.value.targetClass
  {
    match intent
    case None => Some("")
    case Some(i) => i.targetClass
  }

  /** Cursor.getLong on the end column: NULL and '' read as 0. */
  function EndMillis(end: Option<int>): (r: int)
    ensures end.Some? ==> r == end.value
    ensures end.None? ==> r == 0
  {
    match end
    case Some(t) => t
    case None => 0
  }

  /**
   * The suffix of a new track's name: "1", unless the last track ended after the day
   * boundary, in which case the integer after the last '-' of its name, plus one (in
   * 32-bit arithmetic). None is the exception the Java code throws when that segment is
   * missing or is not an int.
   */
  function NameSuffix(last: Option<LastTrack>, dayStart: int): (r: Option<string>)
    ensures last.None? || EndMillis(last.value.end) <= dayStart ==> r == Some("1")
    ensures r.Some? ==> ParseInt(r.value).Some?
  {
    match last
    case None => Some("1")
    case Some(t) =>
      if EndMillis(t.end) > dayStart then
        match LastSplitSegment(t.name, '-')
        case None => None
        case Some(seg) =>
          match ParseInt(seg)
          case None => None
          case Some(k) =>
            var next := Wrap32(k + 1);
            ParseIntOfIntToString(next);
            Some(IntToString(next))
      else
        ParseIntOfIntToString(1);
        Some("1")
  }

  /** The name startTrack gives a new track: the date prefix followed by the suffix, measured
      against the day boundary `dayStart`; None when the suffix rule throws. */
  function NewTrackName(datePrefix: string, dayStart: int, last: Option<LastTrack>): (r: Option<string>)
    ensures r.None? <==> NameSuffix(last, dayStart).None?
    ensures r.Some? ==> |r.value| > |datePrefix| && r.value[..|datePrefix|] == datePrefix
    ensures r.Some? ==> ParseInt(r.value[|datePrefix|..]).Some?
  {
    match NameSuffix(last, dayStart)
    case None => None
    case Some(suffix) =>
      assert (datePrefix + suffix)[|datePrefix|..] == suffix;
      Some(datePrefix + suffix)
  }

  /** The day's ordinal counts up: after a track named `<prefix><k>` that ended after the
      boundary, the next track's suffix is k + 1. */
  lemma SameDayOrdinalIncrements(prefix: string, k: int, end: int, dayStart: int)
    requires prefix == [] || prefix[|prefix| - 1] == '-'
    requires 0 <= k < IntMax
    requires end > dayStart
    ensures NameSuffix(Some(LastTrack(prefix + IntToString(k), Some(end))), dayStart) == Some(IntToString(k + 1))
  {
    var digits := IntToString(k);
    LastSplitSegmentOfAppended(prefix, digits, '-');
    ParseIntOfIntToString(k);
    assert ParseInt(digits) == Some(k);
    assert Wrap32(k + 1) == k + 1;
  }

  /** The split closes the old track at `now` and names the new one in the same instant, so
      unless it runs in the very millisecond of the boundary the old track ended after the
      boundary and the new day's first track continues the old day's ordinal: with the
      boundary the code computes, and with the midnight it means to compute. */
  lemma SplitContinuesOrdinal(oldPrefix: string, k: int, clock: Clock)
    requires oldPrefix == [] || oldPrefix[|oldPrefix| - 1] == '-'
    requires 0 <= k < IntMax
    ensures var last := Some(LastTrack(oldPrefix + IntToString(k), Some(clock.now)));
      CalendarDayStart(clock.now, clock.offset) < clock.now ==>
        NewTrackName(clock.datePrefix, CalendarDayStart(clock.now, clock.offset), last) ==
        Some(clock.datePrefix + IntToString(k + 1))
    ensures var last := Some(LastTrack(oldPrefix + IntToString(k), Some(clock.now)));
      Midnight(clock.now, clock.offset) < clock.now ==>
        NewTrackName(clock.datePrefix, Midnight(clock.now, clock.offset), last) ==
        Some(clock.datePrefix + IntToString(k + 1))
  {
    if CalendarDayStart(clock.now, clock.offset) < clock.now {
      SameDayOrdinalIncrements(oldPrefix, k, clock.now, CalendarDayStart(clock.now, clock.offset));
    }
    if Midnight(clock.now, clock.offset) < clock.now {
      SameDayOrdinalIncrements(oldPrefix, k, clock.now, Midnight(clock.now, clock.offset));
    }
  }

  /** The trackpoint fix column: "3d" exactly when the fix has an altitude. */
  function FixType(hasAltitude: bool): (r: string)
    ensures r == "3d" <==> hasAltitude
    ensures r == "2d" <==> !hasAltitude
  {
    if hasAltitude then "3d" else "2d"
  }

  /** The number of satellites used in the fix. */
  function CountUsed(satellites: seq<Satellite>): (n: nat)
    ensures n <= |satellites|
  {
    if satellites == [] then 0
    else CountUsed(satellites[..|satellites| - 1]) + (if satellites[|satellites| - 1].usedInFix then 1 else 0)
  }

  /** The positions of the satellites used in the fix. */
  function UsedPositions(satellites: seq<Satellite>): set<int> {
    set i | 0 <= i < |satellites| && satellites[i].usedInFix
  }

  /** The count the service keeps is the size of the used-in-fix set. */
  lemma {:induction false} CountUsedIsUsedPositions(satellites: seq<Satellite>)
    ensures CountUsed(satellites) == |UsedPositions(satellites)|
    decreases |satellites|
  {
    if satellites != [] {
      var n := |satellites| - 1;
      var front := satellites[..n];
      CountUsedIsUsedPositions(front);
      assert UsedPositions(front) == set i | 0 <= i < n && satellites[i].usedInFix;
      if satellites[n].usedInFix {
        assert UsedPositions(satellites) == UsedPositions(front) + {n};
      } else {
        assert UsedPositions(satellites) == UsedPositions(front);
      }
    }
  }

  /** initTargetIntent's Class.forName lookup: the named activity when the name is non-empty
      and resolves among `classes`, otherwise the default intent. */
  function ResolveTarget(name: Option<string>, classes: set<string>): (t: Target)
    ensures t.ActivityTarget? <==> name.Some? && name.value != "" && name.value in classes
    ensures t.ActivityTarget? ==> t.className == name.value
  {
    if name.Some? && name.value != "" && name.value in classes then ActivityTarget(name.value)
    else DefaultTarget
  }

  /** The tracks table after stopTrack: the row of `newTrack` gets end = now if it has none;
      a null or empty URI skips the update. */
  function AfterStop(tracks: map<int, Track>, newTrack: Option<string>, now: int): (r: map<int, Track>)
    ensures r.Keys == tracks.Keys
    ensures newTrack.None? || newTrack.value == "" ==> r == tracks
  {
    if newTrack.Some? && newTrack.value != "" then EndOpenTrack(tracks, IdOfUri(newTrack.value), now)
    else tracks
  }

  /** Every row of the table has an end time. */
  ghost predicate NoneOpen(tracks: map<int, Track>) {
    forall id | id in tracks :: tracks[id].end.Some?
  }

  /** The id of the last track when that track is still open. */
  ghost function OpenLast(tracks: map<int, Track>, bound: int): Option<int>
    requires IdsBelow(tracks, bound)
  {
    match LastIdIn(tracks, bound)
    case None => None
    case Some(id) => if tracks[id].end.None? then Some(id) else None
  }

  /** The service records one track at a time: only the last track may be open. */
  ghost predicate OnlyLastOpen(tracks: map<int, Track>, bound: int) {
    IdsBelow(tracks, bound) &&
    forall id | id in tracks && tracks[id].end.None? :: LastIdIn(tracks, bound) == Some(id)
  }

  /** The durable half of the service's invariant: only the last track may be open, and the
      scratch preferences hold the URI of the open track, so a restarted service can adopt it. */
  ghost predicate StoredCoherent(tracks: map<int, Track>, bound: int, scratch: map<string, string>, authority: string) {
    OnlyLastOpen(tracks, bound) &&
    var open := OpenLast(tracks, bound);
    open.Some? ==> GetString(scratch, TrackUriKey, "") == TrackUri(authority, open.value)
  }

  lemma NoneOpenHasNoOpenLast(tracks: map<int, Track>, bound: int)
    requires IdsBelow(tracks, bound) && NoneOpen(tracks)
    ensures OnlyLastOpen(tracks, bound) && OpenLast(tracks, bound) == None
  {
  }

  /** A last track that is closed, or missing, leaves no open track at all. */
  lemma {:induction false} ClosedLastMeansNoneOpen(tracks: map<int, Track>, bound: int)
    requires OnlyLastOpen(tracks, bound)
    requires LastTrackIn(tracks, bound).None? || LastTrackIn(tracks, bound).value.end.Some?
    ensures NoneOpen(tracks)
  {
    forall id | id in tracks
      ensures tracks[id].end.Some?
    {
      if tracks[id].end.None? {
        assert LastIdIn(tracks, bound) == Some(id);
      }
    }
  }

  /** Inserting a row at the counter, over a table with no open track, makes it the only
      open track when it is open. */
  lemma {:induction false} InsertAfterNoneOpen(tracks: map<int, Track>, bound: int, t: Track)
    requires 1 <= bound && IdsBelow(tracks, bound) && NoneOpen(tracks)
    ensures IdsBelow(tracks[bound := t], bound + 1)
    ensures LastIdIn(tracks[bound := t], bound + 1) == Some(bound)
    ensures OnlyLastOpen(tracks[bound := t], bound + 1)
    ensures OpenLast(tracks[bound := t], bound + 1) == if t.end.None? then Some(bound) else None
  {
    var after := tracks[bound := t];
    assert IdsBelow(after, bound + 1);
    var last := LastIdIn(after, bound + 1);
    assert bound in after;
    assert last == Some(bound);
  }

  /** startTrack over a table with no open track: the new row is the only open track and the
      scratch URI names it, so the stored state is coherent. */
  lemma StartOpensOnlyTrack(tracks: map<int, Track>, bound: int, t: Track, scratch: map<string, string>, authority: string)
    requires 1 <= bound && IdsBelow(tracks, bound) && NoneOpen(tracks) && t.end.None?
    ensures StoredCoherent(tracks[bound := t], bound + 1, scratch[TrackUriKey := TrackUri(authority, bound)], authority)
    ensures OpenLast(tracks[bound := t], bound + 1) == Some(bound)
  {
    InsertAfterNoneOpen(tracks, bound, t);
  }

  /** stopTrack on the URI of the open last track closes it, leaving no open track. */
  lemma {:induction false} StopClosesOpenLast(tracks: map<int, Track>, bound: int, authority: string, now: int)
    requires OnlyLastOpen(tracks, bound) && OpenLast(tracks, bound).Some?
    ensures NoneOpen(AfterStop(tracks, Some(TrackUri(authority, OpenLast(tracks, bound).value)), now))
  {
    var last := OpenLast(tracks, bound).value;
    TrackUriRoundTrip(authority, last);
    var after := AfterStop(tracks, Some(TrackUri(authority, last)), now);
    assert forall id | id in tracks && tracks[id].end.None? :: id == last;
  }

  /** stopTrack over a table with no open track changes nothing, whatever URI it holds. */
  lemma StopWithNoneOpen(tracks: map<int, Track>, newTrack: Option<string>, now: int)
    requires NoneOpen(tracks)
    ensures AfterStop(tracks, newTrack, now) == tracks
  {
  }

  /** stopTrack, run by a service whose URI is that of the open last track, or over a table
      with no open track, leaves no open track. */
  lemma StopKeepsNoneOpen(tracks: map<int, Track>, bound: int, authority: string, running: bool, newTrack: Option<string>, now: int)
    requires OnlyLastOpen(tracks, bound)
    requires running ==> OpenLast(tracks, bound).Some? && newTrack == Some(TrackUri(authority, OpenLast(tracks, bound).value))
    requires running || NoneOpen(tracks)
    ensures NoneOpen(AfterStop(tracks, newTrack, now))
  {
    if running {
      StopClosesOpenLast(tracks, bound, authority, now);
    } else {
      StopWithNoneOpen(tracks, newTrack, now);
    }
  }

  /**
   * A stop handled by a fresh instance, whose newTrack is still null, while the last track
   * is open: the row stays open but the scratch URI is removed, so the next start adopts
   * the track under the empty URI, and its trackpoints get a NULL session.
   */
  lemma StopOnFreshInstanceOrphansOpenTrack(tracks: map<int, Track>, bound: int, scratch: map<string, string>, now: int)
    requires IdsBelow(tracks, bound) && OpenLast(tracks, bound).Some?
    ensures var after := AfterStop(tracks, None, now);
      && OpenLast(after, bound) == OpenLast(tracks, bound)
      && GetString(scratch - {TargetClassKey, TrackUriKey}, TrackUriKey, "") == ""
      && LastPathSegment(GetString(scratch - {TargetClassKey, TrackUriKey}, TrackUriKey, "")) == None
  {
  }

  /**
   * A split reaching an instance that is not running, while the last track is open (the
   * process was killed and the alarm fired before any start): stopTrack has no URI to close,
   * so the open track stays open beside the new one.
   */
  lemma {:induction false} SplitOnIdleServiceLeavesTwoOpen(tracks: map<int, Track>, bound: int, t: Track, now: int)
    requires 1 <= bound && IdsBelow(tracks, bound) && OpenLast(tracks, bound).Some? && t.end.None?
    ensures var after := AfterStop(tracks, None, now)[bound := t];
      && OpenLast(tracks, bound).value in after && after[OpenLast(tracks, bound).value].end.None?
      && bound in after && after[bound].end.None?
      && !OnlyLastOpen(after, bound + 1)
  {
    var open := OpenLast(tracks, bound).value;
    var after := AfterStop(tracks, None, now)[bound := t];
    assert open < bound;
    assert open in after && after[open].end.None?;
    assert bound in after && after[bound].end.None?;
  }

  /**
   * As written, any afternoon start after a track that ended that morning restarts the
   * day's ordinal at "1", so the new track repeats the name of the day's first track; with
   * the midnight boundary the ordinal continues.
   */
  lemma {:induction false} AfternoonStartRepeatsFirstName(datePrefix: string, k: int, end: int, now: int, offset: int)
    requires datePrefix == [] || datePrefix[|datePrefix| - 1] == '-'
    requires 0 <= k < IntMax
    requires (now + offset) % Day >= HalfDay
    requires Midnight(now, offset) < end <= Midnight(now, offset) + HalfDay
    ensures var last := Some(LastTrack(datePrefix + IntToString(k), Some(end)));
      && NewTrackName(datePrefix, CalendarDayStart(now, offset), last) == Some(datePrefix + "1")
      && NewTrackName(datePrefix, Midnight(now, offset), last) == Some(datePrefix + IntToString(k + 1))
  {
    CalendarDayStartMissesMorning(now, offset);
    SameDayOrdinalIncrements(datePrefix, k, end, Midnight(now, offset));
  }

  /** Concretely: a track "1970-01-01-1" ended at 09:00 UTC; a start at 15:30:42 UTC is named
      "1970-01-01-1" again as written, "1970-01-01-2" with the midnight boundary. */
  lemma DuplicateNameExample()
    ensures var clock := Clock(15 * Hour + 30 * Minute + 42 * Second, 0, "1970-01-01-");
      var last := Some(LastTrack("1970-01-01-1", Some(9 * Hour)));
      && NewTrackName(clock.datePrefix, CalendarDayStart(clock.now, clock.offset), last) == Some("1970-01-01-1")
      && NewTrackName(clock.datePrefix, Midnight(clock.now, clock.offset), last) == Some("1970-01-01-2")
  {
    var prefix := "1970-01-01-";
    var one := IntToString(1);
    var two := IntToString(2);
    assert one == "1" && two == "2";
    assert prefix + one == "1970-01-01-1";
    assert prefix + "1" == "1970-01-01-1";
    assert prefix + two == "1970-01-01-2";
    AfternoonStartRepeatsFirstName(prefix, 1, 9 * Hour, 15 * Hour + 30 * Minute + 42 * Second, 0);
  }

  /** As written, the split alarm armed in an afternoon fires at least twelve hours after the
      next local midnight; with the midnight boundary it fires exactly at that midnight. */
  lemma AfternoonAlarmMissesMidnight(now: int, offset: int)
    requires (now + offset) % Day >= HalfDay
    ensures CalendarDayStart(now, offset) + Day >= Midnight(now, offset) + Day + HalfDay
    ensures now < Midnight(now, offset) + Day && (Midnight(now, offset) + Day + offset) % Day == 0
  {
    CalendarDayStartMissesMorning(now, offset);
  }

  class TrackerService {
    const platform: Platform
    const authority: string
    /** The activity class names Class.forName can resolve. */
    const classes: set<string>

    var isRunning: bool
    var trackName: Option<string>
    var trackId: Option<string>
    var newTrack: Option<string>
    var lastTrack: Option<LastTrack>
    var openTarget: Option<Target>
    var satellitesCount: int
    var stopRequested: bool
    var destroyed: bool

    ghost predicate Valid()
      reads this, platform
    {
      platform.Valid() && platform.notifications.Keys <= {TrackNotificationId}
    }

    /**
     * What the service keeps true between commands: the stored state is coherent; a running
     * service records into the open last track and holds its URI and id; an idle one holds a
     * snapshot of the last track that matches the table.
     */
    ghost predicate Coherent()
      reads this, platform
    {
      Valid() &&
      StoredCoherent(platform.tracks, platform.nextId, platform.scratch, authority) &&
      var open := OpenLast(platform.tracks, platform.nextId);
      (isRunning ==> open.Some? && newTrack == Some(TrackUri(authority, open.value)) && trackId == Some(IntToString(open.value))) &&
      (!isRunning ==> lastTrack == platform.QueryLastTrack())
    }

    /** onCreate: a new service instance over the platform; it snapshots the last track. */
    constructor Create(platform: Platform, authority: string, classes: set<string>)
      requires platform.Valid() && platform.notifications.Keys <= {TrackNotificationId}
      ensures Valid()
      ensures this.platform == platform && this.authority == authority && this.classes == classes
      ensures !isRunning && trackName == None && trackId == None && newTrack == None
      ensures openTarget == None && satellitesCount == 0 && !stopRequested && !destroyed
      ensures lastTrack == platform.QueryLastTrack()
      ensures StoredCoherent(platform.tracks, platform.nextId, platform.scratch, authority) ==> Coherent()
    {
      this.platform, this.authority, this.classes := platform, authority, classes;
      isRunning, trackName, trackId, newTrack := false, None, None, None;
      openTarget, satellitesCount, stopRequested, destroyed := None, 0, false, false;
      lastTrack := platform.QueryLastTrack();
    }

    /** getLastTrack found a row. While the snapshot is current, that is exactly when the
        tracks table is non-empty. */
    predicate HasLastTrack()
      reads this, platform
      ensures HasLastTrack() <==> lastTrack.Some?
      ensures platform.Valid() && lastTrack == platform.QueryLastTrack() ==>
        (HasLastTrack() <==> platform.tracks != map[])
    {
      lastTrack.Some?
    }

    /** The snapshot's end column is neither NULL nor ''. While the snapshot is current,
        that is exactly when the row with the largest id has an end time. */
    predicate IsLastTrackClosed()
      reads this, platform
      ensures IsLastTrackClosed() ==> HasLastTrack()
      ensures platform.Valid() && lastTrack == platform.QueryLastTrack() ==>
        (IsLastTrackClosed() <==> platform.tracks != map[] && platform.tracks[platform.LastTrackId().value].end.Some?)
    {
      lastTrack.Some? && lastTrack.value.end.Some?
    }

    method AddNotification()
      requires Valid()
      modifies platform`notifications
      ensures Valid()
      ensures platform.notifications == old(platform.notifications)[TrackNotificationId := Notification(trackName, openTarget)]
    {
      platform.notifications := platform.notifications[TrackNotificationId := Notification(trackName, openTarget)];
    }

    method RemoveNotification()
      requires Valid()
      modifies platform`notifications
      ensures Valid()
      ensures platform.notifications == old(platform.notifications) - {TrackNotificationId}
      ensures platform.notifications == map[]
    {
      platform.notifications := platform.notifications - {TrackNotificationId};
      assert platform.notifications.Keys == {};
    }

    method InitTargetIntent(target: Option<string>)
      modifies this`openTarget
      ensures openTarget == Some(ResolveTarget(target, classes))
    {
      openTarget := Some(ResolveTarget(target, classes));
    }

    /** Adopts the open last track after the process was killed: the name comes from the
        snapshot, the URI from the scratch preferences. */
    method RestoreData()
      requires lastTrack.Some?
      modifies this`trackName, this`newTrack, this`trackId, this`isRunning
      ensures trackName == Some(lastTrack.value.name)
      ensures newTrack == Some(GetString(platform.scratch, TrackUriKey, ""))
      ensures trackId == LastPathSegment(newTrack.value)
      ensures isRunning
    {
      trackName := Some(lastTrack.value.name);
      newTrack := Some(GetString(platform.scratch, TrackUriKey, ""));
      trackId := LastPathSegment(newTrack.value);
      isRunning := true;
    }

    /** The service records into the track `id`, named `name` and started at `now`, which was
        inserted over the table `before`: the row is the last one, and the service holds its
        name, its URI and its id text. */
    ghost predicate RecordingInto(name: string, id: int, now: int, before: map<int, Track>)
      reads this`trackName, this`newTrack, this`trackId, this`isRunning, platform`tracks, platform`nextId
    {
      && platform.tracks == before[id := Track(name, now, None, true)]
      && platform.nextId == id + 1
      && IdsBelow(platform.tracks, platform.nextId)
      && LastIdIn(platform.tracks, platform.nextId) == Some(id)
      && trackName == Some(name) && isRunning
      && newTrack == Some(TrackUri(authority, id)) && trackId == Some(IntToString(id))
    }

    /** Inserts the track row and saves its URI and id: the service records into it. */
    method InsertNewTrack(name: string, now: int) returns (id: int)
      requires Valid()
      modifies this`trackName, this`newTrack, this`trackId, this`isRunning
      modifies platform`tracks, platform`nextId, platform`scratch
      ensures Valid()
      ensures id == old(platform.nextId)
      ensures RecordingInto(name, id, now, old(platform.tracks))
      ensures platform.scratch == old(platform.scratch)[TrackUriKey := TrackUri(authority, id)]
      ensures old(NoneOpen(platform.tracks)) ==>
        && StoredCoherent(platform.tracks, platform.nextId, platform.scratch, authority)
        && OpenLast(platform.tracks, platform.nextId) == Some(id)
    {
      ghost var before := platform.tracks;
      id := platform.InsertTrack(Track(name, now, None, true));
      if NoneOpen(before) {
        StartOpensOnlyTrack(before, id, Track(name, now, None, true), platform.scratch, authority);
      }
      var uri := TrackUri(authority, id);
      trackName := Some(name);
      newTrack := Some(uri);
      TrackUriRoundTrip(authority, id);
      trackId := LastPathSegment(uri);
      platform.scratch := platform.scratch[TrackUriKey := uri];
      isRunning := true;
    }

    /** Inserts a new open track, named against the day start the Calendar code computes, and
        arms the split alarm one day after that day start; fails, changing nothing, when the
        last track's name has no int suffix to continue. */
    method StartTrack(clock: Clock) returns (ok: bool)
      requires Valid()
      modifies this`trackName, this`newTrack, this`trackId, this`isRunning
      modifies platform`tracks, platform`nextId, platform`scratch, platform`alarm
      ensures Valid()
      ensures ok <==> NewTrackName(clock.datePrefix, CalendarDayStart(clock.now, clock.offset), lastTrack).Some?
      ensures !ok ==> unchanged(this) && unchanged(platform)
      ensures ok ==>
        var id := old(platform.nextId);
        var name := NewTrackName(clock.datePrefix, CalendarDayStart(clock.now, clock.offset), lastTrack).value;
        && RecordingInto(name, id, clock.now, old(platform.tracks))
        && platform.scratch == old(platform.scratch)[TrackUriKey := TrackUri(authority, id)]
        && isRunning
        && platform.alarm == Some(CalendarDayStart(clock.now, clock.offset) + Day)
      ensures ok && old(NoneOpen(platform.tracks)) ==>
        && StoredCoherent(platform.tracks, platform.nextId, platform.scratch, authority)
        && OpenLast(platform.tracks, platform.nextId) == Some(old(platform.nextId))
    {
      var today := CalendarDayStart(clock.now, clock.offset);
      var newName := NewTrackName(clock.datePrefix, today, lastTrack);
      if newName.None? {
        return false;
      }
      var id := InsertNewTrack(newName.value, clock.now);
      platform.alarm := Some(today + Day);
      ok := true;
    }

    /** Ends the current track's row if it is still open, clears the running flag, cancels
        the split alarm and removes both scratch keys. */
    method StopTrack(now: int)
      requires Valid()
      modifies this`isRunning, platform`tracks, platform`alarm, platform`scratch
      ensures Valid()
      ensures platform.tracks == AfterStop(old(platform.tracks), newTrack, now)
      ensures !isRunning && platform.alarm == None
      ensures platform.scratch == old(platform.scratch) - {TargetClassKey, TrackUriKey}
      ensures old(Coherent()) && (old(isRunning) || old(NoneOpen(platform.tracks))) ==> NoneOpen(platform.tracks)
    {
      if Coherent() && (isRunning || NoneOpen(platform.tracks)) {
        StopKeepsNoneOpen(platform.tracks, platform.nextId, authority, isRunning, newTrack, now);
      }
      if newTrack.Some? && newTrack.value != "" {
        platform.EndTrack(newTrack.value, now);
      }
      isRunning := false;
      platform.alarm := None;
      platform.scratch := platform.scratch - {TargetClassKey};
      platform.scratch := platform.scratch - {TrackUriKey};
    }

    /** ACTION_SPLIT: stopTrack, getLastTrack on the updated table, startTrack and
        addNotification. When startTrack throws, the old track is still closed. */
    twostate predicate SplitDone(clock: Clock, result: StartResult)
      reads this, platform
    {
      var closed := AfterStop(old(platform.tracks), old(newTrack), clock.now);
      var cleared := old(platform.scratch) - {TargetClassKey, TrackUriKey};
      && IdsBelow(closed, old(platform.nextId))
      && platform.Valid()
      && lastTrack == LastTrackIn(closed, old(platform.nextId))
      && openTarget == old(openTarget) && stopRequested == old(stopRequested)
      && match NewTrackName(clock.datePrefix, CalendarDayStart(clock.now, clock.offset), lastTrack)
         case None =>
           && result == Crashed && !isRunning
           && platform.tracks == closed && platform.nextId == old(platform.nextId)
           && platform.scratch == cleared && platform.alarm == None
           && platform.notifications == old(platform.notifications)
           && trackName == old(trackName) && trackId == old(trackId) && newTrack == old(newTrack)
         case Some(name) =>
           var id := old(platform.nextId);
           && result == StartSticky && isRunning
           && RecordingInto(name, id, clock.now, closed)
           && platform.scratch == cleared[TrackUriKey := TrackUri(authority, id)]
           && platform.alarm == Some(CalendarDayStart(clock.now, clock.offset) + Day)
           && platform.notifications == old(platform.notifications)[TrackNotificationId := Notification(Some(name), openTarget)]
    }

    /** A start with no last track, or with a closed one: a new track is recorded, the target
        extra is saved in the scratch preferences and the notification is posted. */
    twostate predicate FreshStartDone(intent: Option<Intent>, clock: Clock, result: StartResult)
      reads this, platform
    {
      && lastTrack == old(lastTrack) && stopRequested == old(stopRequested)
      && platform.Valid()
      && match NewTrackName(clock.datePrefix, CalendarDayStart(clock.now, clock.offset), old(lastTrack))
         case None => result == Crashed && unchanged(this) && unchanged(platform)
         case Some(name) =>
           var id := old(platform.nextId);
           var target := Some(ResolveTarget(TargetExtra(intent), classes));
           && result == StartSticky && isRunning
           && RecordingInto(name, id, clock.now, old(platform.tracks))
           && platform.scratch ==
                PutString(old(platform.scratch)[TrackUriKey := TrackUri(authority, id)], TargetClassKey, TargetExtra(intent))
           && platform.alarm == Some(CalendarDayStart(clock.now, clock.offset) + Day)
           && openTarget == target
           && platform.notifications == old(platform.notifications)[TrackNotificationId := Notification(Some(name), target)]
    }

    /** A start while the last track is still open, so the process was killed while
        recording: the service adopts that track, and the saved target, without touching
        the tables or the scratch preferences. */
    twostate predicate RecoveryDone(result: StartResult)
      reads this, platform
      requires old(HasLastTrack())
    {
      var uri := GetString(old(platform.scratch), TrackUriKey, "");
      var target := Some(ResolveTarget(Some(GetString(old(platform.scratch), TargetClassKey, "")), classes));
      && result == StartSticky && isRunning
      && platform.tracks == old(platform.tracks) && platform.nextId == old(platform.nextId)
      && platform.scratch == old(platform.scratch) && platform.alarm == old(platform.alarm)
      && trackName == Some(old(lastTrack).value.name)
      && newTrack == Some(uri) && trackId == LastPathSegment(uri)
      && lastTrack == old(lastTrack) && stopRequested == old(stopRequested)
      && openTarget == target
      && platform.notifications == old(platform.notifications)[TrackNotificationId := Notification(trackName, target)]
    }

    /** The split branch of onStartCommand. */
    method HandleSplit(clock: Clock) returns (result: StartResult)
      requires Valid()
      modifies this`isRunning, this`trackName, this`trackId, this`newTrack, this`lastTrack
      modifies platform`tracks, platform`nextId, platform`scratch, platform`alarm, platform`notifications
      ensures Valid()
      ensures SplitDone(clock, result)
      ensures old(Coherent()) && (old(isRunning) || old(NoneOpen(platform.tracks))) ==> Coherent()
    {
      StopTrack(clock.now);
      ghost var closedTracks := platform.tracks;
      lastTrack := platform.QueryLastTrack();
      var ok := StartTrack(clock);
      if !ok {
        if NoneOpen(closedTracks) {
          NoneOpenHasNoOpenLast(platform.tracks, platform.nextId);
        }
        return Crashed;
      }
      AddNotification();
      return StartSticky;
    }

    /** The start branch of onStartCommand when there is no last track or it was closed:
        startTrack, save the target extra, then initTargetIntent and addNotification. */
    method FreshStart(intent: Option<Intent>, clock: Clock) returns (result: StartResult)
      requires Valid() && !isRunning && !(HasLastTrack() && !IsLastTrackClosed())
      modifies this`isRunning, this`trackName, this`trackId, this`newTrack, this`openTarget
      modifies platform`tracks, platform`nextId, platform`scratch, platform`alarm, platform`notifications
      ensures Valid()
      ensures FreshStartDone(intent, clock, result)
      ensures old(Coherent()) ==> Coherent()
    {
      if Coherent() {
        ClosedLastMeansNoneOpen(platform.tracks, platform.nextId);
      }
      var ok := StartTrack(clock);
      if !ok {
        return Crashed;
      }
      var target := TargetExtra(intent);
      platform.scratch := PutString(platform.scratch, TargetClassKey, target);
      InitTargetIntent(target);
      AddNotification();
      return StartSticky;
    }

    /** The start branch of onStartCommand when the last track is still open: restoreData,
        read the saved target back, then initTargetIntent and addNotification. */
    method Recover() returns (result: StartResult)
      requires Valid() && !isRunning && HasLastTrack() && !IsLastTrackClosed()
      modifies this`isRunning, this`trackName, this`trackId, this`newTrack, this`openTarget
      modifies platform`notifications
      ensures Valid()
      ensures RecoveryDone(result)
      ensures old(Coherent()) ==> Coherent()
    {
      ghost var wasCoherent := Coherent();
      RestoreData();
      if wasCoherent {
        TrackUriRoundTrip(authority, OpenLast(platform.tracks, platform.nextId).value);
      }
      var target := Some(GetString(platform.scratch, TargetClassKey, ""));
      InitTargetIntent(target);
      AddNotification();
      return StartSticky;
    }

    /** The start branch of onStartCommand on a service that is not yet running. */
    method HandleStart(intent: Option<Intent>, clock: Clock) returns (result: StartResult)
      requires Valid() && !isRunning
      modifies this`isRunning, this`trackName, this`trackId, this`newTrack, this`openTarget
      modifies platform`tracks, platform`nextId, platform`scratch, platform`alarm, platform`notifications
      ensures Valid()
      ensures !old(HasLastTrack() && !IsLastTrackClosed()) ==> FreshStartDone(intent, clock, result)
      ensures old(HasLastTrack() && !IsLastTrackClosed()) ==> RecoveryDone(result)
      ensures old(Coherent()) ==> Coherent()
    {
      if !HasLastTrack() || IsLastTrackClosed() {
        result := FreshStart(intent, clock);
      } else {
        result := Recover();
      }
    }

    method OnStartCommand(intent: Option<Intent>, clock: Clock) returns (result: StartResult)
      requires Valid() && !destroyed
      modifies this`isRunning, this`trackName, this`trackId, this`newTrack, this`lastTrack
      modifies this`openTarget, this`stopRequested
      modifies platform`tracks, platform`nextId, platform`scratch, platform`alarm, platform`notifications
      ensures Valid()
      // ACTION_STOP only asks the system to stop the service.
      ensures CommandOf(intent) == StopCommand ==>
        && result == StartNotSticky && stopRequested
        && unchanged(platform)
        && isRunning == old(isRunning) && trackName == old(trackName) && trackId == old(trackId)
        && newTrack == old(newTrack) && lastTrack == old(lastTrack) && openTarget == old(openTarget)
      ensures CommandOf(intent) == SplitCommand ==> SplitDone(clock, result)
      // A start while already running changes nothing.
      ensures CommandOf(intent) == StartCommand && old(isRunning) ==>
        result == StartSticky && unchanged(this) && unchanged(platform)
      // No last track, or a closed one: a fresh start.
      ensures CommandOf(intent) == StartCommand && !old(isRunning) && !old(HasLastTrack() && !IsLastTrackClosed()) ==>
        FreshStartDone(intent, clock, result)
      // The last track is still open: recovery.
      ensures CommandOf(intent) == StartCommand && !old(isRunning) && old(HasLastTrack() && !IsLastTrackClosed()) ==>
        RecoveryDone(result)
      // Every command keeps the invariant, except a split reaching a service that is not
      // running while a track is open.
      ensures old(Coherent()) && (CommandOf(intent) == SplitCommand ==> old(isRunning) || old(NoneOpen(platform.tracks))) ==>
        Coherent()
    {
      var command := CommandOf(intent);
      if command == StopCommand {
        stopRequested := true;
        return StartNotSticky;
      }
      if command == SplitCommand {
        result := HandleSplit(clock);
        return;
      }
      if !isRunning {
        result := HandleStart(intent, clock);
        return;
      }
      return StartSticky;
    }

    /** The service is torn down: stopTrack, then the notification is cancelled. */
    method OnDestroy(now: int)
      requires Valid()
      modifies this`isRunning, this`destroyed, platform`tracks, platform`alarm, platform`scratch, platform`notifications
      ensures Valid() && destroyed
      ensures platform.tracks == AfterStop(old(platform.tracks), newTrack, now)
      ensures !isRunning && platform.alarm == None
      ensures platform.scratch == old(platform.scratch) - {TargetClassKey, TrackUriKey}
      ensures platform.notifications == map[]
      ensures old(Coherent()) && (old(isRunning) || old(NoneOpen(platform.tracks))) ==> NoneOpen(platform.tracks)
    {
      StopTrack(now);
      RemoveNotification();
      destroyed := true;
    }

    /** Every fix becomes one trackpoint of the current track id, whether or not a track
        is being recorded. */
    method OnLocationChanged(location: Location)
      modifies platform`points
      ensures platform.points ==
        old(platform.points) + [TrackPoint(trackId, location.coordinates, FixType(location.hasAltitude), satellitesCount, location.time)]
    {
      var fixType := FixType(location.hasAltitude);
      platform.InsertPoint(TrackPoint(trackId, location.coordinates, fixType, satellitesCount, location.time));
    }

    /** A satellite-status event recounts the satellites used in the fix; other GPS
        events leave the count alone. */
    method OnGpsStatusChanged(event: int, satellites: seq<Satellite>)
      modifies this`satellitesCount
      ensures event == GpsEventSatelliteStatus ==> satellitesCount == CountUsed(satellites)
      ensures event != GpsEventSatelliteStatus ==> satellitesCount == old(satellitesCount)
    {
      if event == GpsEventSatelliteStatus {
        satellitesCount := 0;
        for i := 0 to |satellites|
          invariant satellitesCount == CountUsed(satellites[..i])
        {
          assert satellites[..i + 1][..i] == satellites[..i];
          if satellites[i].usedInFix {
            satellitesCount := satellitesCount + 1;
          }
        }
        assert satellites[..|satellites|] == satellites;
      }
    }
  }
}
