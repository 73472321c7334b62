/**
 * The durable platform state the tracking service works against and that outlives any one
 * service instance: the tracks and trackpoints tables behind the content provider, the
 * "tracks_temp" scratch preferences, the pending split alarm and the posted notifications.
 */
module TrackStore {
  import opened Wrappers
  import opened JavaText

  /** One row of the tracks table. `end` is None when the column is NULL or ''. */
  datatype Track = Track(name: string, start: int, end: Option<int>, visible: bool)

  /** Coordinates and altitude of a fix; the core only copies them. */
  datatype Coordinates = Coordinates(lon: real, lat: real, ele: real)

  /** One row of the trackpoints table; `session` is the track id as text, or NULL. */
  datatype TrackPoint = TrackPoint(session: Option<string>, coordinates: Coordinates, fix: string, sat: int, timestamp: int)

  /** The columns getLastTrack projects from the row with the largest id. */
  datatype LastTrack = LastTrack(name: string, end: Option<int>)

  /** The activity a notification's "open" action launches. */
  datatype Target = DefaultTarget | ActivityTarget(className: string)

  /** A posted notification: its title shows the track name, `open` is the content intent (null before initTargetIntent). */
  datatype Notification = Notification(trackName: Option<string>, open: Option<Target>)

  /** Ids are allocated from a counter, as an AUTOINCREMENT key is: every id lies in [1, bound). */
  ghost predicate IdsBelow(tracks: map<int, Track>, bound: int) {
    forall id | id in tracks :: 1 <= id < bound
  }

  /** The largest id below `n`, scanning down from `n - 1` to 1. */
  function {:induction false} MaxIdBelow(tracks: map<int, Track>, n: int): (r: Option<int>)
    ensures r.Some? ==> r.value in tracks && 1 <= r.value < n
    ensures r.Some? ==> forall id | id in tracks && id < n :: id <= r.value
    ensures r.None? ==> forall id | id in tracks :: !(1 <= id < n)
    decreases n
  {
    if n <= 1 then None
    else if n - 1 in tracks then Some(n - 1)
    else MaxIdBelow(tracks, n - 1)
  }

  /** The id `SELECT MAX(_id) FROM tracks` yields. */
  function LastIdIn(tracks: map<int, Track>, bound: int): (r: Option<int>)
    requires IdsBelow(tracks, bound)
    ensures r.None? <==> tracks == map[]
    ensures r.Some? ==> r.value in tracks && forall id | id in tracks :: id <= r.value
  {
    var r := MaxIdBelow(tracks, bound);
    assert r.None? ==> tracks.Keys == {};
    r
  }

  /** getLastTrack: the end and name of the row whose id is the largest, if any. */
  function LastTrackIn(tracks: map<int, Track>, bound: int): (r: Option<LastTrack>)
    requires IdsBelow(tracks, bound)
    ensures r.Some? <==> tracks != map[]
    ensures r.Some? ==> var t := tracks[LastIdIn(tracks, bound).value]; r.value == LastTrack(t.name, t.end)
  {
    match LastIdIn(tracks, bound)
    case None => None
    case Some(id) => Some(LastTrack(tracks[id].name, tracks[id].end))
  }

  /** The content URI the provider returns for the track with the given id. */
  function TrackUri(authority: string, id: int): string {
    "content://" + authority + "/tracks/" + IntToString(id)
  }

  /** The row id a track URI designates, as the provider reads it from the last path segment. */
  function IdOfUri(uri: string): Option<int> {
    match LastPathSegment(uri)
    case Some(seg) => ParseInteger(seg)
    case None => None
  }

  lemma TrackUriRoundTrip(authority: string, id: int)
    ensures LastPathSegment(TrackUri(authority, id)) == Some(IntToString(id))
    ensures IdOfUri(TrackUri(authority, id)) == Some(id)
  {
    assert TrackUri(authority, id) == ("content://" + authority + "/tracks") + "/" + IntToString(id);
    LastPathSegmentOfAppended("content://" + authority + "/tracks", IntToString(id));
    ParseIntegerOfIntToString(id);
  }

  /** `UPDATE tracks SET end = now WHERE _id = id AND (end IS NULL OR end = '')`. */
  function EndOpenTrack(tracks: map<int, Track>, id: Option<int>, now: int): (r: map<int, Track>)
    ensures r.Keys == tracks.Keys
    ensures forall k | k in tracks && (Some(k) != id || tracks[k].end.Some?) :: r[k] == tracks[k]
    ensures id.Some? && id.value in tracks && tracks[id.value].end.None? ==>
              r[id.value] == tracks[id.value].(end := Some(now))
  {
    if id.Some? && id.value in tracks && tracks[id.value].end.None? then
      tracks[id.value := tracks[id.value].(end := Some(now))]
    else tracks
  }

  /** SharedPreferences.getString(key, default). */
  function GetString(prefs: map<string, string>, key: string, default: string): (r: string)
    ensures key in prefs ==> r == prefs[key]
    ensures key !in prefs ==> r == default
  {
    if key in prefs then prefs[key] else default
  }

  /** SharedPreferences.Editor.putString: storing null removes the key. */
  function PutString(prefs: map<string, string>, key: string, value: Option<string>): (r: map<string, string>)
    ensures value.Some? ==> r == prefs[key := value.value]
    ensures value.None? ==> r == prefs - {key}
  {
    match value
    case Some(v) => prefs[key := v]
    case None => prefs - {key}
  }

  /** Reading back what putString stored: the value, or the default after storing null;
      every other key reads as before. */
  lemma GetAfterPutString(prefs: map<string, string>, key: string, value: Option<string>, other: string, default: string)
    ensures GetString(PutString(prefs, key, value), key, default) == if value.Some? then value.value else default
    ensures other != key ==> GetString(PutString(prefs, key, value), other, default) == GetString(prefs, other, default)
  {
  }

  class Platform {
    var tracks: map<int, Track>
    var nextId: int
    var points: seq<TrackPoint>
    var scratch: map<string, string>
    var alarm: Option<int>
    var notifications: map<int, Notification>

    ghost predicate Valid()
      reads this
    {
      1 <= nextId && IdsBelow(tracks, nextId)
    }

    /** A freshly installed application: empty tables, no scratch data, nothing pending. */
    constructor ()
      ensures Valid()
      ensures tracks == map[] && points == [] && scratch == map[]
      ensures alarm == None && notifications == map[]
    {
      tracks, nextId, points, scratch := map[], 1, [], map[];
      alarm, notifications := None, map[];
    }

    /** The id of the last track: the largest id in the table. */
    function LastTrackId(): (r: Option<int>)
      reads this
      requires Valid()
    {
      LastIdIn(tracks, nextId)
    }

    /** getLastTrack, run against the current table. */
    function QueryLastTrack(): (r: Option<LastTrack>)
      reads this
      requires Valid()
      ensures r.Some? <==> tracks != map[]
      ensures r.Some? ==> var t := tracks[LastTrackId().value]; r.value == LastTrack(t.name, t.end)
    {
      LastTrackIn(tracks, nextId)
    }

    /** ContentResolver.insert into the tracks table; returns the new row's id. */
    method InsertTrack(t: Track) returns (id: int)
      requires Valid()
      modifies this`tracks, this`nextId
      ensures Valid()
      ensures id == old(nextId) && id !in old(tracks) && nextId == id + 1
      ensures tracks == old(tracks)[id := t]
      ensures LastTrackId() == Some(id)
    {
      id := nextId;
      tracks := tracks[id := t];
      nextId := nextId + 1;
      assert id in tracks;
    }

    /** ContentResolver.update of a track URI with `end IS NULL OR end = ''` as selection. */
    method EndTrack(uri: string, now: int)
      requires Valid()
      modifies this`tracks
      ensures Valid()
      ensures tracks == EndOpenTrack(old(tracks), IdOfUri(uri), now)
    {
      tracks := EndOpenTrack(tracks, IdOfUri(uri), now);
    }

    /** ContentResolver.insert into the trackpoints table. */
    method InsertPoint(p: TrackPoint)
      modifies this`points
      ensures points == old(points) + [p]
    {
      points := points + [p];
    }
  }
}
