/**
 * TracksActivity: the list of recorded tracks. The user checks rows, then deletes them,
 * shows or hides them on the map, or checks every row at once. Requests to the content
 * provider are returned as values rather than sent.
 */
module Tracks {
  import opened Wrappers
  import opened JavaText
  import opened TrackStore

  /** A row of the list as the cursor binds it: the id column as text and the visible flag. */
  datatype Row = Row(id: string, visible: bool)

  /** ContentResolver.update of one track URI, setting its visible column. */
  datatype VisibilityUpdate = VisibilityUpdate(uri: string, visible: bool)

  /** The outcome of the delete action: a toast, or a delete of the selected ids, after
      stopping the tracking service when it runs. */
  datatype DeleteOutcome =
    | NothingSelected
    | DeleteRequest(stopService: bool, selection: string, args: seq<string>)

  predicate NoDuplicates<T(==)>(s: seq<T>) {
    forall i, j | 0 <= i < j < |s| :: s[i] != s[j]
  }

  /** `s` written `n` times. */
  function Repeat(s: string, n: nat): (r: string)
    ensures |r| == n * |s|
  {
    if n == 0 then [] else Repeat(s, n - 1) + s
  }

  /** "?" followed by n - 1 copies of ",?": one SQL parameter per selected id. It has
      length 2n - 1, n parameters and n - 1 commas. */
  function Placeholders(n: nat): (r: string)
    requires n >= 1
    ensures |r| == 2 * n - 1
    ensures CountChar(r, '?') == n
    ensures CountChar(r, ',') == n - 1
  {
    RepeatCounts(n - 1);
    CountCharAppend("?", Repeat(",?", n - 1), '?');
    CountCharAppend("?", Repeat(",?", n - 1), ',');
    assert "?"[..0] == [];
    "?" + Repeat(",?", n - 1)
  }

  lemma {:induction false} RepeatCounts(n: nat)
    ensures CountChar(Repeat(",?", n), '?') == n
    ensures CountChar(Repeat(",?", n), ',') == n
  {
    if n > 0 {
      RepeatCounts(n - 1);
      CountCharAppend(Repeat(",?", n - 1), ",?", '?');
      CountCharAppend(Repeat(",?", n - 1), ",?", ',');
      assert ",?"[..1] == ",";
    }
  }

  /** The delete selection: `<id column> IN (?,?,…)`. Beyond any '?' in the column name,
      it has one parameter per selected id. */
  function Selection(idColumn: string, n: nat): (r: string)
    requires n >= 1
    ensures CountChar(r, '?') == CountChar(idColumn, '?') + n
  {
    var p := Placeholders(n);
    CountCharAppend(idColumn + " IN (" + p, ")", '?');
    CountCharAppend(idColumn + " IN (", p, '?');
    CountCharAppend(idColumn, " IN (", '?');
    NoCharNoCount(" IN (", '?');
    NoCharNoCount(")", '?');
    idColumn + " IN (" + p + ")"
  }

  /** The selection binds exactly one argument per selected id, when the column name has
      no '?' of its own. */
  lemma SelectionParameters(idColumn: string, n: nat)
    requires n >= 1 && '?' !in idColumn
    ensures CountChar(Selection(idColumn, n), '?') == n
  {
    NoCharNoCount(idColumn, '?');
  }

  lemma {:induction false} NoCharNoCount(s: string, c: char)
    requires c !in s
    ensures CountChar(s, c) == 0
  {
    if s != [] {
      NoCharNoCount(s[..|s| - 1], c);
    }
  }

  /** The first position of `x` in `s`. */
  function IndexOf<T(==)>(s: seq<T>, x: T): (i: nat)
    requires x in s
    ensures i < |s| && s[i] == x && x !in s[..i]
  {
    if s[0] == x then 0 else 1 + IndexOf(s[1..], x)
  }

  /** ArrayList.remove(Object): drops the first occurrence of `x`, if any, shifting the
      elements after it down by one. */
  function RemoveFirst<T(==)>(s: seq<T>, x: T): (r: seq<T>)
    ensures x !in s ==> r == s
    ensures x in s ==> |r| == |s| - 1 && r[..IndexOf(s, x)] == s[..IndexOf(s, x)]
  {
    if x in s then
      var i := IndexOf(s, x);
      s[..i] + s[i + 1..]
    else s
  }

  /** Position k of the list with position i removed is position Skip(k, i) of the list. */
  lemma RemovedPositions<T>(s: seq<T>, x: T)
    requires x in s
    ensures |RemoveFirst(s, x)| == |s| - 1
    ensures forall k | 0 <= k < |s| - 1 :: RemoveFirst(s, x)[k] == s[Skip(k, IndexOf(s, x))]
  {
    var i := IndexOf(s, x);
    var r := RemoveFirst(s, x);
    assert r == s[..i] + s[i + 1..];
    forall k | 0 <= k < |s| - 1
      ensures r[k] == s[Skip(k, i)]
    {
      if k < i {
        assert r[k] == s[..i][k];
      } else {
        assert r[k] == s[i + 1..][k - i];
      }
    }
  }

  /** Without duplicates, removing `x` leaves it absent, keeps every other element and
      keeps the list free of duplicates. */
  lemma RemoveFirstOfDistinct<T>(s: seq<T>, x: T)
    requires NoDuplicates(s)
    ensures x !in RemoveFirst(s, x)
    ensures NoDuplicates(RemoveFirst(s, x))
    ensures forall y | y != x :: y in RemoveFirst(s, x) <==> y in s
  {
    if x in s {
      RemovedPositions(s, x);
      var i := IndexOf(s, x);
      var r := RemoveFirst(s, x);
      forall k | 0 <= k < |r|
        ensures r[k] != x
      {
        assert r[k] == s[Skip(k, i)];
      }
      forall a, b | 0 <= a < b < |r|
        ensures r[a] != r[b]
      {
        assert r[a] == s[Skip(a, i)] && r[b] == s[Skip(b, i)];
      }
      forall y | y != x && y in s
        ensures y in r
      {
        var k := IndexOf(s, y);
        var j := if k < i then k else k - 1;
        assert r[j] == s[Skip(j, i)];
      }
    }
  }

  /** The position in the original list of position k after removing position i. */
  function Skip(k: int, i: int): int {
    if k < i then k else k + 1
  }

  /** The row positions whose checked visibility differs from the requested one. */
  predicate Toggles(rows: seq<Row>, checked: set<int>, isShow: bool, i: int) {
    0 <= i < |rows| && i in checked && rows[i].visible != isShow
  }

  /** Uri.withAppendedPath of the tracks URI and a row id: the id becomes the URI's last
      path segment. */
  function RowUri(tracksUri: string, id: string): (r: string)
    ensures id != [] && '/' !in id ==> LastPathSegment(r) == Some(id)
  {
    var r := tracksUri + "/" + id;
    if id != [] && '/' !in id then
      LastPathSegmentOfAppended(tracksUri, id);
      r
    else r
  }

  /** The visibility action's updates, in row order: one per checked row whose visibility
      differs from the requested one, setting it to the requested one. */
  function Toggled(tracksUri: string, rows: seq<Row>, checked: set<int>, isShow: bool): (r: seq<VisibilityUpdate>)
    ensures |r| <= |rows|
    ensures forall u | u in r :: u.visible == isShow
  {
    if rows == [] then []
    else
      var n := |rows| - 1;
      Toggled(tracksUri, rows[..n], checked, isShow) +
        if Toggles(rows, checked, isShow, n) then [VisibilityUpdate(RowUri(tracksUri, rows[n].id), isShow)] else []
  }

  /** Each update sets the requested visibility on a row that needed it, and every row that
      needed it gets an update. */
  lemma {:induction false} ToggledExactly(tracksUri: string, rows: seq<Row>, checked: set<int>, isShow: bool)
    ensures forall u | u in Toggled(tracksUri, rows, checked, isShow) ::
      u.visible == isShow &&
      exists i | 0 <= i < |rows| :: Toggles(rows, checked, isShow, i) && u.uri == RowUri(tracksUri, rows[i].id)
    ensures forall i | Toggles(rows, checked, isShow, i) ::
      VisibilityUpdate(RowUri(tracksUri, rows[i].id), isShow) in Toggled(tracksUri, rows, checked, isShow)
    decreases |rows|
  {
    if rows != [] {
      var n := |rows| - 1;
      var front := rows[..n];
      ToggledExactly(tracksUri, front, checked, isShow);
      forall i | 0 <= i < n
        ensures Toggles(front, checked, isShow, i) <==> Toggles(rows, checked, isShow, i)
        ensures front[i] == rows[i]
      {
      }
    }
  }

  /** A row whose id is the text of track id k is updated through the same URI the service
      stores for track k. */
  lemma RowUriIsTrackUri(authority: string, k: int)
    ensures RowUri("content://" + authority + "/tracks", IntToString(k)) == TrackUri(authority, k)
    ensures IdOfUri(RowUri("content://" + authority + "/tracks", IntToString(k))) == Some(k)
  {
    TrackUriRoundTrip(authority, k);
  }

  /** The id-to-position map: each item id goes to the last position holding it. */
  function PositionMap(itemIds: seq<int>): (r: map<int, int>)
    ensures forall k | k in r :: 0 <= r[k] < |itemIds| && itemIds[r[k]] == k
  {
    if itemIds == [] then map[]
    else
      var n := |itemIds| - 1;
      PositionMap(itemIds[..n])[itemIds[n] := n]
  }

  lemma {:induction false} PositionMapLastOccurrence(itemIds: seq<int>)
    ensures PositionMap(itemIds).Keys == set i | 0 <= i < |itemIds| :: itemIds[i]
    ensures forall k | k in PositionMap(itemIds) ::
      var p := PositionMap(itemIds)[k];
      0 <= p < |itemIds| && itemIds[p] == k && forall j | p < j < |itemIds| :: itemIds[j] != k
    decreases |itemIds|
  {
    if itemIds != [] {
      var n := |itemIds| - 1;
      PositionMapLastOccurrence(itemIds[..n]);
      assert forall i | 0 <= i < n :: itemIds[..n][i] == itemIds[i];
    }
  }

  /** With distinct item ids, the map sends the id at each position back to that position. */
  lemma PositionMapInverts(itemIds: seq<int>)
    requires NoDuplicates(itemIds)
    ensures forall i | 0 <= i < |itemIds| :: itemIds[i] in PositionMap(itemIds) && PositionMap(itemIds)[itemIds[i]] == i
  {
    PositionMapLastOccurrence(itemIds);
    forall i | 0 <= i < |itemIds|
      ensures itemIds[i] in PositionMap(itemIds) && PositionMap(itemIds)[itemIds[i]] == i
    {
      assert itemIds[i] in PositionMap(itemIds).Keys;
    }
  }

  class TracksActivity {
    /** The content URI of the tracks table. */
    const tracksUri: string
    /** The name of the tracks table's id column. */
    const idColumn: string

    /** The ids of the checked tracks, in the order they were checked. */
    var ids: seq<string>
    /** What select-all sets every row to next. */
    var selectState: bool
    /** The list view's checked positions. */
    var checkedPositions: set<int>
    /** Item id to list position, rebuilt on every load. */
    var positions: map<int, int>

    ghost predicate Valid()
      reads this
    {
      NoDuplicates(ids)
    }

    constructor (tracksUri: string, idColumn: string, saved: Option<seq<string>>)
      requires saved.Some? ==> NoDuplicates(saved.value)
      ensures Valid()
      ensures this.tracksUri == tracksUri && this.idColumn == idColumn
      ensures ids == if saved.Some? then saved.value else []
      ensures !selectState && checkedPositions == {} && positions == map[]
    {
      this.tracksUri, this.idColumn := tracksUri, idColumn;
      ids := if saved.Some? then saved.value else [];
      selectState, checkedPositions, positions := false, {}, map[];
    }

    /** The id list mirrors the checkbox: a checked id is present exactly once, appended
        only when absent; an unchecked one is removed, the others keeping their order. */
    method UpdateSelectedItems(isChecked: bool, id: string)
      requires Valid()
      modifies this`ids
      ensures Valid()
      ensures isChecked ==> ids == if id in old(ids) then old(ids) else old(ids) + [id]
      ensures !isChecked ==> ids == RemoveFirst(old(ids), id)
      ensures id in ids <==> isChecked
      ensures forall other | other != id :: other in ids <==> other in old(ids)
    {
      if isChecked {
        if id !in ids {
          ids := ids + [id];
        }
      } else {
        RemoveFirstOfDistinct(ids, id);
        ids := RemoveFirst(ids, id);
      }
    }

    /** A click on a row flips its checkbox, which shows whether its id is selected. */
    method OnItemClick(position: int, id: string)
      requires Valid()
      modifies this`ids, this`checkedPositions
      ensures Valid()
      ensures ids == if id in old(ids) then RemoveFirst(old(ids), id) else old(ids) + [id]
      ensures id in ids <==> id !in old(ids)
      ensures forall other | other != id :: other in ids <==> other in old(ids)
      ensures checkedPositions == if id in ids then old(checkedPositions) + {position} else old(checkedPositions) - {position}
    {
      var isChecked := id !in ids;
      UpdateSelectedItems(isChecked, id);
      checkedPositions := if isChecked then checkedPositions + {position} else checkedPositions - {position};
    }

    /** setSelection: clicks every row whose checkbox differs from selectState. */
    method SetSelection(rowIds: seq<string>)
      requires Valid() && NoDuplicates(rowIds)
      modifies this`ids, this`checkedPositions
      ensures Valid()
      ensures forall i | 0 <= i < |rowIds| :: rowIds[i] in ids <==> selectState
      ensures forall x | x !in rowIds :: x in ids <==> x in old(ids)
      ensures forall p | 0 <= p < |rowIds| && (rowIds[p] in old(ids)) != selectState :: p in checkedPositions <==> selectState
      ensures forall p | !(0 <= p < |rowIds| && (rowIds[p] in old(ids)) != selectState) ::
        p in checkedPositions <==> p in old(checkedPositions)
    {
      for i := 0 to |rowIds|
        invariant Valid()
        invariant forall k | 0 <= k < i :: rowIds[k] in ids <==> selectState
        invariant forall k | i <= k < |rowIds| :: rowIds[k] in ids <==> rowIds[k] in old(ids)
        invariant forall x | x !in rowIds :: x in ids <==> x in old(ids)
        invariant forall p | 0 <= p < i && (rowIds[p] in old(ids)) != selectState :: p in checkedPositions <==> selectState
        invariant forall p | !(0 <= p < i && (rowIds[p] in old(ids)) != selectState) ::
          p in checkedPositions <==> p in old(checkedPositions)
      {
        if selectState != (rowIds[i] in ids) {
          OnItemClick(i, rowIds[i]);
        }
      }
    }

    /** Select-all flips selectState, then brings every row's checkbox to it. */
    method OnSelectAll(rowIds: seq<string>)
      requires Valid() && NoDuplicates(rowIds)
      modifies this`selectState, this`ids, this`checkedPositions
      ensures Valid()
      ensures selectState == !old(selectState)
      ensures forall i | 0 <= i < |rowIds| :: rowIds[i] in ids <==> selectState
      ensures forall x | x !in rowIds :: x in ids <==> x in old(ids)
      ensures forall p | 0 <= p < |rowIds| && (rowIds[p] in old(ids)) != selectState :: p in checkedPositions <==> selectState
      ensures forall p | !(0 <= p < |rowIds| && (rowIds[p] in old(ids)) != selectState) ::
        p in checkedPositions <==> p in old(checkedPositions)
    {
      selectState := !selectState;
      SetSelection(rowIds);
    }

    /** makePlaceholders: one "?" per selected id, comma-separated. */
    method MakePlaceholders() returns (r: string)
      requires |ids| >= 1
      ensures r == Placeholders(|ids|)
      ensures |r| == 2 * |ids| - 1 && CountChar(r, '?') == |ids|
    {
      r := "?";
      for i := 1 to |ids|
        invariant r == "?" + Repeat(",?", i - 1)
      {
        r := r + ",?";
      }
    }

    /** The delete action: with ids selected, stop a running tracker, delete those ids and
        clear the selection; with none, only a toast. */
    method OnDelete(serviceRunning: bool) returns (outcome: DeleteOutcome)
      requires Valid()
      modifies this`ids
      ensures Valid()
      ensures old(ids) == [] ==> outcome == NothingSelected && ids == old(ids)
      ensures old(ids) != [] ==>
        && outcome == DeleteRequest(serviceRunning, Selection(idColumn, |old(ids)|), old(ids))
        && ids == []
      ensures '?' !in idColumn && outcome.DeleteRequest? ==> CountChar(outcome.selection, '?') == |outcome.args|
    {
      if |ids| > 0 {
        var placeholders := MakePlaceholders();
        var selection := idColumn + " IN (" + placeholders + ")";
        outcome := DeleteRequest(serviceRunning, selection, ids);
        if '?' !in idColumn {
          SelectionParameters(idColumn, |ids|);
        }
        ids := [];
      } else {
        outcome := NothingSelected;
      }
    }

    /** The show/hide action: for each checked row whose visibility differs from the
        requested one, the click on its eye icon updates the row. */
    method OnVisibility(isShow: bool, rows: seq<Row>) returns (updates: seq<VisibilityUpdate>)
      ensures updates == Toggled(tracksUri, rows, checkedPositions, isShow)
    {
      updates := [];
      for i := 0 to |rows|
        invariant updates == Toggled(tracksUri, rows[..i], checkedPositions, isShow)
      {
        assert rows[..i + 1][..i] == rows[..i];
        if i in checkedPositions {
          if isShow {
            if !rows[i].visible {
              updates := updates + [VisibilityUpdate(RowUri(tracksUri, rows[i].id), !rows[i].visible)];
            }
          } else {
            if rows[i].visible {
              updates := updates + [VisibilityUpdate(RowUri(tracksUri, rows[i].id), !rows[i].visible)];
            }
          }
        }
      }
      assert rows[..|rows|] == rows;
    }

    /** onLoadFinished: maps the item id at each position to that position. */
    method OnLoadFinished(itemIds: seq<int>)
      modifies this`positions
      ensures positions == PositionMap(itemIds)
    {
      positions := map[];
      for i := 0 to |itemIds|
        invariant positions == PositionMap(itemIds[..i])
      {
        assert itemIds[..i + 1][..i] == itemIds[..i];
        positions := positions[itemIds[i] := i];
      }
      assert itemIds[..|itemIds|] == itemIds;
    }
  }
}
