/**
 * Saving the uploaded screenshots of one request, and its compensating clean-up: objects live in
 * the attachment storage and their metadata in the repository, and either can fail
 * (apps/api/src/attachments/session-attachments.service.ts, lines 28 to 109).
 * Which calls fail is an input of every operation.
 */
module Attachments {
  import opened Common

  const MAX_SCREENSHOT_COUNT := 4
  const MAX_SCREENSHOT_BYTES := 5 * 1024 * 1024

  datatype ImageType = ImageType(extension: string, mimeType: string)

  /** An uploaded file; `detected` is the image type that its first and last bytes show. */
  datatype Upload = Upload(body: string, size: int, mimetype: string, detected: Option<ImageType>, originalName: string)

  datatype Request = Request(sessionId: string, userId: string, purpose: string, visibility: string)

  datatype Row = Row(
    id: string, request: Request, objectKey: string, originalName: string, mimeType: string, byteSize: int)

  datatype Location = Location(visibility: string, objectKey: string)

  datatype Store = Store(objects: map<Location, string>, rows: map<string, Row>)

  /** What happens to one file: saved; not put; or put, without a row, and then taken back or not. */
  datatype Outcome = Saved | PutFailed | RowFailed(objectDeleted: bool)

  datatype Failure = Invalid | SaveFailed

  predicate ValidUpload(f: Upload) {
    && 0 < f.size <= MAX_SCREENSHOT_BYTES && 0 < |f.body| <= MAX_SCREENSHOT_BYTES
    && f.detected.Some? && f.detected.value.mimeType == f.mimetype
  }

  predicate ValidUploads(files: seq<Upload>) {
    |files| <= MAX_SCREENSHOT_COUNT && forall i :: 0 <= i < |files| ==> ValidUpload(files[i])
  }

  function ObjectKey(request: Request, id: string, extension: string): string {
    "sessions/" + request.sessionId + "/" + request.purpose + "/" + id + "." + extension
  }

  function RowFor(request: Request, file: Upload, id: string): Row
    requires file.detected.Some?
  {
    Row(id, request, ObjectKey(request, id, file.detected.value.extension), file.originalName,
        file.detected.value.mimeType, file.size)
  }

  function LocationOf(row: Row): Location {
    Location(row.request.visibility, row.objectKey)
  }

  /** The rows of the first files. */
  function RowsFor(request: Request, files: seq<Upload>, ids: seq<string>, n: nat): (rows: seq<Row>)
    requires n <= |files| && n <= |ids| && ValidUploads(files)
    ensures |rows| == n && forall i :: 0 <= i < n ==> rows[i] == RowFor(request, files[i], ids[i])
  {
    seq(n, i requires 0 <= i < n => RowFor(request, files[i], ids[i]))
  }

  /** The store with the first rows and their objects added. */
  function WithRows(s: Store, rows: seq<Row>, files: seq<Upload>, n: nat): Store
    requires n <= |rows| && n <= |files|
  {
    if n == 0 then s
    else
      var t := WithRows(s, rows, files, n - 1);
      Store(t.objects[LocationOf(rows[n - 1]) := files[n - 1].body], t.rows[rows[n - 1].id := rows[n - 1]])
  }

  function DeletedIds(rows: seq<Row>, deletes: seq<bool>): seq<string>
    requires |deletes| == |rows|
  {
    if rows == [] then []
    else (if deletes[0] then [rows[0].id] else []) + DeletedIds(rows[1..], deletes[1..])
  }

  function Elements<T>(s: seq<T>): set<T> {
    set x | x in s
  }

  function DeletedLocations(rows: seq<Row>, deletes: seq<bool>): set<Location>
    requires |deletes| == |rows|
  {
    set i | 0 <= i < |rows| && deletes[i] :: LocationOf(rows[i])
  }

  /** Removing attachments: the metadata of exactly those whose object went goes too, if that call succeeds. */
  function Removed(s: Store, rows: seq<Row>, deletes: seq<bool>, rowsDeleted: bool): Store
    requires |deletes| == |rows|
  {
    Store(s.objects - DeletedLocations(rows, deletes),
          if rowsDeleted then s.rows - Elements(DeletedIds(rows, deletes)) else s.rows)
  }

  /** The number of files saved before the first failure. */
  function SavedCount(outcomes: seq<Outcome>): (n: nat)
    ensures n <= |outcomes|
    ensures forall i :: 0 <= i < n ==> outcomes[i].Saved?
    ensures n < |outcomes| ==> !outcomes[n].Saved?
  {
    if outcomes == [] || !outcomes[0].Saved? then 0 else 1 + SavedCount(outcomes[1..])
  }

  /** The storage and repository as one service uses them. */
  class SessionAttachmentsService {
    var objects: map<Location, string>
    var rows: map<string, Row>

    constructor ()
      ensures View() == Store(map[], map[])
    {
      objects, rows := map[], map[];
    }

    function View(): Store
      reads this
    {
      Store(objects, rows)
    }

    method Remove(attachments: seq<Row>, deletes: seq<bool>, rowsDeleted: bool) returns (done: bool)
      requires |deletes| == |attachments|
      modifies this
      ensures View() == Removed(old(View()), attachments, deletes, rowsDeleted)
      ensures done <==> rowsDeleted || DeletedIds(attachments, deletes) == []
    {
      hide LocationOf, Elements, DeletedLocations, DeletedIds, Removed;
      var deletedIds := [];
      assert objects - {} == objects;
      NoDeletes(attachments[..0], deletes[..0]);
      assert attachments[0..] == attachments && deletes[0..] == deletes;
      ghost var gone := {};
      for n := 0 to |attachments|
        invariant rows == old(rows)
        invariant gone == DeletedLocations(attachments[..n], deletes[..n]) && objects == old(objects) - gone
        invariant DeletedIds(attachments, deletes) == deletedIds + DeletedIds(attachments[n..], deletes[n..])
      {
        DeletedLocationsNext(attachments, deletes, n);
        DeletedIdsNext(attachments, deletes, n);
        ghost var last := if deletes[n] then {LocationOf(attachments[n])} else {};
        MinusBoth(old(objects), gone, last);
        gone := gone + last;
        if deletes[n] {
          objects := objects - {LocationOf(attachments[n])};
          deletedIds := deletedIds + [attachments[n].id];
        }
      }
      assert attachments[..|attachments|] == attachments && deletes[..|attachments|] == deletes;
      NoDeletes(attachments[|attachments|..], deletes[|attachments|..]);
      assert deletedIds == DeletedIds(attachments, deletes);
      RemovedIs(old(View()), attachments, deletes, rowsDeleted);
      done := true;
      if |deletedIds| > 0 {
        done := rowsDeleted;
        if rowsDeleted {
          rows := rows - Elements(deletedIds);
        }
      }
    }

    /** Saves the files in order, up to the first failure. */
    method SaveFiles(request: Request, files: seq<Upload>, ids: seq<string>, outcomes: seq<Outcome>)
      returns (created: seq<Row>)
      requires |ids| == |files| && |outcomes| == |files| && ValidUploads(files)
      modifies this
      ensures created == RowsFor(request, files, ids, SavedCount(outcomes))
      ensures View() == AfterSaving(old(View()), request, files, ids, outcomes)
    {
      assert RowsFor(request, files, ids, 0) == [];
      hide ObjectKey, LocationOf, RowsFor, RowFor;
      created := [];
      while |created| < |files| && outcomes[|created|].Saved?
        invariant |created| <= SavedCount(outcomes) && created == RowsFor(request, files, ids, |created|)
        invariant View() == WithRows(old(View()), created, files, |created|)
        decreases |files| - |created|
      {
        var n := |created|;
        var row := RowFor(request, files[n], ids[n]);
        WithRowsNext(old(View()), created, row, files);
        RowsForNext(request, files, ids, n);
        objects := objects[LocationOf(row) := files[n].body];
        rows := rows[row.id := row];
        created := created + [row];
      }
      hide WithRows;
      var n := |created|;
      if n < |files| && outcomes[n].RowFailed? {
        var at := LocationOf(RowFor(request, files[n], ids[n]));
        objects := objects[at := files[n].body];
        if outcomes[n].objectDeleted {
          objects := objects - {at};
        }
      }
    }

    /** Saves the files; after a failure, takes back what was saved. */
    method Create(
        request: Request, files: seq<Upload>, ids: seq<string>, outcomes: seq<Outcome>,
        deletes: seq<bool>, rowsDeleted: bool)
      returns (r: Result<seq<Row>, Failure>)
      requires |ids| == |files| && |outcomes| == |files| && |deletes| == SavedCount(outcomes)
      modifies this
      ensures !ValidUploads(files) ==> r == Err(Invalid) && View() == old(View())
      ensures ValidUploads(files) ==>
                && View() == AfterCreate(old(View()), request, files, ids, outcomes, deletes, rowsDeleted)
                && r == if SavedCount(outcomes) == |files| then Ok(RowsFor(request, files, ids, |files|))
                        else Err(SaveFailed)
    {
      if !ValidUploads(files) {
        return Err(Invalid);
      }
      hide RowsFor, RowFor, WithRows, Leftover, Removed;
      var created := SaveFiles(request, files, ids, outcomes);
      if |created| == |files| {
        return Ok(created);
      }
      var _ := Remove(created, deletes, rowsDeleted);
      r := Err(SaveFailed);
    }
  }

  lemma RemovedIs(s: Store, rows: seq<Row>, deletes: seq<bool>, rowsDeleted: bool)
    requires |deletes| == |rows|
    ensures var after := Removed(s, rows, deletes, rowsDeleted);
            && after.objects == s.objects - DeletedLocations(rows, deletes)
            && after.rows == if rowsDeleted && DeletedIds(rows, deletes) != []
                             then s.rows - Elements(DeletedIds(rows, deletes)) else s.rows
  {
    assert Elements<string>([]) == {} && s.rows - {} == s.rows;
  }

  lemma MinusBoth<K, V>(m: map<K, V>, a: set<K>, b: set<K>)
    ensures m - (a + b) == m - a - b
  {
  }

  lemma NoDeletes(rows: seq<Row>, deletes: seq<bool>)
    requires rows == [] && deletes == []
    ensures DeletedIds(rows, deletes) == [] && DeletedLocations(rows, deletes) == {}
  {
  }

  lemma DeletedIdsNext(rows: seq<Row>, deletes: seq<bool>, n: nat)
    requires |deletes| == |rows| && n < |rows|
    ensures DeletedIds(rows[n..], deletes[n..]) ==
            (if deletes[n] then [rows[n].id] else []) + DeletedIds(rows[n + 1..], deletes[n + 1..])
  {
    assert rows[n..][1..] == rows[n + 1..] && deletes[n..][1..] == deletes[n + 1..];
  }

  lemma DeletedLocationsNext(rows: seq<Row>, deletes: seq<bool>, n: nat)
    requires |deletes| == |rows| && n < |rows|
    ensures DeletedLocations(rows[..n + 1], deletes[..n + 1]) ==
            DeletedLocations(rows[..n], deletes[..n]) + if deletes[n] then {LocationOf(rows[n])} else {}
  {
    var a, b := DeletedLocations(rows[..n + 1], deletes[..n + 1]), DeletedLocations(rows[..n], deletes[..n]);
    forall l
      ensures l in a <==> l in b || (deletes[n] && l == LocationOf(rows[n]))
    {
      if l in b {
        var i :| 0 <= i < n && deletes[..n][i] && l == LocationOf(rows[..n][i]);
        assert deletes[..n + 1][i] && l == LocationOf(rows[..n + 1][i]);
      }
      if deletes[n] && l == LocationOf(rows[n]) {
        assert deletes[..n + 1][n] && l == LocationOf(rows[..n + 1][n]);
      }
    }
  }

  lemma RowsForNext(request: Request, files: seq<Upload>, ids: seq<string>, n: nat)
    requires n < |files| && n < |ids| && ValidUploads(files)
    ensures RowsFor(request, files, ids, n + 1) == RowsFor(request, files, ids, n) + [RowFor(request, files[n], ids[n])]
  {
  }

  lemma WithRowsNext(s: Store, rows: seq<Row>, row: Row, files: seq<Upload>)
    requires |rows| < |files|
    ensures var t := WithRows(s, rows, files, |rows|);
            WithRows(s, rows + [row], files, |rows| + 1)
            == Store(t.objects[LocationOf(row) := files[|rows|].body], t.rows[row.id := row])
  {
    WithRowsPrefix(s, rows, rows + [row], files, |rows|);
    hide LocationOf;
  }

  lemma {:induction false} WithRowsPrefix(s: Store, a: seq<Row>, b: seq<Row>, files: seq<Upload>, n: nat)
    requires n <= |a| && a <= b && n <= |files|
    ensures WithRows(s, a, files, n) == WithRows(s, b, files, n)
  {
    if n > 0 {
      WithRowsPrefix(s, a, b, files, n - 1);
    }
  }

  /** The object of a file whose row failed, while it is still there. */
  function Leftover(s: Store, request: Request, file: Upload, id: string, outcome: Outcome): Store
    requires file.detected.Some?
  {
    var at := LocationOf(RowFor(request, file, id));
    match outcome
    case Saved => s
    case PutFailed => s
    case RowFailed(deleted) => s.(objects := if deleted then s.objects - {at} else s.objects[at := file.body])
  }

  /** The store after the files up to the first failure. */
  function AfterSaving(s: Store, request: Request, files: seq<Upload>, ids: seq<string>, outcomes: seq<Outcome>): Store
    requires |ids| == |files| && |outcomes| == |files| && ValidUploads(files)
  {
    var n := SavedCount(outcomes);
    var saved := WithRows(s, RowsFor(request, files, ids, n), files, n);
    if n == |files| then saved else Leftover(saved, request, files[n], ids[n], outcomes[n])
  }

  function AfterCreate(
      s: Store, request: Request, files: seq<Upload>, ids: seq<string>, outcomes: seq<Outcome>,
      deletes: seq<bool>, rowsDeleted: bool): Store
    requires |ids| == |files| && |outcomes| == |files| && |deletes| == SavedCount(outcomes) && ValidUploads(files)
  {
    var n := SavedCount(outcomes);
    var saved := AfterSaving(s, request, files, ids, outcomes);
    if n == |files| then saved else Removed(saved, RowsFor(request, files, ids, n), deletes, rowsDeleted)
  }

  // ---- What a run of Create leaves behind

  /** Identifiers are UUIDs that name nothing in the store yet. */
  ghost predicate Fresh(s: Store, request: Request, files: seq<Upload>, ids: seq<string>)
    requires |ids| == |files| && ValidUploads(files)
  {
    && (forall i :: 0 <= i < |ids| ==> |ids[i]| == 36 && ids[i] !in s.rows)
    && (forall i :: 0 <= i < |ids| ==> LocationOf(RowFor(request, files[i], ids[i])) !in s.objects)
    && (forall i, j :: 0 <= i < j < |ids| ==> ids[i] != ids[j])
  }

  lemma KeysDiffer(request: Request, a: string, extA: string, b: string, extB: string)
    requires |a| == |b| && a != b
    ensures ObjectKey(request, a, extA) != ObjectKey(request, b, extB)
  {
    var prefix := "sessions/" + request.sessionId + "/" + request.purpose + "/";
    var ka, kb := ObjectKey(request, a, extA), ObjectKey(request, b, extB);
    assert ka == prefix + (a + "." + extA) && kb == prefix + (b + "." + extB);
    assert ka[|prefix|..][..|a|] == a && kb[|prefix|..][..|b|] == b;
  }

  /** No two of the rows share an identifier or a place, and none of them is in the store. */
  predicate NewRows(s: Store, rows: seq<Row>) {
    && (forall i :: 0 <= i < |rows| ==> rows[i].id !in s.rows && LocationOf(rows[i]) !in s.objects)
    && (forall i, j :: 0 <= i < j < |rows| ==> rows[i].id != rows[j].id && LocationOf(rows[i]) != LocationOf(rows[j]))
  }

  lemma FreshRows(s: Store, request: Request, files: seq<Upload>, ids: seq<string>, n: nat)
    requires |ids| == |files| && ValidUploads(files) && Fresh(s, request, files, ids) && n <= |files|
    ensures NewRows(s, RowsFor(request, files, ids, n))
  {
    var rows := RowsFor(request, files, ids, n);
    forall i, j | 0 <= i < j < |rows|
      ensures rows[i].id != rows[j].id && LocationOf(rows[i]) != LocationOf(rows[j])
    {
      KeysDiffer(request, ids[i], files[i].detected.value.extension, ids[j], files[j].detected.value.extension);
    }
  }

  ghost predicate AddsObjects(before: map<Location, string>, rows: seq<Row>, after: map<Location, string>) {
    && (forall l :: l in after <==> l in before || PlaceOf(rows, l))
    && (forall l :: l in before ==> l in after && after[l] == before[l])
  }

  ghost predicate AddsRows(before: map<string, Row>, rows: seq<Row>, after: map<string, Row>) {
    && (forall id :: id in after <==> id in before || IdOf(rows, id))
    && (forall id :: id in before ==> id in after && after[id] == before[id])
    && (forall i :: 0 <= i < |rows| ==> rows[i].id in after && after[rows[i].id] == rows[i])
  }

  /** `t` holds `rows` and their objects besides what is in `s`. */
  ghost predicate Extends(s: Store, rows: seq<Row>, t: Store) {
    AddsObjects(s.objects, rows, t.objects) && AddsRows(s.rows, rows, t.rows)
  }

  predicate PlaceOf(rows: seq<Row>, l: Location) {
    exists i :: 0 <= i < |rows| && LocationOf(rows[i]) == l
  }

  predicate IdOf(rows: seq<Row>, id: string) {
    exists i :: 0 <= i < |rows| && rows[i].id == id
  }

  lemma PlacesNext(rows: seq<Row>, row: Row)
    ensures forall l :: PlaceOf(rows + [row], l) <==> PlaceOf(rows, l) || l == LocationOf(row)
  {
    hide LocationOf;
    var all := rows + [row];
    assert all[|rows|] == row;
    forall l | PlaceOf(rows, l)
      ensures PlaceOf(all, l)
    {
      var i :| 0 <= i < |rows| && LocationOf(rows[i]) == l;
      assert LocationOf(all[i]) == l;
    }
  }

  lemma IdsNext(rows: seq<Row>, row: Row)
    ensures forall id :: IdOf(rows + [row], id) <==> IdOf(rows, id) || id == row.id
  {
    var all := rows + [row];
    assert all[|rows|] == row;
    forall id | IdOf(rows, id)
      ensures IdOf(all, id)
    {
      var i :| 0 <= i < |rows| && rows[i].id == id;
      assert all[i].id == id;
    }
  }

  lemma NewLast(s: Store, rows: seq<Row>, row: Row)
    requires NewRows(s, rows + [row])
    ensures row.id !in s.rows && LocationOf(row) !in s.objects
    ensures forall i :: 0 <= i < |rows| ==> rows[i].id != row.id
  {
    var all := rows + [row];
    assert all[|rows|] == row && forall i :: 0 <= i < |rows| ==> all[i] == rows[i];
  }

  lemma ObjectsNext(before: map<Location, string>, rows: seq<Row>, after: map<Location, string>, row: Row, body: string)
    requires AddsObjects(before, rows, after) && LocationOf(row) !in before
    ensures AddsObjects(before, rows + [row], after[LocationOf(row) := body])
  {
    PlacesNext(rows, row);
    hide PlaceOf, LocationOf;
  }

  lemma RowsNext(before: map<string, Row>, rows: seq<Row>, after: map<string, Row>, row: Row)
    requires AddsRows(before, rows, after) && row.id !in before && forall i :: 0 <= i < |rows| ==> rows[i].id != row.id
    ensures AddsRows(before, rows + [row], after[row.id := row])
  {
    IdsNext(rows, row);
    hide IdOf;
    assert (rows + [row])[|rows|] == row && forall i :: 0 <= i < |rows| ==> (rows + [row])[i] == rows[i];
  }

  lemma ExtendsNext(s: Store, rows: seq<Row>, t: Store, row: Row, body: string)
    requires Extends(s, rows, t) && NewRows(s, rows + [row])
    ensures Extends(s, rows + [row], Store(t.objects[LocationOf(row) := body], t.rows[row.id := row]))
  {
    NewLast(s, rows, row);
    hide AddsObjects, AddsRows, LocationOf, NewRows;
    ObjectsNext(s.objects, rows, t.objects, row, body);
    RowsNext(s.rows, rows, t.rows, row);
  }

  lemma NewRowsPrefix(s: Store, rows: seq<Row>, n: nat)
    requires NewRows(s, rows) && n <= |rows|
    ensures NewRows(s, rows[..n])
  {
  }

  lemma NoRows(rows: seq<Row>)
    requires rows == []
    ensures forall l :: !PlaceOf(rows, l)
    ensures forall id :: !IdOf(rows, id)
  {
  }

  lemma {:induction false} WithRowsExtends(s: Store, rows: seq<Row>, files: seq<Upload>, n: nat)
    requires NewRows(s, rows) && n <= |rows| && n <= |files|
    ensures Extends(s, rows[..n], WithRows(s, rows, files, n))
  {
    hide PlaceOf, IdOf, LocationOf;
    if n == 0 {
      NoRows(rows[..0]);
    } else {
      var t := WithRows(s, rows, files, n - 1);
      assert WithRows(s, rows, files, n)
          == Store(t.objects[LocationOf(rows[n - 1]) := files[n - 1].body], t.rows[rows[n - 1].id := rows[n - 1]]);
      hide WithRows, AddsObjects, AddsRows;
      WithRowsExtends(s, rows, files, n - 1);
      NewRowsPrefix(s, rows, n);
      assert rows[..n] == rows[..n - 1] + [rows[n - 1]];
      hide Extends, NewRows;
      ExtendsNext(s, rows[..n - 1], WithRows(s, rows, files, n - 1), rows[n - 1], files[n - 1].body);
    }
  }

  /** What is left of new rows: the objects that were not deleted, and their metadata unless it was deleted. */
  ghost predicate Leaves(s: Store, rows: seq<Row>, deletes: seq<bool>, rowsDeleted: bool, after: Store)
    requires |deletes| == |rows|
  {
    && (forall l :: l in s.objects ==> l in after.objects && after.objects[l] == s.objects[l])
    && (forall i :: 0 <= i < |rows| ==> (LocationOf(rows[i]) in after.objects <==> !deletes[i]))
    && (forall l :: l in after.objects ==> l in s.objects || PlaceOf(rows, l))
    && (forall id :: id in s.rows ==> id in after.rows && after.rows[id] == s.rows[id])
    && (forall i :: 0 <= i < |rows| ==> (rows[i].id in after.rows <==> !(deletes[i] && rowsDeleted)))
    && (forall i :: 0 <= i < |rows| && rows[i].id in after.rows ==> after.rows[rows[i].id] == rows[i])
    && (forall id :: id in after.rows ==> id in s.rows || IdOf(rows, id))
  }

  lemma {:induction false} DeletedIdsMean(rows: seq<Row>, deletes: seq<bool>, id: string)
    requires |deletes| == |rows|
    ensures id in DeletedIds(rows, deletes) <==> exists i :: 0 <= i < |rows| && deletes[i] && rows[i].id == id
  {
    if rows != [] {
      DeletedIdsMean(rows[1..], deletes[1..], id);
      if i :| 0 <= i < |rows| && deletes[i] && rows[i].id == id {
        if i > 0 {
          assert deletes[1..][i - 1] && rows[1..][i - 1].id == id;
        }
      }
    }
  }

  lemma DeletedIdSet(s: Store, rows: seq<Row>, deletes: seq<bool>)
    requires |deletes| == |rows| && NewRows(s, rows)
    ensures forall i :: 0 <= i < |rows| ==> (rows[i].id in Elements(DeletedIds(rows, deletes)) <==> deletes[i])
    ensures forall id :: id in Elements(DeletedIds(rows, deletes)) ==> IdOf(rows, id)
  {
    forall id
      ensures id in DeletedIds(rows, deletes) <==> exists i :: 0 <= i < |rows| && deletes[i] && rows[i].id == id
    {
      DeletedIdsMean(rows, deletes, id);
    }
    hide DeletedIds, LocationOf;
  }

  lemma RemovedObjects(s: Store, rows: seq<Row>, t: Store, deletes: seq<bool>, rowsDeleted: bool)
    requires |deletes| == |rows| && NewRows(s, rows) && AddsObjects(s.objects, rows, t.objects)
    ensures var after := Removed(t, rows, deletes, rowsDeleted);
            && (forall l :: l in s.objects ==> l in after.objects && after.objects[l] == s.objects[l])
            && (forall i :: 0 <= i < |rows| ==> (LocationOf(rows[i]) in after.objects <==> !deletes[i]))
            && (forall l :: l in after.objects ==> l in s.objects || PlaceOf(rows, l))
  {
    hide DeletedIds, IdOf, Elements;
    assert forall i :: 0 <= i < |rows| ==> PlaceOf(rows, LocationOf(rows[i]));
    hide PlaceOf, LocationOf;
  }

  lemma RemovedRows(s: Store, rows: seq<Row>, t: Store, deletes: seq<bool>, rowsDeleted: bool)
    requires |deletes| == |rows| && NewRows(s, rows) && AddsRows(s.rows, rows, t.rows)
    ensures var after := Removed(t, rows, deletes, rowsDeleted);
            && (forall id :: id in s.rows ==> id in after.rows && after.rows[id] == s.rows[id])
            && (forall i :: 0 <= i < |rows| ==> (rows[i].id in after.rows <==> !(deletes[i] && rowsDeleted)))
            && (forall i :: 0 <= i < |rows| && rows[i].id in after.rows ==> after.rows[rows[i].id] == rows[i])
            && (forall id :: id in after.rows ==> id in s.rows || IdOf(rows, id))
  {
    DeletedIdSet(s, rows, deletes);
    assert forall i :: 0 <= i < |rows| ==> IdOf(rows, rows[i].id);
    hide IdOf, DeletedIds, PlaceOf, DeletedLocations, LocationOf, Elements;
  }

  lemma RemovedLeaves(s: Store, rows: seq<Row>, t: Store, deletes: seq<bool>, rowsDeleted: bool)
    requires |deletes| == |rows| && NewRows(s, rows) && Extends(s, rows, t)
    ensures Leaves(s, rows, deletes, rowsDeleted, Removed(t, rows, deletes, rowsDeleted))
  {
    RemovedObjects(s, rows, t, deletes, rowsDeleted);
    RemovedRows(s, rows, t, deletes, rowsDeleted);
    hide Removed, NewRows, PlaceOf, IdOf, LocationOf, AddsObjects, AddsRows;
  }

  /** The state after a failed Create is that of the clean-up alone, plus the object that could not be taken back. */
  lemma FailedCreate(
      s: Store, request: Request, files: seq<Upload>, ids: seq<string>, outcomes: seq<Outcome>,
      deletes: seq<bool>, rowsDeleted: bool)
    returns (rows: seq<Row>, cleaned: Store, at: Location)
    requires |ids| == |files| && |outcomes| == |files| && |deletes| == SavedCount(outcomes)
    requires ValidUploads(files) && Fresh(s, request, files, ids) && SavedCount(outcomes) < |files|
    ensures rows == RowsFor(request, files, ids, SavedCount(outcomes)) && NewRows(s, rows)
    ensures Leaves(s, rows, deletes, rowsDeleted, cleaned)
    ensures at !in s.objects && !PlaceOf(rows, at) && at == LocationOf(RowFor(request, files[|rows|], ids[|rows|]))
    ensures AfterCreate(s, request, files, ids, outcomes, deletes, rowsDeleted) ==
            if outcomes[|rows|] == RowFailed(false) then cleaned.(objects := cleaned.objects[at := files[|rows|].body])
            else cleaned
  {
    var n := SavedCount(outcomes);
    rows := RowsFor(request, files, ids, n);
    at := LocationOf(RowFor(request, files[n], ids[n]));
    var t := WithRows(s, rows, files, n);
    cleaned := Removed(t, rows, deletes, rowsDeleted);
    NextIsElsewhere(s, request, files, ids, n);
    hide ObjectKey, RowFor, LocationOf, Fresh, RowsFor, PlaceOf;
    RowsLeave(s, rows, files, deletes, rowsDeleted);
    hide Leaves, NewRows, WithRows, Removed, Leftover;
    LeftoverLast(t, rows, deletes, rowsDeleted, request, files[n], ids[n], outcomes[n]);
  }

  lemma RowsLeave(s: Store, rows: seq<Row>, files: seq<Upload>, deletes: seq<bool>, rowsDeleted: bool)
    requires |deletes| == |rows| <= |files| && NewRows(s, rows)
    ensures var t := WithRows(s, rows, files, |rows|);
            && Leaves(s, rows, deletes, rowsDeleted, Removed(t, rows, deletes, rowsDeleted))
            && forall l :: l in t.objects ==> l in s.objects || PlaceOf(rows, l)
  {
    hide LocationOf, NewRows;
    assert rows[..|rows|] == rows;
    WithRowsExtends(s, rows, files, |rows|);
    RemovedLeaves(s, rows, WithRows(s, rows, files, |rows|), deletes, rowsDeleted);
    hide Leaves, WithRows, PlaceOf, Removed;
  }

  lemma NextIsElsewhere(s: Store, request: Request, files: seq<Upload>, ids: seq<string>, n: nat)
    requires |ids| == |files| && n < |files| && ValidUploads(files) && Fresh(s, request, files, ids)
    ensures var rows, at := RowsFor(request, files, ids, n), LocationOf(RowFor(request, files[n], ids[n]));
            NewRows(s, rows) && !PlaceOf(rows, at) && at !in s.objects
  {
    var all := RowsFor(request, files, ids, n + 1);
    FreshRows(s, request, files, ids, n + 1);
    hide RowFor, LocationOf, Fresh;
    assert all == RowsFor(request, files, ids, n) + [RowFor(request, files[n], ids[n])];
    assert all[n] == RowFor(request, files[n], ids[n]);
    assert forall i :: 0 <= i < n ==> all[i] == RowsFor(request, files, ids, n)[i];
  }

  lemma LeftoverLast(
      t: Store, rows: seq<Row>, deletes: seq<bool>, rowsDeleted: bool, request: Request, file: Upload, id: string,
      outcome: Outcome)
    requires |deletes| == |rows| && file.detected.Some? && !outcome.Saved?
    requires var at := LocationOf(RowFor(request, file, id)); at !in t.objects && !PlaceOf(rows, at)
    ensures var cleaned := Removed(t, rows, deletes, rowsDeleted);
            Removed(Leftover(t, request, file, id, outcome), rows, deletes, rowsDeleted) ==
            if outcome == RowFailed(false)
            then cleaned.(objects := cleaned.objects[LocationOf(RowFor(request, file, id)) := file.body])
            else cleaned
  {
    var at := LocationOf(RowFor(request, file, id));
    hide RowFor, DeletedIds, Elements;
    assert at !in DeletedLocations(rows, deletes);
    assert outcome == RowFailed(true) ==> t.objects - {at} == t.objects;
    assert outcome == RowFailed(false) ==>
        t.objects[at := file.body] - DeletedLocations(rows, deletes)
        == (t.objects - DeletedLocations(rows, deletes))[at := file.body];
  }

  lemma SameObjects(a: map<Location, string>, b: map<Location, string>)
    requires forall l :: l in a ==> l in b && b[l] == a[l]
    requires forall l :: l in b ==> l in a
    ensures a == b
  {
  }

  lemma SameRows(a: map<string, Row>, b: map<string, Row>)
    requires forall l :: l in a ==> l in b && b[l] == a[l]
    requires forall l :: l in b ==> l in a
    ensures a == b
  {
  }

  /** The deletes that a rollback needs. */
  predicate CleanUpWorks(deletes: seq<bool>, rowsDeleted: bool, failed: Outcome) {
    && (forall i :: 0 <= i < |deletes| ==> deletes[i])
    && (|deletes| > 0 ==> rowsDeleted)
    && failed != RowFailed(false)
  }

  lemma LeavesNothing(s: Store, rows: seq<Row>, deletes: seq<bool>, rowsDeleted: bool, after: Store)
    requires |deletes| == |rows| && NewRows(s, rows) && Leaves(s, rows, deletes, rowsDeleted, after)
    ensures after == s <==> (forall i :: 0 <= i < |deletes| ==> deletes[i]) && (|deletes| > 0 ==> rowsDeleted)
  {
    if (forall i :: 0 <= i < |deletes| ==> deletes[i]) && (|deletes| > 0 ==> rowsDeleted) {
      SameObjects(s.objects, after.objects);
      SameRows(s.rows, after.rows);
    } else {
      if |deletes| > 0 && !rowsDeleted {
        assert rows[0].id in after.rows;
      } else {
        var i :| 0 <= i < |deletes| && !deletes[i];
        assert LocationOf(rows[i]) in after.objects;
      }
    }
  }

  /** A failed Create restores the store exactly when the deletes it needs succeed. */
  lemma RollbackRestores(
      s: Store, request: Request, files: seq<Upload>, ids: seq<string>, outcomes: seq<Outcome>,
      deletes: seq<bool>, rowsDeleted: bool)
    requires |ids| == |files| && |outcomes| == |files| && |deletes| == SavedCount(outcomes)
    requires ValidUploads(files) && Fresh(s, request, files, ids) && SavedCount(outcomes) < |files|
    ensures AfterCreate(s, request, files, ids, outcomes, deletes, rowsDeleted) == s <==>
            CleanUpWorks(deletes, rowsDeleted, outcomes[SavedCount(outcomes)])
  {
    var rows, cleaned, at := FailedCreate(s, request, files, ids, outcomes, deletes, rowsDeleted);
    hide AfterCreate, RowsFor, Fresh, LocationOf;
    LeavesNothing(s, rows, deletes, rowsDeleted, cleaned);
  }

  // ---- Metadata and objects stay together

  /** Every row has its object. */
  predicate Backed(s: Store) {
    forall id :: id in s.rows ==> LocationOf(s.rows[id]) in s.objects
  }

  /** Every object has a row. */
  predicate Accounted(s: Store) {
    forall l :: l in s.objects ==> exists id :: id in s.rows && LocationOf(s.rows[id]) == l
  }

  lemma LeavesBacked(s: Store, rows: seq<Row>, deletes: seq<bool>, rowsDeleted: bool, after: Store)
    requires |deletes| == |rows| && NewRows(s, rows) && Leaves(s, rows, deletes, rowsDeleted, after) && Backed(s)
    ensures Backed(after) <==> rowsDeleted || forall i :: 0 <= i < |deletes| ==> !deletes[i]
  {
    hide LocationOf;
    if !rowsDeleted && exists i :: 0 <= i < |deletes| && deletes[i] {
      var i :| 0 <= i < |deletes| && deletes[i];
      assert after.rows[rows[i].id] == rows[i] && LocationOf(rows[i]) !in after.objects;
    } else {
      forall id | id in after.rows
        ensures LocationOf(after.rows[id]) in after.objects
      {
        if id !in s.rows {
          var i :| 0 <= i < |rows| && rows[i].id == id;
          assert after.rows[rows[i].id] == rows[i];
        }
      }
    }
  }

  lemma LeavesAccounted(s: Store, rows: seq<Row>, deletes: seq<bool>, rowsDeleted: bool, after: Store)
    requires |deletes| == |rows| && NewRows(s, rows) && Leaves(s, rows, deletes, rowsDeleted, after) && Accounted(s)
    ensures Accounted(after)
  {
    hide LocationOf;
    forall l | l in after.objects
      ensures exists id :: id in after.rows && LocationOf(after.rows[id]) == l
    {
      if l in s.objects {
        var id :| id in s.rows && LocationOf(s.rows[id]) == l;
        assert id in after.rows && LocationOf(after.rows[id]) == l;
      } else {
        var i :| 0 <= i < |rows| && LocationOf(rows[i]) == l;
        assert rows[i].id in after.rows && LocationOf(after.rows[rows[i].id]) == l;
      }
    }
  }

  /**
   * After a failed Create no row points at a missing object unless the deletion of metadata failed, and
   * no object is without a row unless it is the one whose own deletion failed.
   */
  lemma FailureKeepsTogether(
      s: Store, request: Request, files: seq<Upload>, ids: seq<string>, outcomes: seq<Outcome>,
      deletes: seq<bool>, rowsDeleted: bool)
    requires |ids| == |files| && |outcomes| == |files| && |deletes| == SavedCount(outcomes)
    requires ValidUploads(files) && Fresh(s, request, files, ids) && SavedCount(outcomes) < |files|
    requires Backed(s) && Accounted(s)
    ensures var after := AfterCreate(s, request, files, ids, outcomes, deletes, rowsDeleted);
            && (Backed(after) <==> rowsDeleted || forall i :: 0 <= i < |deletes| ==> !deletes[i])
            && (Accounted(after) <==> outcomes[SavedCount(outcomes)] != RowFailed(false))
  {
    var rows, cleaned, at := FailedCreate(s, request, files, ids, outcomes, deletes, rowsDeleted);
    var after := AfterCreate(s, request, files, ids, outcomes, deletes, rowsDeleted);
    hide AfterCreate, RowsFor, Fresh;
    LeavesBacked(s, rows, deletes, rowsDeleted, cleaned);
    LeavesAccounted(s, rows, deletes, rowsDeleted, cleaned);
    if outcomes[|rows|] == RowFailed(false) {
      NoRowAt(s, rows, deletes, rowsDeleted, cleaned, at);
      hide LocationOf, Leaves, NewRows;
      assert at in after.objects && forall id :: id in after.rows ==> LocationOf(after.rows[id]) != at;
    }
  }

  lemma NoRowAt(s: Store, rows: seq<Row>, deletes: seq<bool>, rowsDeleted: bool, after: Store, at: Location)
    requires |deletes| == |rows| && Leaves(s, rows, deletes, rowsDeleted, after)
    requires Backed(s) && at !in s.objects && !PlaceOf(rows, at)
    ensures forall id :: id in after.rows ==> LocationOf(after.rows[id]) != at
  {
    forall id | id in after.rows
      ensures LocationOf(after.rows[id]) != at
    {
      if id in s.rows {
        assert after.rows[id] == s.rows[id];
      } else {
        var i :| 0 <= i < |rows| && rows[i].id == id;
        assert after.rows[rows[i].id] == rows[i];
      }
    }
  }

  lemma NothingRemoved(t: Store, rows: seq<Row>, deletes: seq<bool>)
    requires |deletes| == |rows| && forall i :: 0 <= i < |rows| ==> !deletes[i]
    ensures Removed(t, rows, deletes, false) == t
  {
    assert DeletedLocations(rows, deletes) == {};
    assert t.objects - {} == t.objects;
  }

  lemma ExtendsTogether(s: Store, rows: seq<Row>, t: Store)
    requires NewRows(s, rows) && Extends(s, rows, t) && Backed(s) && Accounted(s)
    ensures Backed(t) && Accounted(t)
  {
    var deletes := seq(|rows|, i => false);
    NothingRemoved(t, rows, deletes);
    RemovedLeaves(s, rows, t, deletes, false);
    hide Leaves, NewRows, Extends, Removed;
    LeavesBacked(s, rows, deletes, false, t);
    LeavesAccounted(s, rows, deletes, false, t);
  }

  lemma CreateSucceeds(
      s: Store, request: Request, files: seq<Upload>, ids: seq<string>, outcomes: seq<Outcome>,
      deletes: seq<bool>, rowsDeleted: bool)
    requires |ids| == |files| && |outcomes| == |files| && SavedCount(outcomes) == |files| == |deletes|
             && ValidUploads(files)
    ensures AfterCreate(s, request, files, ids, outcomes, deletes, rowsDeleted)
         == WithRows(s, RowsFor(request, files, ids, |files|), files, |files|)
  {
  }

  lemma SavedTogether(s: Store, rows: seq<Row>, files: seq<Upload>)
    requires |rows| == |files| && NewRows(s, rows) && Backed(s) && Accounted(s)
    ensures var t := WithRows(s, rows, files, |files|); Extends(s, rows, t) && Backed(t) && Accounted(t)
  {
    WithRowsExtends(s, rows, files, |files|);
    assert rows[..|files|] == rows;
    hide WithRows, Extends, NewRows, Backed, Accounted;
    ExtendsTogether(s, rows, WithRows(s, rows, files, |files|));
  }

  /** A successful Create adds each file's row and object, and changes nothing else. */
  lemma SuccessKeepsTogether(
      s: Store, request: Request, files: seq<Upload>, ids: seq<string>, outcomes: seq<Outcome>,
      deletes: seq<bool>, rowsDeleted: bool)
    requires |ids| == |files| && |outcomes| == |files| && SavedCount(outcomes) == |files| == |deletes|
    requires ValidUploads(files) && Fresh(s, request, files, ids) && Backed(s) && Accounted(s)
    ensures var after := AfterCreate(s, request, files, ids, outcomes, deletes, rowsDeleted);
            && Extends(s, RowsFor(request, files, ids, |files|), after)
            && Backed(after) && Accounted(after)
  {
    var rows := RowsFor(request, files, ids, |files|);
    CreateSucceeds(s, request, files, ids, outcomes, deletes, rowsDeleted);
    FreshRows(s, request, files, ids, |files|);
    hide AfterCreate, WithRows, RowFor, RowsFor, Fresh, Extends, NewRows, Backed, Accounted;
    SavedTogether(s, rows, files);
  }

  // ---- What is uploaded

  /** At most four files of one byte to five megabytes are taken, each of the type that its bytes show. */
  lemma ValidMeans(files: seq<Upload>)
    ensures ValidUploads(files) <==>
            && |files| <= 4
            && forall f :: f in files ==>
                 && 1 <= f.size <= 5_242_880 && 1 <= |f.body| <= 5_242_880
                 && exists t: ImageType :: f.detected == Some(t) && t.mimeType == f.mimetype
  {
    if ValidUploads(files) {
      forall f | f in files
        ensures ValidUpload(f)
      {
        var i :| 0 <= i < |files| && files[i] == f;
      }
    }
    assert forall i :: 0 <= i < |files| ==> files[i] in files;
  }

  /** What is kept of a file: its metadata, and its object at a place of its own in the storage of its visibility. */
  lemma RowMeans(request: Request, file: Upload, id: string)
    requires file.detected.Some?
    ensures var row := RowFor(request, file, id);
            && row.id == id && row.request == request && row.originalName == file.originalName
            && row.mimeType == file.detected.value.mimeType && row.byteSize == file.size
            && row.objectKey == "sessions/" + request.sessionId + "/" + request.purpose + "/" + id + "."
                                + file.detected.value.extension
            && LocationOf(row).visibility == request.visibility && LocationOf(row).objectKey == row.objectKey
  {
  }
}
