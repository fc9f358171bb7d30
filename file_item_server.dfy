/** The file-item server of Backend/models/Product.js: `FileItem {filename, filePath}`
    records in a Mongoose collection, and the files multer stores under `./uploads/`. It has
    no update route, and its delete never touches the uploads directory. */
module FileItemServer {
  import opened Wrappers
  import opened IsoTime
  import opened Stores
  import Ownership

  /** A `FileItem` document; its schema marks both fields `required`. */
  datatype FileItem = FileItem(filename: string, filePath: Path)

  /** A file part of the request: the client's name for the file and the clock reading
      `new Date()` takes when multer names it. */
  datatype Upload = Upload(originalName: string, now: DateTime)

  /** `req.file` once multer has stored the upload. */
  datatype File = File(originalName: string, path: Path)

  // ---------------------------------------------------------------- file names

  /** multer's `filename` callback: `new Date().toISOString() + '-' + file.originalname`.
      The whole original name follows the 24-character timestamp and a '-', so the name is
      a single path component exactly when the original name is. */
  function StoredName(now: DateTime, originalName: string): (name: string)
    ensures |name| == 25 + |originalName| && name[24] == '-'
    ensures name[25..] == originalName
    ensures '/' in name <==> '/' in originalName
  {
    var iso := ToIsoString(now);
    var name := iso + "-" + originalName;
    assert name[25..] == originalName;
    assert forall i :: 0 <= i < 25 ==> name[i] != '/' by {
      forall i | 0 <= i < 25 ensures name[i] != '/' {
        if i < 24 { assert name[i] == iso[i]; }
      }
    }
    assert '/' in originalName ==> '/' in name by {
      if '/' in originalName {
        var j :| 0 <= j < |originalName| && originalName[j] == '/';
        assert name[25 + j] == '/';
      }
    }
    name
  }

  /** What multer hands the handler for an upload: `req.file`, whose path is never empty. */
  function Receive(u: Upload): (file: File)
    ensures file.originalName == u.originalName
    ensures StoredNameOf(file.path) == Some(StoredName(u.now, u.originalName))
    ensures file.path != []
  {
    File(u.originalName, DiskPath(StoredName(u.now, u.originalName)))
  }

  /** Splits a stored name into its clock reading and the original name. */
  function ParseStoredName(name: string): Option<(DateTime, string)> {
    if |name| < 25 || name[24] != '-' then None
    else
      match ParseIso(name[..24])
      case Some(t) => if InRange(t) then Some((t, name[25..])) else None
      case None => None
  }

  /** Splits an upload path into its clock reading and the original name. */
  function ParseUploadPath(p: Path): Option<(DateTime, string)> {
    var name :- StoredNameOf(p);
    ParseStoredName(name)
  }

  /** A stored name keeps both the clock reading and the whole original name. */
  lemma {:induction false} ParseStoredNameOfStoredName(now: DateTime, originalName: string)
    ensures ParseStoredName(StoredName(now, originalName)) == Some((now, originalName))
  {
    var iso := ToIsoString(now);
    var name := StoredName(now, originalName);
    assert name[..24] == iso;
    assert name[25..] == originalName;
    ParseIsoOfToIso(now);
  }

  lemma {:induction false} ParseUploadPathOfUpload(u: Upload)
    ensures ParseUploadPath(Receive(u).path) == Some((u.now, u.originalName))
  {
    ParseStoredNameOfStoredName(u.now, u.originalName);
  }

  /** Two uploads get the same path exactly when they were named at the same clock reading
      under the same original name. */
  lemma {:induction false} UploadPathCollision(u1: Upload, u2: Upload)
    ensures Receive(u1).path == Receive(u2).path <==> u1 == u2
  {
    ParseUploadPathOfUpload(u1);
    ParseUploadPathOfUpload(u2);
  }

  /** No file in `files` was named at clock reading `now`. */
  predicate NoneStampedAt(files: set<Path>, now: DateTime) {
    forall p :: p in files ==> ParseUploadPath(p).None? || ParseUploadPath(p).value.0 != now
  }

  /** An upload named at a clock reading that no stored file carries lands on a new path. */
  lemma {:induction false} UploadPathFresh(files: set<Path>, u: Upload)
    requires NoneStampedAt(files, u.now)
    ensures Receive(u).path !in files
  {
    ParseUploadPathOfUpload(u);
  }

  // ---------------------------------------------------------------- consistency

  /** The file each item points at. */
  function Links(records: map<Id, FileItem>): Ownership.Links {
    map id | id in records :: records[id].filePath
  }

  /** Every item points at an existing file of its own. */
  predicate Healthy(s: Store<FileItem>) {
    Ownership.Healthy(Links(s.records), s.files)
  }

  function Orphans(s: Store<FileItem>): set<Path> {
    Ownership.Orphans(Links(s.records), s.files)
  }

  lemma LinksPut(records: map<Id, FileItem>, id: Id, item: FileItem)
    ensures Links(records[id := item]) == Links(records)[id := item.filePath]
  {
  }

  lemma LinksRemove(records: map<Id, FileItem>, id: Id)
    ensures Links(records - {id}) == Links(records) - {id}
  {
  }

  // ---------------------------------------------------------------- handlers

  /** Mongoose's `required` validator on a String path: present and not empty. */
  predicate Required(item: FileItem) {
    item.filename != [] && item.filePath != []
  }

  /** Of the two required fields, only the original name can be missing: the path multer
      reports is never empty. */
  /** `req.file` after multer's `upload.single('file')`: multer skips a file part whose
      client name is empty (an empty file input), so such a request has no `req.file`. */
  function Stored(upload: Option<Upload>): (file: Option<File>)
    ensures file.Some? <==> upload.Some? && upload.value.originalName != []
    ensures file.Some? ==> file.value == Receive(upload.value)
  {
    if upload.Some? && upload.value.originalName != [] then Some(Receive(upload.value)) else None
  }

  /** Every file multer hands over passes the schema's `required` validator: its client
      name is non-empty, and so is the path multer reports. */
  lemma {:induction false} StoredIsRequired(upload: Option<Upload>)
    ensures var file := Stored(upload);
      file.Some? ==> Required(FileItem(file.value.originalName, file.value.path))
  {
    var file := Stored(upload);
    if file.Some? {
      assert file.value.path != [];
    }
  }

  /** Through multer, create answers 400 exactly when the request had a file and the save
      failed: the `required` validator never rejects what multer hands over. */
  lemma {:induction false} CreateRejectsOnlyFailedSave(s: Store<FileItem>, upload: Option<Upload>, saveFails: bool)
    requires Valid(s)
    ensures Create(s, Stored(upload), saveFails).status == BadRequest
        <==> Stored(upload).Some? && saveFails
  {
    StoredIsRequired(upload);
  }

  /** `POST /api/fileItems`, given `req.file`. With no file, reading
      `req.file.originalname` throws before the `try`: the promise is rejected, nothing is
      stored and no response is sent. */
  function Create(s: Store<FileItem>, file: Option<File>, saveFails: bool): (r: Outcome<FileItem>)
    requires Valid(s)
    ensures Valid(r.after)
    ensures file.None? ==> r == Outcome(s, NoResponse)
    ensures file.Some? ==> r.after.files == s.files + {file.value.path}
    ensures r.status == Created <==>
      file.Some? && Required(FileItem(file.value.originalName, file.value.path)) && !saveFails
    ensures file.Some? && r.status != Created ==> r.status == BadRequest
    ensures r.status != Created ==> r.after.records == s.records
    ensures r.status == Created ==>
      && s.nextId !in s.records
      && r.after.records.Keys == s.records.Keys + {s.nextId}
      && r.after.records[s.nextId] == FileItem(file.value.originalName, file.value.path)
      && forall id :: id in s.records ==> r.after.records[id] == s.records[id]
  {
    if file.None? then Outcome(s, NoResponse)
    else
      var newFileItem := FileItem(file.value.originalName, file.value.path);
      var received := s.(files := s.files + {file.value.path});
      if !Required(newFileItem) || saveFails then Outcome(received, BadRequest)
      else Outcome(received.(records := s.records[s.nextId := newFileItem], nextId := s.nextId + 1), Created)
  }

  /** `DELETE /api/fileItems/:id`: `findById`, then `remove` on the item found. */
  function Delete(s: Store<FileItem>, param: IdParam, findFails: bool, removeFails: bool): (r: Outcome<FileItem>)
    requires Valid(s)
    ensures Valid(r.after) && r.after.nextId == s.nextId
    ensures r.after.files == s.files
    ensures r.status == Ok || r.status == NotFound || r.status == ServerError
    ensures r.status == NotFound <==> param.ObjectId? && !findFails && param.id !in s.records
    ensures r.status == Ok <==> Found(s, param, findFails) && !removeFails
    ensures r.status != Ok ==> r.after == s
    ensures r.status == Ok ==>
      && r.after.records.Keys == s.records.Keys - {param.id}
      && forall id :: id in r.after.records ==> r.after.records[id] == s.records[id]
  {
    if param.Malformed? || findFails then Outcome(s, ServerError)
    else if param.id !in s.records then Outcome(s, NotFound)
    else if removeFails then Outcome(s, ServerError)
    else Outcome(s.(records := s.records - {param.id}), Ok)
  }

  // ---------------------------------------------------------------- properties

  /** Create keeps every item pointing at an existing file of its own, given a path no file
      had; an upload whose item is rejected stays behind as one more orphan. */
  lemma {:induction false} CreateKeepsHealthy(s: Store<FileItem>, file: Option<File>, saveFails: bool)
    requires Valid(s) && Healthy(s)
    requires file.Some? ==> file.value.path !in s.files
    ensures var r := Create(s, file, saveFails);
      && Healthy(r.after)
      && Orphans(r.after) == Orphans(s) + (if r.status == BadRequest then {file.value.path} else {})
  {
    var r := Create(s, file, saveFails);
    if file.Some? {
      var p := file.value.path;
      var links := Links(s.records);
      if r.status == BadRequest {
        assert r.after == s.(files := s.files + {p});
        Ownership.ReceiveOrphan(links, s.files, p);
      } else {
        var item := FileItem(file.value.originalName, p);
        assert r.after == Store(s.records[s.nextId := item], s.files + {p}, s.nextId + 1);
        LinksPut(s.records, s.nextId, item);
        Ownership.AddHealthy(links, s.files, s.nextId, p);
      }
    }
  }

  /** The one case the health lemmas set aside: an upload that lands on the path of an
      existing item's file (same clock reading and original name, `UploadPathCollision`).
      multer overwrites that file and a successful save leaves two items on it. */
  lemma {:induction false} CreateOnTakenPath(s: Store<FileItem>, file: File)
    requires Valid(s) && Healthy(s)
    requires file.path in Links(s.records).Values
    requires file.originalName != [] && file.path != []
    ensures var r := Create(s, Some(file), false);
      && r.status == Created
      && r.after.files == s.files
      && !Healthy(r.after)
  {
    var r := Create(s, Some(file), false);
    var p := file.path;
    var id :| id in Links(s.records) && Links(s.records)[id] == p;
    assert s.nextId !in s.records;
    var links := Links(r.after.records);
    assert links[id] == p && links[s.nextId] == p;
    assert !Ownership.Exclusive(links);
  }

  /** Delete keeps the stores healthy, but the file of a deleted item is never unlinked:
      each successful delete leaves exactly that file orphaned. */
  lemma {:induction false} DeleteOrphansFile(s: Store<FileItem>, param: IdParam, findFails: bool, removeFails: bool)
    requires Valid(s) && Healthy(s)
    ensures var r := Delete(s, param, findFails, removeFails);
      && Healthy(r.after)
      && Orphans(r.after) == Orphans(s) + (if r.status == Ok then {s.records[param.id].filePath} else {})
  {
    var r := Delete(s, param, findFails, removeFails);
    if r.status == Ok {
      LinksRemove(s.records, param.id);
      Ownership.RemoveHealthy(Links(s.records), s.files, param.id);
    }
  }

  /** A second delete of the same id finds nothing and changes nothing. */
  lemma {:induction false} DeleteTwiceIsNotFound(s: Store<FileItem>, id: Id)
    requires Valid(s) && id in s.records
    ensures var first := Delete(s, ObjectId(id), false, false);
      && first.status == Ok
      && Delete(first.after, ObjectId(id), false, false) == Outcome(first.after, NotFound)
  {
    var first := Delete(s, ObjectId(id), false, false);
    assert id !in first.after.records;
  }

  // ---------------------------------------------------------------- the server

  /** The server's two stores, updated in place by its route handlers. */
  class FileItemApp {
    var records: map<Id, FileItem>
    var files: set<Path>
    var nextId: Id

    function State(): Store<FileItem>
      reads this
    {
      Store(records, files, nextId)
    }

    constructor (start: Store<FileItem>)
      requires Valid(start)
      ensures State() == start
    {
      records, files, nextId := start.records, start.files, start.nextId;
    }

    /** `GET /api/fileItems`: every item, or 500 when `find` fails. */
    method GetFileItems(findFails: bool) returns (status: Status, fileItems: map<Id, FileItem>)
      ensures status == (if findFails then ServerError else Ok)
      ensures fileItems == (if findFails then map[] else records)
    {
      if findFails {
        return ServerError, map[];
      }
      return Ok, records;
    }

    /** multer's `upload.single('file')`, run before the create handler. */
    method ReceiveUpload(upload: Option<Upload>) returns (file: Option<File>)
      modifies this`files
      ensures file == Stored(upload)
      ensures files == if file.Some? then old(files) + {file.value.path} else old(files)
    {
      file := None;
      if upload.Some? && upload.value.originalName != [] {
        file := Some(Receive(upload.value));
        files := files + {file.value.path};
      }
    }

    /** `POST /api/fileItems`. */
    method PostFileItem(upload: Option<Upload>, saveFails: bool) returns (status: Status)
      requires Valid(State())
      modifies this
      ensures Outcome(State(), status) == Create(old(State()), Stored(upload), saveFails)
    {
      var file := ReceiveUpload(upload);
      if file.None? {
        return NoResponse;
      }
      var newFileItem := FileItem(file.value.originalName, file.value.path);
      if !Required(newFileItem) || saveFails {
        return BadRequest;
      }
      records := records[nextId := newFileItem];
      nextId := nextId + 1;
      return Created;
    }

    /** `DELETE /api/fileItems/:id`. */
    method DeleteFileItem(param: IdParam, findFails: bool, removeFails: bool) returns (status: Status)
      requires Valid(State())
      modifies this
      ensures Outcome(State(), status) == Delete(old(State()), param, findFails, removeFails)
    {
      if param.Malformed? || findFails {
        return ServerError;
      }
      if param.id !in records {
        return NotFound;
      }
      if removeFails {
        return ServerError;
      }
      records := records - {param.id};
      return Ok;
    }
  }
}
