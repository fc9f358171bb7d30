/** The image server of Backend/index.js: `Image {title, description, imageUrl}` records in
    a Mongoose collection, and the files multer stores under `uploads/`. Each route handler
    is a transition of `Store<Image>`; `ImageApp` runs the same handlers step by step. */
module ImageServer {
  import opened Wrappers
  import opened Decimal
  import opened NodePath
  import opened Stores
  import Ownership

  /** An `Image` document. Its schema requires nothing, so a title or description the
      request did not send is simply absent; every image this server saves has a path. */
  datatype Image = Image(title: Option<string>, description: Option<string>, imageUrl: Path)

  /** The text fields of a request body. */
  datatype Body = Body(title: Option<string>, description: Option<string>)

  /** A file part of the request: the client's name for the file and the `Date.now()`
      reading multer names it at. */
  datatype Upload = Upload(originalName: string, now: nat)

  // ---------------------------------------------------------------- file names

  /** multer's `filename` callback: `Date.now() + path.extname(file.originalname)`: a
      single path component, so the file lands directly in `uploads/`. */
  function StoredName(now: nat, originalName: string): (name: string)
    ensures '/' !in name
  {
    var digits := Numeral(now);
    assert '/' !in digits by {
      forall i | 0 <= i < |digits| ensures digits[i] != '/' {
        assert IsDigit(digits[i]);
      }
    }
    digits + ExtName(originalName)
  }

  /** The stored file keeps the extension of the client's file. */
  lemma {:induction false} StoredNameKeepsExtension(now: nat, originalName: string)
    ensures ExtName(StoredName(now, originalName)) == ExtName(originalName)
  {
    var digits, ext := Numeral(now), ExtName(originalName);
    assert forall i :: 0 <= i < |digits| ==> digits[i] != '.' && digits[i] != '/' by {
      forall i | 0 <= i < |digits| ensures digits[i] != '.' && digits[i] != '/' {
        assert IsDigit(digits[i]);
      }
    }
    if ext == [] {
      assert StoredName(now, originalName) == digits;
      ExtNameWithoutDot(digits);
    } else {
      var rest := ext[1..];
      assert ext == "." + rest;
      assert digits[0] != '.';
      assert (digits + "." + rest)[0] != '.';
      assert StoredName(now, originalName) == digits + "." + rest;
      ExtNameOfDotted(digits, rest);
    }
  }

  /** The path multer reports for an upload, `file.path`: the stored name in `uploads/`. */
  function UploadPath(u: Upload): (p: Path)
    ensures StoredNameOf(p) == Some(StoredName(u.now, u.originalName))
  {
    DiskPath(StoredName(u.now, u.originalName))
  }

  /** Splits a stored name into its clock reading and extension. */
  function ParseStoredName(name: string): Option<(nat, string)> {
    var k := DigitPrefixLength(name);
    if k == 0 then None else Some((Value(name[..k]), name[k..]))
  }

  /** Splits an upload path into its clock reading and extension. */
  function ParseUploadPath(p: Path): Option<(nat, string)> {
    var name :- StoredNameOf(p);
    ParseStoredName(name)
  }

  /** A stored name keeps both the clock reading and the extension of the original name. */
  lemma {:induction false} ParseStoredNameOfStoredName(now: nat, originalName: string)
    ensures ParseStoredName(StoredName(now, originalName)) == Some((now, ExtName(originalName)))
  {
    var d, e := Numeral(now), ExtName(originalName);
    DigitPrefixOfNumeral(d, e);
    assert (d + e)[..|d|] == d;
    assert (d + e)[|d|..] == e;
  }

  lemma {:induction false} ParseUploadPathOfUploadPath(u: Upload)
    ensures ParseUploadPath(UploadPath(u)) == Some((u.now, ExtName(u.originalName)))
  {
    ParseStoredNameOfStoredName(u.now, u.originalName);
  }

  /** Two uploads get the same path exactly when they were named in the same millisecond
      and their original names have the same extension. */
  lemma {:induction false} UploadPathCollision(u1: Upload, u2: Upload)
    ensures UploadPath(u1) == UploadPath(u2)
        <==> u1.now == u2.now && ExtName(u1.originalName) == ExtName(u2.originalName)
  {
    ParseUploadPathOfUploadPath(u1);
    ParseUploadPathOfUploadPath(u2);
  }

  /** No file in `files` was named at clock reading `now`. */
  predicate NoneStampedAt(files: set<Path>, now: nat) {
    forall p :: p in files ==> ParseUploadPath(p).None? || ParseUploadPath(p).value.0 != now
  }

  /** An upload named at a clock reading that no stored file carries lands on a new path. */
  lemma {:induction false} UploadPathFresh(files: set<Path>, u: Upload)
    requires NoneStampedAt(files, u.now)
    ensures UploadPath(u) !in files
  {
    ParseUploadPathOfUploadPath(u);
  }

  // ---------------------------------------------------------------- consistency

  /** The file each image points at. */
  function Links(records: map<Id, Image>): Ownership.Links {
    map id | id in records :: records[id].imageUrl
  }

  /** Every image points at an existing file of its own. */
  predicate Healthy(s: Store<Image>) {
    Ownership.Healthy(Links(s.records), s.files)
  }

  function Orphans(s: Store<Image>): set<Path> {
    Ownership.Orphans(Links(s.records), s.files)
  }

  function Dangling(s: Store<Image>): set<Path> {
    Ownership.Dangling(Links(s.records), s.files)
  }

  lemma LinksPut(records: map<Id, Image>, id: Id, image: Image)
    ensures Links(records[id := image]) == Links(records)[id := image.imageUrl]
  {
  }

  lemma LinksRemove(records: map<Id, Image>, id: Id)
    ensures Links(records - {id}) == Links(records) - {id}
  {
  }

  // ---------------------------------------------------------------- handlers

  /** Where multer's `upload.single("image")` stores the request's file, if it has one.
      multer skips a file part whose client name is empty (an empty file input), so such a
      request reaches the handler with no file. Each handler below takes this path: the
      file is on disk before the handler runs. */
  function Stored(upload: Option<Upload>): (file: Option<Path>)
    ensures file.Some? <==> upload.Some? && upload.value.originalName != []
    ensures file.Some? ==> StoredNameOf(file.value) == Some(StoredName(upload.value.now, upload.value.originalName))
  {
    if upload.Some? && upload.value.originalName != [] then Some(UploadPath(upload.value)) else None
  }

  /** The uploads directory once multer has stored the request's file. */
  function Received(files: set<Path>, file: Option<Path>): set<Path> {
    if file.Some? then files + {file.value} else files
  }

  /** `POST /api/images`. */
  function Create(s: Store<Image>, file: Option<Path>, body: Body, saveFails: bool): (r: Outcome<Image>)
    requires Valid(s)
    ensures Valid(r.after) && r.after.files == Received(s.files, file)
    ensures file.None? ==> r == Outcome(s, BadRequest)
    ensures r.status == Created <==> file.Some? && !saveFails
    ensures r.status != Created ==> r.status == BadRequest && r.after.records == s.records
    ensures r.status == Created ==>
      && s.nextId !in s.records
      && r.after.records.Keys == s.records.Keys + {s.nextId}
      && r.after.records[s.nextId] == Image(body.title, body.description, file.value)
      && forall id :: id in s.records ==> r.after.records[id] == s.records[id]
  {
    var files := Received(s.files, file);
    if file.None? then Outcome(s, BadRequest)
    else
      var image := Image(body.title, body.description, file.value);
      if saveFails then Outcome(s.(files := files), BadRequest)
      else Outcome(Store(s.records[s.nextId := image], files, s.nextId + 1), Created)
  }

  /** `PUT /api/images/:id`: a malformed id or a failing `findById` answers 400, a missing
      record 404, both after multer has stored the request's file. */
  function Update(s: Store<Image>, param: IdParam, file: Option<Path>, body: Body,
                  findFails: bool, unlinkFault: bool, saveFails: bool): (r: Outcome<Image>)
    requires Valid(s)
    ensures Valid(r.after) && r.after.nextId == s.nextId
    ensures r.status == Ok || r.status == BadRequest || r.status == NotFound
    ensures r.status == NotFound <==> param.ObjectId? && !findFails && param.id !in s.records
    ensures r.status != Ok ==> r.after.records == s.records
    ensures file.None? ==> r.after.files == s.files
    ensures !Found(s, param, findFails) ==>
      r == Outcome(s.(files := Received(s.files, file)),
                   if param.ObjectId? && !findFails then NotFound else BadRequest)
    ensures Found(s, param, findFails) ==> r == Revise(s, param.id, file, body, unlinkFault, saveFails)
  {
    if param.Malformed? || findFails then Outcome(s.(files := Received(s.files, file)), BadRequest)
    else if param.id !in s.records then Outcome(s.(files := Received(s.files, file)), NotFound)
    else Revise(s, param.id, file, body, unlinkFault, saveFails)
  }

  /** The rest of `PUT /api/images/:id` once `findById` returned the record `id`: with a
      file, unlink the old one (a throw answers 400) and take the upload's path; always take
      the body's title and description; then save (a failure answers 400). */
  function Revise(s: Store<Image>, id: Id, file: Option<Path>, body: Body,
                  unlinkFault: bool, saveFails: bool): (r: Outcome<Image>)
    requires Valid(s) && id in s.records
    ensures Valid(r.after) && r.after.nextId == s.nextId
    ensures r.status == Ok || r.status == BadRequest
    ensures r.status != Ok ==> r.after.records == s.records
    ensures file.None? ==> r.after.files == s.files && (r.status == Ok <==> !saveFails)
    ensures file.Some? ==>
      var oldPath := s.records[id].imageUrl;
      var received := Received(s.files, file);
      if oldPath !in received || unlinkFault then r == Outcome(s.(files := received), BadRequest)
      else r.after.files == received - {oldPath} && (r.status == Ok <==> !saveFails)
    ensures r.status == Ok ==>
      && r.after.records.Keys == s.records.Keys
      && r.after.records[id] == Image(body.title, body.description,
           if file.Some? then file.value else s.records[id].imageUrl)
      && forall j :: j in s.records && j != id ==> r.after.records[j] == s.records[j]
  {
    var doc := s.records[id];
    if file.Some? then
      var received := Received(s.files, file);
      match Unlink(received, doc.imageUrl, unlinkFault)
      case None => Outcome(s.(files := received), BadRequest)
      case Some(rest) =>
        var updated := Image(body.title, body.description, file.value);
        if saveFails then Outcome(s.(files := rest), BadRequest)
        else Outcome(s.(records := s.records[id := updated], files := rest), Ok)
    else
      var updated := doc.(title := body.title, description := body.description);
      if saveFails then Outcome(s, BadRequest)
      else Outcome(s.(records := s.records[id := updated]), Ok)
  }

  /** `DELETE /api/images/:id`. */
  function Delete(s: Store<Image>, param: IdParam, deleteFails: bool, unlinkFault: bool): (r: Outcome<Image>)
    requires Valid(s)
    ensures Valid(r.after) && r.after.nextId == s.nextId
    ensures r.status == Ok || r.status == NotFound || r.status == ServerError
    ensures r.status == NotFound <==> param.ObjectId? && !deleteFails && param.id !in s.records
    ensures !Found(s, param, deleteFails) ==>
      r == Outcome(s, if param.ObjectId? && !deleteFails then NotFound else ServerError)
    ensures Found(s, param, deleteFails) ==>
      var url := s.records[param.id].imageUrl;
      && r.after.records.Keys == s.records.Keys - {param.id}
      && (forall id :: id in r.after.records ==> r.after.records[id] == s.records[id])
      && (r.status == Ok <==> url in s.files && !unlinkFault)
      && r.after.files == (if r.status == Ok then s.files - {url} else s.files)
  {
    if param.Malformed? || deleteFails then Outcome(s, ServerError)
    else if param.id !in s.records then Outcome(s, NotFound)
    else
      var url := s.records[param.id].imageUrl;
      var removed := s.(records := s.records - {param.id});
      match Unlink(s.files, url, unlinkFault)
      case None => Outcome(removed, ServerError)
      case Some(rest) => Outcome(removed.(files := rest), Ok)
  }

  // ---------------------------------------------------------------- properties

  /** Create keeps every image pointing at an existing file of its own, given a path no
      file had; a failed save leaves the upload behind as one more orphan. */
  lemma {:induction false} CreateKeepsHealthy(s: Store<Image>, file: Option<Path>, body: Body, saveFails: bool)
    requires Valid(s) && Healthy(s)
    requires file.Some? ==> file.value !in s.files
    ensures var r := Create(s, file, body, saveFails);
      && Healthy(r.after)
      && Orphans(r.after) == Orphans(s) + (if file.Some? && saveFails then {file.value} else {})
  {
    var r := Create(s, file, body, saveFails);
    if file.Some? {
      var p := file.value;
      var links := Links(s.records);
      if saveFails {
        assert r.after == s.(files := s.files + {p});
        Ownership.ReceiveOrphan(links, s.files, p);
      } else {
        var image := Image(body.title, body.description, p);
        assert r.after == Store(s.records[s.nextId := image], s.files + {p}, s.nextId + 1);
        LinksPut(s.records, s.nextId, image);
        Ownership.AddHealthy(links, s.files, s.nextId, p);
      }
    }
  }

  /** The one case the health lemmas set aside: an upload that lands on the path of an
      existing image's file (same millisecond and extension, `UploadPathCollision`). multer
      overwrites that file and a successful save leaves two images on it. */
  lemma {:induction false} CreateOnTakenPath(s: Store<Image>, p: Path, body: Body)
    requires Valid(s) && Healthy(s)
    requires p in Links(s.records).Values
    ensures var r := Create(s, Some(p), body, false);
      && r.status == Created
      && r.after.files == s.files
      && !Healthy(r.after)
  {
    var r := Create(s, Some(p), body, false);
    var id :| id in Links(s.records) && Links(s.records)[id] == p;
    assert s.nextId !in s.records;
    var links := Links(r.after.records);
    assert links[id] == p && links[s.nextId] == p;
    assert !Ownership.Exclusive(links);
  }

  /** Update keeps the stores healthy except in one case: a file came with the request,
      the old file was unlinked, and the save then failed. The record still points at the
      unlinked file, which is then the only dangling path. Any request with a file that
      does not answer 200 leaves its upload as one more orphan, that case included. */
  lemma {:induction false} UpdateHealth(s: Store<Image>, param: IdParam, file: Option<Path>, body: Body,
                                        findFails: bool, unlinkFault: bool, saveFails: bool)
    requires Valid(s) && Healthy(s)
    requires file.Some? ==> file.value !in s.files
    ensures var r := Update(s, param, file, body, findFails, unlinkFault, saveFails);
      var broken := Found(s, param, findFails) && file.Some? && !unlinkFault && saveFails;
      && (Healthy(r.after) <==> !broken)
      && (broken ==> Dangling(r.after) == {s.records[param.id].imageUrl})
      && (r.status == Ok ==> Orphans(r.after) == Orphans(s))
      && (r.status != Ok && file.Some? ==> Orphans(r.after) == Orphans(s) + {file.value})
  {
    if Found(s, param, findFails) {
      if file.Some? {
        ReviseWithFileHealth(s, param.id, file.value, body, unlinkFault, saveFails);
      } else {
        ReviseTextHealth(s, param.id, body, saveFails);
      }
    } else if file.Some? {
      assert file.value !in Links(s.records).Values;
      Ownership.ReceiveOrphan(Links(s.records), s.files, file.value);
    }
  }

  lemma {:induction false} ReviseTextHealth(s: Store<Image>, id: Id, body: Body, saveFails: bool)
    requires Valid(s) && Healthy(s) && id in s.records
    ensures var r := Revise(s, id, None, body, false, saveFails);
      Healthy(r.after) && Orphans(r.after) == Orphans(s)
  {
    var r := Revise(s, id, None, body, false, saveFails);
    if !saveFails {
      var image := s.records[id].(title := body.title, description := body.description);
      assert r.after == s.(records := s.records[id := image]);
      LinksPut(s.records, id, image);
      assert Links(s.records)[id := image.imageUrl] == Links(s.records);
    }
  }

  lemma {:induction false} ReviseWithFileHealth(s: Store<Image>, id: Id, p: Path, body: Body,
                                                unlinkFault: bool, saveFails: bool)
    requires Valid(s) && Healthy(s) && id in s.records
    requires p !in s.files
    ensures var r := Revise(s, id, Some(p), body, unlinkFault, saveFails);
      var broken := !unlinkFault && saveFails;
      && (Healthy(r.after) <==> !broken)
      && (broken ==> Dangling(r.after) == {s.records[id].imageUrl})
      && (r.status == Ok ==> Orphans(r.after) == Orphans(s))
      && (r.status != Ok ==> Orphans(r.after) == Orphans(s) + {p})
  {
    var r := Revise(s, id, Some(p), body, unlinkFault, saveFails);
    var links := Links(s.records);
    var url := s.records[id].imageUrl;
    assert links[id] == url && url in links.Values;
    if unlinkFault {
      assert r.after == s.(files := s.files + {p});
      Ownership.ReceiveOrphan(links, s.files, p);
    } else if saveFails {
      assert r.after == s.(files := s.files + {p} - {url});
      assert Dangling(r.after) == links.Values - (s.files + {p} - {url});
      assert Orphans(r.after) == s.files + {p} - {url} - links.Values;
    } else {
      var image := Image(body.title, body.description, p);
      assert r.after == s.(records := s.records[id := image], files := s.files + {p} - {url});
      LinksPut(s.records, id, image);
      Ownership.ReplaceHealthy(links, s.files, id, p);
    }
  }

  /** Delete keeps the stores healthy; when the unlink throws after the record is gone,
      its file becomes an orphan. */
  lemma {:induction false} DeleteKeepsHealthy(s: Store<Image>, param: IdParam, deleteFails: bool, unlinkFault: bool)
    requires Valid(s) && Healthy(s)
    ensures var r := Delete(s, param, deleteFails, unlinkFault);
      && Healthy(r.after)
      && Orphans(r.after) == Orphans(s) +
           (if Found(s, param, deleteFails) && r.status == ServerError
            then {s.records[param.id].imageUrl} else {})
  {
    var r := Delete(s, param, deleteFails, unlinkFault);
    if Found(s, param, deleteFails) {
      LinksRemove(s.records, param.id);
      Ownership.RemoveHealthy(Links(s.records), s.files, param.id);
    }
  }

  /** A second delete of the same id finds nothing and changes nothing. */
  lemma {:induction false} DeleteTwiceIsNotFound(s: Store<Image>, id: Id, unlinkFault1: bool, unlinkFault2: bool)
    requires Valid(s) && id in s.records
    ensures var first := Delete(s, ObjectId(id), false, unlinkFault1);
      && first.status != NotFound
      && Delete(first.after, ObjectId(id), false, unlinkFault2) == Outcome(first.after, NotFound)
  {
    var first := Delete(s, ObjectId(id), false, unlinkFault1);
    assert id !in first.after.records;
  }

  /** One image's whole life from empty stores: created with a file at `p1`, replaced by a
      file at another path `p2` (the first is unlinked), then deleted, after which both
      stores are empty again. Uploads named in different milliseconds have different paths
      (`UploadPathCollision`). */
  lemma {:induction false} ImageLifecycle(p1: Path, p2: Path, b1: Body, b2: Body)
    requires p1 != p2
    ensures var created := Create(Store(map[], {}, 0), Some(p1), b1, false);
      var replaced := Update(created.after, ObjectId(0), Some(p2), b2, false, false, false);
      var deleted := Delete(replaced.after, ObjectId(0), false, false);
      && created.status == Created
      && created.after.records == map[0 := Image(b1.title, b1.description, p1)]
      && created.after.files == {p1}
      && replaced.status == Ok
      && replaced.after.records == map[0 := Image(b2.title, b2.description, p2)]
      && replaced.after.files == {p2}
      && deleted.status == Ok
      && deleted.after.records == map[] && deleted.after.files == {}
  {
    var created := Create(Store(map[], {}, 0), Some(p1), b1, false);
    assert created.after == Store(map[0 := Image(b1.title, b1.description, p1)], {p1}, 1);
    var replaced := Update(created.after, ObjectId(0), Some(p2), b2, false, false, false);
    assert {p1, p2} - {p1} == {p2};
    assert replaced.after == Store(map[0 := Image(b2.title, b2.description, p2)], {p2}, 1);
    var deleted := Delete(replaced.after, ObjectId(0), false, false);
    assert map[0 := Image(b2.title, b2.description, p2)] - {0} == map[];
    assert deleted.after == Store(map[], {}, 1);
  }

  // ---------------------------------------------------------------- the server

  /** The server's two stores, updated in place by its route handlers. */
  class ImageApp {
    var records: map<Id, Image>
    var files: set<Path>
    var nextId: Id

    function State(): Store<Image>
      reads this
    {
      Store(records, files, nextId)
    }

    constructor (start: Store<Image>)
      requires Valid(start)
      ensures State() == start
    {
      records, files, nextId := start.records, start.files, start.nextId;
    }

    /** `GET /api/images`: every record, or 500 when `find` fails. */
    method GetImages(findFails: bool) returns (status: Status, images: map<Id, Image>)
      ensures status == (if findFails then ServerError else Ok)
      ensures images == (if findFails then map[] else records)
    {
      if findFails {
        return ServerError, map[];
      }
      return Ok, records;
    }

    /** multer's `upload.single("image")`, run before each handler that takes a file. */
    method ReceiveUpload(upload: Option<Upload>) returns (path: Option<Path>)
      modifies this`files
      ensures path == Stored(upload)
      ensures files == Received(old(files), path)
    {
      path := None;
      if upload.Some? && upload.value.originalName != [] {
        path := Some(UploadPath(upload.value));
        files := files + {path.value};
      }
    }

    /** `fs.unlinkSync(p)`; `false` when it throws. */
    method UnlinkSync(p: Path, ioFault: bool) returns (ok: bool)
      modifies this`files
      ensures ok == Unlink(old(files), p, ioFault).Some?
      ensures files == if ok then old(files) - {p} else old(files)
    {
      ok := p in files && !ioFault;
      if ok {
        files := files - {p};
      }
    }

    /** `POST /api/images`. */
    method PostImage(upload: Option<Upload>, body: Body, saveFails: bool) returns (status: Status)
      requires Valid(State())
      modifies this
      ensures Outcome(State(), status) == Create(old(State()), Stored(upload), body, saveFails)
    {
      var file := ReceiveUpload(upload);
      if file.None? {
        return BadRequest;
      }
      var newImage := Image(body.title, body.description, file.value);
      if saveFails {
        return BadRequest;
      }
      records := records[nextId := newImage];
      nextId := nextId + 1;
      return Created;
    }

    /** `PUT /api/images/:id`. */
    method PutImage(param: IdParam, upload: Option<Upload>, body: Body,
                    findFails: bool, unlinkFault: bool, saveFails: bool) returns (status: Status)
      requires Valid(State())
      modifies this
      ensures Outcome(State(), status)
           == Update(old(State()), param, Stored(upload), body, findFails, unlinkFault, saveFails)
    {
      ghost var before := State();
      var file := ReceiveUpload(upload);
      if param.Malformed? || findFails {
        return BadRequest;
      }
      if param.id !in records {
        return NotFound;
      }
      ghost var revised := Revise(before, param.id, file, body, unlinkFault, saveFails);
      var imageToUpdate := records[param.id];
      if file.Some? {
        var unlinked := UnlinkSync(imageToUpdate.imageUrl, unlinkFault);
        if !unlinked {
          assert revised == Outcome(State(), BadRequest);
          return BadRequest;
        }
        imageToUpdate := imageToUpdate.(imageUrl := file.value);
      }
      imageToUpdate := imageToUpdate.(title := body.title, description := body.description);
      if saveFails {
        assert revised == Outcome(State(), BadRequest);
        return BadRequest;
      }
      records := records[param.id := imageToUpdate];
      assert revised == Outcome(State(), Ok);
      return Ok;
    }

    /** `DELETE /api/images/:id`. */
    method DeleteImage(param: IdParam, deleteFails: bool, unlinkFault: bool) returns (status: Status)
      requires Valid(State())
      modifies this
      ensures Outcome(State(), status) == Delete(old(State()), param, deleteFails, unlinkFault)
    {
      if param.Malformed? || deleteFails {
        return ServerError;
      }
      if param.id !in records {
        return NotFound;
      }
      var deletedImage := records[param.id];
      records := records - {param.id};
      var unlinked := UnlinkSync(deletedImage.imageUrl, unlinkFault);
      if !unlinked {
        return ServerError;
      }
      return Ok;
    }
  }
}
