/** What both servers share: record ids, the outcome of a request, where multer puts an
    upload, and `fs.unlinkSync` over the set of files in the uploads directory. */
module Stores {
  import opened Wrappers

  /** A record id assigned by the store. */
  type Id = nat

  /** A path of a file, relative to the server's working directory. */
  type Path = string

  /** The `:id` route parameter: a well-formed ObjectId, or text that Mongoose cannot cast
      to one (its queries then throw a CastError). */
  datatype IdParam = ObjectId(id: Id) | Malformed

  /** The response a handler gives: 200, 201, 400, 404 or 500; `NoResponse` is a handler
      whose promise is rejected outside any `try`, which Express 4 never answers. */
  datatype Status = Ok | Created | BadRequest | NotFound | ServerError | NoResponse

  /** A server's two stores: its Mongoose collection, the files in `uploads/`, and
      `nextId`, which stands for the collection's supply of fresh ids. */
  datatype Store<R> = Store(records: map<Id, R>, files: set<Path>, nextId: Id)

  /** The stores after a request, and the status it was answered with. */
  datatype Outcome<R> = Outcome(after: Store<R>, status: Status)

  /** Every id in use came from the store's supply. */
  predicate Valid<R>(s: Store<R>) {
    forall id :: id in s.records ==> id < s.nextId
  }

  /** `findById` (or `findByIdAndDelete`) answered with the record `param` names: the id
      casts, the query does not fail, and the record exists. */
  predicate Found<R>(s: Store<R>, param: IdParam, queryFails: bool) {
    param.ObjectId? && !queryFails && param.id in s.records
  }

  /** Both servers' multer destination, as `path.join` normalises it. */
  const UploadsDir: string := "uploads/"

  /** `file.path` for a file multer stored under `filename`. */
  function DiskPath(filename: string): (p: Path)
    ensures |p| == |UploadsDir| + |filename| && p[..|UploadsDir|] == UploadsDir
    ensures p[|UploadsDir|..] == filename
  {
    UploadsDir + filename
  }

  /** The stored name of a path in `uploads/`, the inverse of `DiskPath`. */
  function StoredNameOf(p: Path): (r: Option<string>)
    ensures r.Some? <==> exists name :: p == DiskPath(name)
    ensures r.Some? ==> p == DiskPath(r.value)
  {
    if |p| >= |UploadsDir| && p[..|UploadsDir|] == UploadsDir
    then
      assert p == DiskPath(p[|UploadsDir|..]);
      Some(p[|UploadsDir|..])
    else None
  }

  /** `fs.unlinkSync(p)`: throws (None) when no file is at `p` or when the file system
      refuses (`ioFault`), otherwise removes exactly that file. */
  function Unlink(files: set<Path>, p: Path, ioFault: bool): (r: Option<set<Path>>)
    ensures r.Some? <==> p in files && !ioFault
    ensures r.Some? ==> p !in r.value && r.value + {p} == files
  {
    if p in files && !ioFault then Some(files - {p}) else None
  }
}
