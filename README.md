# Image and file-item upload servers, modelled in Dafny

The repository holds two small Express servers, and each keeps two stores in step. The
first store is a MongoDB collection of records. The second is the `uploads/` directory,
where multer writes the file of a multipart request before the route handler runs.

- `Backend/index.js` serves `Image {title, description, imageUrl}` records through
  `GET`, `POST`, `PUT` and `DELETE /api/images`. It names an upload `Date.now()` followed
  by `path.extname` of the original name.
- `Backend/models/Product.js` is a second whole server. It serves
  `FileItem {filename, filePath}` records, whose schema marks both fields required,
  through `GET`, `POST` and `DELETE /api/fileItems`. It names an upload with
  `new Date().toISOString()`, then `-`, then the whole original name.

Each server is modelled as a `Store` value: `records: map<Id, Record>`, `files: set<Path>`,
and a supply of fresh ids. Each route handler is a function from the store before the
request to an `Outcome`, which holds the store after it and the status answered: 200, 201,
400, 404, 500, or no response at all. Every Mongoose call and every `fs.unlinkSync` may
fail, and a boolean input says whether it does, so every error path is stated. A request's
file is already in `files` when the handler starts, because multer runs first. Each server
also has a class (`ImageApp`, `FileItemApp`) holding the two stores as fields. Its
methods perform the handler's steps in the source's order, with early returns and the
fetched record changed field by field. Each method is proved to end in the state and
status the function gives.

The relation the handlers try to keep is `Healthy` (module `Ownership`): every record
points at an existing file, and no two records point at the same one. Files no record
points at are `Orphans`. Paths that records point at but that name no file are `Dangling`.
The health lemmas say exactly how each handler moves these sets, for an upload whose path
no stored file has yet. That is the case whenever no stored file was named at the same
clock reading (`UploadPathFresh`). The case they set aside is an upload that lands on the
path of an existing record's file. multer overwrites that file, and a successful create
then leaves two records on one file (`CreateOnTakenPath`).

Some behaviour of the handlers is easy to miss:

- multer skips a file part whose client name is empty, so such a request reaches the handler with no file and nothing is written.
- A failed save does not remove the file multer already wrote.
- `PUT` unlinks the old file before it saves. When that save then fails, the record still
  points at the unlinked file, and the new upload is an orphan (`UpdateHealth`).
- A failing unlink in `PUT` answers 400.
- The file-item delete never unlinks the file.
- The file-item create reads `req.file.originalname` outside its `try`. Without a file it
  throws, stores nothing and never answers.

In `Backend/index.js` the stored name is the millisecond count followed by the
extension only, e.g. `uploads/169900.jpg` for `cat.jpg`.

Files: `wrappers.dfy` (Option), `decimal.dfy` (decimal numerals), `node_path.dfy`
(`path.extname`), `iso_time.dfy` (the `toISOString` format), `stores.dfy` (ids, statuses, the generic store and outcome,
upload paths, `fs.unlinkSync`), `ownership.dfy` (the record/file relation),
`image_server.dfy` and `file_item_server.dfy` (the two servers).

## Model

| member | source | states |
|---|---|---|
| NodePath.ExtName | Backend/index.js:33 | `path.extname` is empty or starts with its only '.', holds no '/', and is non-empty only when the last component contains a '.' |
| NodePath.ExtNameOfDotted | Backend/index.js:33 | a component `stem.ext` whose `ext` holds no '.' has extension `.ext`, the dot included |
| NodePath.ExtNameWithoutDot | Backend/index.js:33 | a name with no '.' at all has no extension |
| NodePath.ExtNameOfDotfile | Backend/index.js:33 | a name whose only '.' is its first character has no extension |
| NodePath.ExtNameOfNested | Backend/index.js:33 | only the last path component decides the extension |
| Decimal.Numeral | Backend/index.js:33 | the decimal text of `Date.now()`: at least one digit, all digits, no leading zero, and its value is the number |
| Decimal.DigitPrefixOfNumeral | Backend/index.js:33 | in a numeral followed by text that starts with no digit, the leading run of digits is exactly the numeral |
| Stores.DiskPath | Backend/index.js:29-31 | the path multer reports is `uploads/` followed by the stored name |
| Stores.StoredNameOf | Backend/index.js:29-31 | a path is in `uploads/` exactly when it is the disk path of some name, and then it is the disk path of the name returned |
| Stores.Unlink | Backend/index.js:80 | `fs.unlinkSync` succeeds exactly when the file exists and the file system does not fail, and then removes exactly that file |
| ImageServer.StoredName | Backend/index.js:32-34 | the name multer gives an upload is a single path component, so the file lands directly in `uploads/` |
| ImageServer.StoredNameKeepsExtension | Backend/index.js:33 | the stored name has the same `path.extname` as the client's file name |
| ImageServer.UploadPath | Backend/index.js:28-35 | `file.path` is the disk path in `uploads/` whose stored name is the callback's name |
| ImageServer.ParseStoredNameOfStoredName | Backend/index.js:32-34 | a stored name reads back as the `Date.now()` reading and the original name's extension |
| ImageServer.ParseUploadPathOfUploadPath | Backend/index.js:28-34 | an upload path reads back as the clock reading and the extension |
| ImageServer.UploadPathCollision | Backend/index.js:32-34 | two uploads share a path exactly when they were named in the same millisecond with the same extension |
| ImageServer.UploadPathFresh | Backend/index.js:32-34 | an upload named in a millisecond no stored file carries lands on a new path |
| ImageServer.Stored | Backend/index.js:51 | multer yields a path exactly when the request has a file part with a non-empty client name, and that path's stored name is the callback's name |
| ImageServer.Create | Backend/index.js:51-67 | no file: 400 with both stores unchanged; otherwise the upload stays in `files`; 201 exactly when the save succeeds, adding one new record with the body's title and description and the upload's path and leaving the others unchanged; a failed save answers 400 with records unchanged |
| ImageServer.Update | Backend/index.js:69-92 | a malformed id or failed `findById` answers 400 and a missing id 404, both with records unchanged and the upload kept; without a file `files` never changes; otherwise the rest of the handler runs |
| ImageServer.Revise | Backend/index.js:79-91 | with a file: an unlink that throws answers 400 with the record unsaved and the upload kept; after a successful unlink the old file is gone and 200 comes exactly when the save succeeds; the saved record has the body's title and description and the new path, or the old path without a file |
| ImageServer.Delete | Backend/index.js:94-107 | a malformed id or failed delete answers 500 and a missing id 404, both changing nothing; otherwise the record is removed and 200 comes exactly when its file existed and was unlinked; an unlink failure answers 500 with the record already gone |
| ImageServer.CreateKeepsHealthy | Backend/index.js:56-66 | create keeps every record on a file of its own; a failed save leaves the upload as exactly one new orphan |
| ImageServer.UpdateHealth | Backend/index.js:69-92 | update keeps the stores healthy except when a file came, the unlink succeeded and the save failed; then the old path is the only dangling path; a 200 adds no orphan; every other status with a file, that case included, orphans exactly the upload |
| ImageServer.ReviseTextHealth | Backend/index.js:84-87 | an update without a file keeps the stores healthy and the orphans unchanged |
| ImageServer.ReviseWithFileHealth | Backend/index.js:79-91 | for a record found and a file: health is lost exactly when the unlink succeeds and the save fails, the old path then being the only dangling one; a 200 adds no orphan; any other status orphans exactly the upload |
| ImageServer.CreateOnTakenPath | Backend/index.js:51-67 | an upload on the path of an existing image's file is saved with 201, leaves `files` as it was, and breaks health: two images then point at one file |
| ImageServer.DeleteKeepsHealthy | Backend/index.js:94-107 | delete keeps the stores healthy; when the unlink fails after the record is gone, its file becomes the one new orphan |
| ImageServer.DeleteTwiceIsNotFound | Backend/index.js:98-101 | a second delete of the same id answers 404 and changes nothing |
| ImageServer.ImageLifecycle | Backend/index.js:51-107 | create, replace the file, then delete, starting from empty stores, ends with empty stores, each step answering as expected |
| ImageServer.ImageApp.GetImages | Backend/index.js:42-49 | list answers 200 with exactly the current records, or 500 when `find` fails, and changes nothing |
| ImageServer.ImageApp.ReceiveUpload | Backend/index.js:28-36 | before the handler runs, multer writes a file part with a non-empty client name to its stored path, and writes nothing for any other request |
| ImageServer.ImageApp.UnlinkSync | Backend/index.js:80 | the in-place unlink behaves as `Unlink` |
| ImageServer.ImageApp.PostImage | Backend/index.js:51-67 | the handler's steps end in exactly the state and status of `Create` |
| ImageServer.ImageApp.PutImage | Backend/index.js:69-92 | the steps end in exactly the state and status of `Update`: fetch, unlink, then the fields set on the fetched record, then save |
| ImageServer.ImageApp.DeleteImage | Backend/index.js:94-107 | the handler's steps end in exactly the state and status of `Delete` |
| IsoTime.ToIsoString | Backend/models/Product.js:42 | `toISOString` text is 24 characters with its separators `-`, `-`, `T`, `:`, `:`, `.`, `Z` in place and no `/` |
| IsoTime.ParseIsoOfToIso | Backend/models/Product.js:42 | the timestamp text reads back as the clock reading it was printed from |
| IsoTime.ToIsoStringInjective | Backend/models/Product.js:42 | two clock readings print the same timestamp exactly when they are equal |
| FileItemServer.StoredName | Backend/models/Product.js:41-43 | the stored name is the 24-character timestamp, a '-' and the whole original name, and holds a '/' exactly when the original name does |
| FileItemServer.Receive | Backend/models/Product.js:37-45 | `req.file` carries the client's name and a non-empty path in `uploads/` whose stored name is the callback's name |
| FileItemServer.ParseStoredNameOfStoredName | Backend/models/Product.js:41-43 | a stored name reads back as the clock reading and the whole original name |
| FileItemServer.ParseUploadPathOfUpload | Backend/models/Product.js:37-43 | an upload path reads back as the clock reading and the whole original name |
| FileItemServer.UploadPathCollision | Backend/models/Product.js:41-43 | two uploads share a path exactly when they have the same clock reading and the same original name |
| FileItemServer.UploadPathFresh | Backend/models/Product.js:41-43 | an upload named at a clock reading no stored file carries lands on a new path |
| FileItemServer.Required | Backend/models/Product.js:29-32 | the schema's `required` validator: both fields present and non-empty |
| FileItemServer.Stored | Backend/models/Product.js:57 | `req.file` exists exactly when the request has a file part with a non-empty client name, and is then that upload's `Receive` |
| FileItemServer.StoredIsRequired | Backend/models/Product.js:29-32 | every file multer hands over passes the `required` validator |
| FileItemServer.CreateRejectsOnlyFailedSave | Backend/models/Product.js:57-69 | through multer, create answers 400 exactly when there is a file and the save fails: the validator never rejects |
| FileItemServer.Create | Backend/models/Product.js:57-69 | no file: no response and nothing changes; otherwise the upload stays in `files`; 201 exactly when both required fields (schema, lines 29-32) are non-empty and the save succeeds, adding one record with the original name and the stored path and leaving the others unchanged; otherwise 400 with records unchanged |
| FileItemServer.Delete | Backend/models/Product.js:71-82 | never changes `files`; a malformed id or failed `findById` answers 500 and a missing id 404, both changing nothing; 200 exactly when the record was found and `remove` succeeded, removing that record alone |
| FileItemServer.CreateKeepsHealthy | Backend/models/Product.js:57-69 | create keeps every record on a file of its own; a rejected save leaves the upload as exactly one new orphan |
| FileItemServer.CreateOnTakenPath | Backend/models/Product.js:57-69 | an upload on the path of an existing item's file is saved with 201, leaves `files` as it was, and breaks health: two items then point at one file |
| FileItemServer.DeleteOrphansFile | Backend/models/Product.js:77-78 | delete keeps the stores healthy, and a successful delete leaves the deleted record's file as one new orphan |
| FileItemServer.DeleteTwiceIsNotFound | Backend/models/Product.js:73-76 | a second delete of the same id answers 404 and changes nothing |
| FileItemServer.FileItemApp.GetFileItems | Backend/models/Product.js:48-55 | list answers 200 with exactly the current records, or 500 when `find` fails, and changes nothing |
| FileItemServer.FileItemApp.ReceiveUpload | Backend/models/Product.js:37-45 | before the handler runs, multer hands over `req.file` and writes it to its stored path for a file part with a non-empty client name, and does neither for any other request |
| FileItemServer.FileItemApp.PostFileItem | Backend/models/Product.js:57-69 | the handler's steps end in exactly the state and status of `Create` |
| FileItemServer.FileItemApp.DeleteFileItem | Backend/models/Product.js:71-82 | the handler's steps end in exactly the state and status of `Delete` |
| Ownership.AddHealthy | Backend/index.js:59-63 | adding a record on a new file keeps the stores healthy and the orphans unchanged |
| Ownership.ReplaceHealthy | Backend/index.js:79-88 | pointing a record at a new file and removing its old one keeps the stores healthy and the orphans unchanged |
| Ownership.RemoveHealthy | Backend/index.js:98-102 | removing a record keeps the stores healthy; its file is removed or becomes an orphan |

## Left out

- The React front end (`Frontend/brainedapp/src/App.js`) is not part of this model.
- The database connection and its events, the Express wiring, CORS, body parsing, static file serving, the catch-all route and `listen` are not modelled.
- Multer's writing of the file's bytes is left out. The model keeps only which paths exist. A failure while multer writes is not modelled either. Neither is multer's own rejection of a request whose file comes under a field other than `image` (or `file`), which answers with multer's "Unexpected field" error before any handler runs.
- The clock is an input. `Date.now()` is a natural number. The reading behind `toISOString` is a UTC calendar reading.
- IsoTime.ToIsoString: covers the years 0 to 9999 only. The converter from milliseconds to a calendar date is left out. So is the six-digit signed year format `toISOString` uses outside that range.
- ImageServer.StoredName: assumes a non-negative `Date.now()` below 1e21. Outside that range JavaScript prints a minus sign or an exponent.
- The client's file name is taken as multer passes it to the `filename` callback. multer's parser strips directory parts from it first, and turns `..` into an empty name, which multer then skips. That clean-up is not modelled, so the names the model admits include some no request can deliver. `UploadsDir` is the normalised destination `uploads/` of both servers.
- Two uploads named alike overwrite each other's contents. The model keeps only which paths exist. `UploadPathCollision` says when names are alike.
- What happens to the Node process after the file-item create rejects its promise is not modelled. On Node 15 and later an unhandled rejection ends the process by default. The model says only that this request is not answered and changes neither store.
- Concurrent requests are not modelled. Each handler runs to completion on its own.
- Ids are drawn from a counter, not generated as ObjectIds. Any id text Mongoose cannot cast is one value, `Malformed`.
- The `remove()` document method is taken to exist, as in the Mongoose 5 that the connection options point to.
- Message texts and the JSON form of responses are left out. A response is a `Status`.
- Validation beyond the required fields, and a title or description sent as something other than text, are not modelled.
