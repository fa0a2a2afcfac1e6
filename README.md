# files_manager: request checks, record building and the thumbnail worker

This project models, in Dafny, the decision logic of a small multi-user file
storage service written in JavaScript (Express, MongoDB, Redis, Bull):

- **Upload** (`postUpload`): the caller's `x-token` is resolved through the
  session store to a stored user; the body fields are checked in the fixed
  order name, type, data, then the parent; `parentId` defaults to 0 (the root)
  and `isPublic` to false; a folder becomes a document without `localPath`,
  while a file or image is first written to `<FOLDER_PATH>/<uuid>` and then
  becomes a document holding that path.
- **Sign-up** (`postNew`) and **current user** (`getMe`): email, then password,
  then email uniqueness; one user is inserted holding the SHA-1 digest of the
  password.
- **Login** (`getConnected`): HTTP Basic credentials (section 2 of RFC 7617,
  base64 as in section 4 of RFC 4648) are split on `:`, the digest of the
  offered password is compared with the stored one, and a session key
  `auth_<token>` is put with a lifetime of 24 × 3600 seconds.
- **Worker**: the `fileQueue` handler checks the job payload, looks the file
  up and writes thumbnails of widths 500, 250 and 100 to `<localPath>_500`,
  `_250`, `_100`; the `userQueue` handler checks the payload and looks the
  user up.

The stores are objects whose fields the operations update in place
(`Stores.Database` with the `users` and `files` collections, `Stores.Cache`
for the session store, `Stores.Disk` for the file system). Each handler is a
pure function on values (`Files.Upload`, `Users.SignUp`, `Auth.Connect`,
`Worker.FileJob`, ...) and a method on the stores whose postcondition ties the
new state to that function (`Files.PostUpload`, `Users.PostNew`,
`Auth.GetConnected`, `Worker.ProcessFileJob`). The order of the checks is
specified independently: a `...Failures` function evaluates every check on its
own, and each handler is proved to report the first entry of that list.

JavaScript truthiness (`if (!x)`, `x ? x : d`) is modelled by `Js.JsValue` and
`Js.Truthy`; an array or object value is kept as its JSON text, so two of them
are equal exactly when their contents are. Foreign functions are parameters, so nothing is assumed about
them: `sha1` (not even injectivity), base64 decoding, the fresh `uuidv4()`
string, the id the database assigns (required to be unused, as the database
guarantees) and the image library.

Where the code as written cannot behave as its evident intent (a lookup that
is not awaited, a missing `return`), the model follows the intent, and the
code as written is modelled beside it under "## Findings". Further deviations
from the letter of the code:

- `controllers/AuthController.js:7` reads the header `Authorization`, but Node
  stores header names in lower case; the model takes the header's value.
- `controllers/AuthController.js:13` decodes the whole header; the model
  decodes what follows the `Basic ` scheme name when it is there
  (`Auth.BasicToken`), as the requests in `tests/test_AuthController.js:43-46` carry it.
- `controllers/UsersController.js:47` does not parse (a parenthesis is
  missing) and calls a `redisClient.findOne` that does not exist; the model
  looks the session's user up by id in `users`. Because of that syntax error
  the whole module fails to load, so as written `postNew` cannot run either;
  the model takes both handlers as they evidently read.
- `utils/db.js` defines no `findOne`/`insertOne` and leaves `this.db` unset;
  the collections are modelled as sequences with the lookups the controllers
  evidently mean.
- `worker.js:48-50` call `fs.writeFile` without a callback, which Node
  rejects by throwing at the first call; the model makes the three writes,
  in the corrected handler and in the handler as written alike.

The login keeps the code's split on every colon: the password is the text
between the first and the second colon, so a password containing a colon is
cut short, unlike section 2 of RFC 7617 (`Auth.CredentialsTruncatePassword`).

## Model

| member | source | states |
|---|---|---|
| Records.ParseType | controllers/FilesController.js:32-35 | a type is accepted exactly when it is one of the strings 'folder', 'file', 'image', and the kind returned is the one it names |
| Records.Find | controllers/UsersController.js:20 | an equality lookup finds a stored document whose key equals the one asked for, or answers none exactly when no document has it |
| Records.FindFindsMember | controllers/UsersController.js:20 | with keys distinct across the collection, looking a stored document up by its own key yields that very document |
| Records.FindUserById | controllers/FilesController.js:17-18 | finds a stored user with that id, or answers none exactly when no user has it |
| Records.FindUserByEmail | controllers/UsersController.js:20 | finds a stored user with that email, or answers none exactly when no user has it |
| Records.FindFile | controllers/FilesController.js:48 | finds a stored document whose id the reference names, or none exactly when none matches; a non-string reference names nothing |
| Records.FindUserByRef | worker.js:64 | a job's `userId` names a stored user exactly when it is that user's id string |
| Records.FindUserByIdFindsMember | controllers/UsersController.js:45-54 | with distinct ids, looking a stored user up by its id yields that very user |
| Records.FindUserByEmailFindsMember | controllers/AuthController.js:16 | with distinct emails, looking a stored user up by its email yields that very user |
| Records.FindFileFindsMember | controllers/FilesController.js:48 | with distinct ids, looking a stored document up by its id yields that very document |
| Stores.ResolveToken | controllers/FilesController.js:11-17 | a missing or empty `x-token` never resolves; a token resolves exactly when `auth_<token>` is stored, and then to the id stored under it |
| Stores.Database.InsertUser | controllers/UsersController.js:26-29 | appends exactly one user under an unused id; `files` unchanged; ids stay distinct |
| Stores.Database.InsertFile | controllers/FilesController.js:71 | appends exactly one document under an unused id; `users` unchanged; ids stay distinct |
| Stores.Cache.SetEx | utils/redis.js:31-34 | puts one key with its lifetime; every other key and lifetime unchanged |
| Stores.Disk.WriteFile | controllers/FilesController.js:84 | the file at the path now holds the content; no other path changes |
| Files.CheckUpload | controllers/FilesController.js:11-60 | rejects exactly when some check fails and reports the first failing one in the order token, user, name, type, data, parent; on success carries the session's user, the kind, the name, `parentId` defaulted to 0 and `isPublic` defaulted to false |
| Files.ParentProblem | controllers/FilesController.js:44-57 | the root needs no lookup; 'Parent not found' exactly when no stored document has the referenced id; accepting a non-root reference means a stored folder has that id; the only problems are the two parent messages |
| Files.Upload | controllers/FilesController.js:62-94 | a document is inserted exactly when no check fails and a reply is sent, and the reply is then 201 echoing id, userId, name, type, isPublic, parentId; a rejection writes nothing and replies with the first failure's status and message; a file or image whose `data` `Buffer.from` cannot take (a number, `true`, a plain object) gets no reply and nothing is written or inserted; folders get no `localPath` and no file, files and images get `<folder>/<uuid>` holding the decoded data |
| Files.PostUpload | controllers/FilesController.js:8-95 | on the stores: `files` gains exactly the document `Upload` gives (none on failure or throw), `users` is unchanged, the file system gains exactly its one write, ids stay distinct |
| Files.UndecodableDataUnanswered | controllers/FilesController.js:64-84 | past every check, a file or image whose `data` is a number, `true` or a plain object gets no reply and nothing is written or inserted, while a folder with the same `data` is stored |
| Files.NoTokenInsertsNothing | controllers/FilesController.js:11-14 | without an `x-token` the reply is 401 Unauthorized and nothing is inserted or written |
| Files.UnknownSessionInsertsNothing | controllers/FilesController.js:16-21 | a token without a session, or whose session names no stored user, gets 401 and nothing is inserted or written |
| Files.MissingNameReportedFirst | controllers/FilesController.js:25-29 | an authenticated request with a falsy name gets 'Missing name' whatever its type, data and parent |
| Files.UnknownTypeRejected | controllers/FilesController.js:31-35 | past the name, a type other than the three strings gets 'Missing type' |
| Files.DataRequiredUnlessFolder | controllers/FilesController.js:37-41 | past name and type, missing data gets 'Missing data' exactly when the type is not 'folder' |
| Files.ParentMustBeStoredFolder | controllers/FilesController.js:43-57 | a non-root parent naming no document gets 'Parent not found', one naming a non-folder gets 'Parent is not a folder', and neither inserts |
| Files.UploadKeepsParentsFolders | controllers/FilesController.js:44-57 | every upload keeps each document's parent either the root or a folder stored before it |
| Files.UploadIntoStoredFolder | controllers/FilesController.js:44-57 | naming a stored folder as parent passes the checks and the document keeps that parent |
| Files.ParentCheck | controllers/FilesController.js:45-57 | the tests of lines 49 and 54 on the value line 48 gives: the root needs none, 'Parent not found' exactly for `null`, and acceptance only of a found folder |
| Files.ParentCheckAwaited | controllers/FilesController.js:45-57 | with the lookup awaited, the tests of lines 49 and 54 decide exactly as `ParentProblem` |
| Files.ParentProblemAsWritten | controllers/FilesController.js:48-56 | as written, the pending Promise passes line 49 and fails line 54: every non-root parent reference is refused with 'Parent is not a folder' |
| Files.ParentAsWrittenRefusesFolders | controllers/FilesController.js:48-56 | as written, a stored folder is refused as parent while the awaited lookup accepts it |
| Users.SignUp | controllers/UsersController.js:5-32 | inserts exactly when no check fails, reporting the first failure in the order email, password, uniqueness; the user inserted holds the email and `sha1(password)`; the reply is 201 with the id and email |
| Users.PostNew | controllers/UsersController.js:5-33 | on the database: `users` gains exactly the user `SignUp` gives (none on failure), `files` unchanged, ids stay distinct |
| Users.SignUpKeepsEmailsDistinct | controllers/UsersController.js:20-29 | a sign-up never stores a second user with an email already stored |
| Users.SequentialSignUpsKeepEmailsDistinct | controllers/UsersController.js:20-29 | any sequence of sign-ups run one after another leaves at most one user per email |
| Users.RepeatedSignUpRefused | controllers/UsersController.js:20-25 | after a successful sign-up, a second one with the same email gets 'Already exist' and inserts nothing |
| Users.GetMe | controllers/UsersController.js:35-55 | 200 exactly when a token is sent and its session names a stored user, and then the body is that user's id and email; otherwise 401 Unauthorized |
| Auth.BasicToken | controllers/AuthController.js:13 | the text after a leading `Basic ` scheme name, and the whole header when it has none |
| Auth.Credentials | controllers/AuthController.js:14 | the email is the whole text before the first colon, and the whole string when it has none; the password is undefined exactly when the string has no colon, and otherwise is the whole text between the first colon and the next one or the end |
| Auth.SplitPiecesWhole | controllers/AuthController.js:14 | without a colon the one piece is the string itself; the second piece runs from the first colon to the next colon or the end |
| Auth.SplitPrefixes | controllers/AuthController.js:14 | `split(':')` gives one piece exactly when there is no colon, and the first piece, and the first two with their colon, start the string |
| Auth.Split | controllers/AuthController.js:14 | `split(':')` gives at least one piece and no piece contains a colon |
| Auth.JoinSplit | controllers/AuthController.js:14 | joining the pieces with ':' gives back the decoded string |
| Auth.SplitJoin | controllers/AuthController.js:14 | splitting colon-free pieces joined with ':' gives back the pieces |
| Auth.SplitAfterPiece | controllers/AuthController.js:14 | a leading colon-free piece is glued to the first piece of the rest |
| Auth.CredentialsOfPair | controllers/AuthController.js:14 | `email:password` without further colons yields that email and password |
| Auth.CredentialsTruncatePassword | controllers/AuthController.js:14 | a password containing a colon is cut at it, unlike RFC 7617 section 2 |
| Auth.Connect | controllers/AuthController.js:6-27 | success exactly when a header is sent, its email is stored and the digest of the offered password equals the stored one; every failure is the same 401 Unauthorized; success replies with the token only and puts `auth_<token>` mapped to the user's id |
| Auth.GetConnected | controllers/AuthController.js:6-28 | on the session store: success adds exactly the key `auth_<token>` with the user's id and lifetime 86400 seconds, no other key changes; failure changes nothing |
| Auth.LoginThenMe | controllers/AuthController.js:19-27 | a stored user sending the right `email:password` logs in, and `getMe` with the new token then returns that user's id and email |
| Auth.ConnectAsWritten | controllers/AuthController.js:7-27 | the handler as written, on the value line 16 gives: it replies 401 or the token; 401 whenever no header is stored under the name `Authorization`, and 401 whenever the lookup is a pending Promise |
| Auth.ConnectAsWrittenAwaited | controllers/AuthController.js:13-21 | with the lookup awaited and a header without the `Basic ` prefix, the test of line 19 replies exactly as `Connect` |
| Auth.ConnectAsWrittenRefusesValidLogin | controllers/AuthController.js:7-21 | as written, a stored user with the right password is refused (under Node's lower-case header name, and even under the name line 7 reads, because of the pending Promise) while the awaited lookup logs them in |
| Worker.ThumbnailPath | worker.js:44-46 | a thumbnail path extends its source path by four characters starting with `_` |
| Worker.ThumbnailPathsDistinct | worker.js:44-46 | two thumbnail paths are equal exactly when source and width are, and no thumbnail path equals its source path |
| Worker.Thumbnails | worker.js:38-46 | the three writes, in the order 500, 250, 100, each at `<localPath>_<width>` with the image made at that width; none when the library rejects a request |
| Worker.FileJob | worker.js:18-54 | fails exactly when a check fails, with the first message in the order 'Missing fileId', 'Missing userId', 'File not found', and then writes nothing; completes exactly when no check fails and the library makes all three thumbnails, and then writes exactly the document's three thumbnails |
| Worker.ApplyWritesOverlay | worker.js:48-50 | writing in order leaves the file system overlaid with the last content written to each path |
| Worker.ApplyWritesIdempotent | worker.js:48-50 | making the same writes twice leaves the file system as making them once |
| Worker.RerunLeavesSameFiles | worker.js:44-51 | re-running a job on the same documents leaves the file system as one run does |
| Worker.ProcessFileJob | worker.js:18-54 | on the file system: the outcome is `FileJob`'s, and the file system is the old one after exactly its writes |
| Worker.UserJob | worker.js:57-76 | 'Missing userId' before any lookup, 'User not found' when the id names no stored user, completion exactly when it does |
| Worker.FileJobAsWritten | worker.js:18-54 | as written: thumbnails are written only in a run whose last `done` is the completing one, and with both `fileId` and `userId` present `done` is called at most once and the writes are the corrected handler's |
| Worker.FileJobAsWrittenSignalsTwice | worker.js:20-36 | as written, a job missing `fileId` or `userId` whose lookup fails calls `done` at least twice, and the call that settles it carries the corrected outcome |
| Worker.FileJobIsFirstSignal | worker.js:20-51 | the job is settled as written exactly as the corrected handler settles it, and left unsettled exactly when that one never calls `done` |
| Worker.MissingUserIdStillWritesThumbnails | worker.js:25-51 | as written and with the writes taken to work (see the `fs.writeFile` deviation above), a job for a stored image without `userId` is settled as failed with 'Missing userId' and still gets its three thumbnails written, where the corrected handler writes nothing |
| Worker.UploadedImageGetsThumbnails | worker.js:33-46 | an image just uploaded, processed with its new id and owner, gets exactly three thumbnails at `<path>_500`, `<path>_250`, `<path>_100` of the path its bytes were written to |

## Left out

- Express routing, request parsing and `res` plumbing: a handler's reply is a status and a JSON body value.
- MongoDB and Redis connections, `isAlive`, and failures of `insertOne` or `setex`; a failed Redis `get` answers absent (`utils/redis.js:23-27`), which the model does not tell apart from a missing key.
- Key expiry: the lifetime set with each session key is kept as ghost state of `Stores.Cache`; the store's expiring of keys is its own behaviour and is not modelled.
- `sha1`, base64 decoding, `uuidv4`, ObjectId generation and `image-thumbnail` are parameters; what the real `sha1` package does with an `undefined` password (no colon in the credentials) is not modelled.
- Files.Upload: `Buffer.from` also accepts an object with a numeric `length` or of the form `{type: 'Buffer', data: [...]}`; the model counts every non-array object among the values it throws on.
- An id that `new ObjectId` cannot take (a string that is not 12 bytes or 24 hex digits, `true`, a plain object) makes it throw, and a number makes it mint a time-based id; for `parentId` (`controllers/FilesController.js:48`), the job's `fileId` (`worker.js:33`) and `userId` (`worker.js:64`) every such non-matching value is modelled as naming no document, so the model answers 'Parent not found' or fails the job where the source throws and leaves the request unanswered or the job unsettled.
- Records.FindFile: a reference names a document only when it is the very string of its id; `new ObjectId` (`controllers/FilesController.js:48`, `worker.js:33`) also takes the upper-case hex spelling of an id, and in some driver versions any 12-character string, so such spellings name a stored document in the source and nothing in the model (`Files.ParentProblem` answers 'Parent not found', `Worker.FileJob` 'File not found').
- Records.FindUserByRef: the same holds for the job's `userId` (`worker.js:64`): an upper-case or 12-character spelling of a stored user's id finds that user in the source, and `Worker.UserJob` answers 'User not found' in the model.
- Users.PostNew: the handler is modelled as one atomic step; in the source it awaits between the `findOne({ email })` of `controllers/UsersController.js:20` and the `insertOne` of line 26 and no unique index is declared, so two concurrent sign-ups with the same email can both pass the check and both be stored. `Users.SequentialSignUpsKeepEmailsDistinct` is stated for sign-ups run one after another for that reason.
- Users.SignUp: an object-valued email whose keys begin with `$` (`{"$ne": null}`) is read by MongoDB as a query operator and can match every user, and an array-valued email also matches a stored array that contains it; the model compares the email with each stored one by equality of content only.
- Numbers are integers: `NaN` and fractions in request bodies are not modelled.
- The directory creation (`fs.mkdir`, `controllers/FilesController.js:80`) and console logging.
- No controller enqueues a `fileQueue` or `userQueue` job in this code, so enqueueing is not modelled; the worker lemmas take the job payload as given.
- The `fileQueue` handler does not compare the document's owner with the job's `userId`; neither does the model.
- Logout, listing, publishing and raw-data retrieval are not part of this code base and are not modelled.
- When the image library rejects its input the `fileQueue` handler throws before calling `done`; the model records the outcome `Unsignalled` and does not model the unhandled rejection itself.

## Findings

| source | as written | input that shows it | evidently intended | confidence | as-written member | corrected member |
|---|---|---|---|---|---|---|
| controllers/FilesController.js:48 | `findOne` is not awaited: `parentFolder` is a pending Promise, truthy and without `type` | an upload whose `parentId` is the id of a stored folder gets 'Parent is not a folder' | await the lookup, so a stored folder is accepted as parent | not executed; follows from JavaScript Promise semantics | Files.ParentAsWrittenRefusesFolders | Files.UploadIntoStoredFolder |
| controllers/AuthController.js:16 | `findOne` is not awaited: `user.password` is undefined, and `sha1(...) !== undefined` always holds | a stored user sending the right `email:password` gets 401 | await the lookup, so the right password logs the user in | not executed; follows from JavaScript Promise semantics | Auth.ConnectAsWrittenRefusesValidLogin | Auth.LoginThenMe |
| worker.js:20-28 | `done(new Error(...))` is not followed by `return`, so after a failed check the handler goes on to the lookup and calls `done` again; the queue keeps only the first call | a `fileQueue` job with `userId` but no `fileId` is failed with 'Missing fileId' and then calls `done` a second time with 'File not found'; a stored image's job without `userId` is failed and still has its three thumbnails made (and, were the writes of lines 48-50 to work, written: `Worker.MissingUserIdStillWritesThumbnails`) | return after each failed check: fail the job once and do no further work | not executed | Worker.FileJobAsWrittenSignalsTwice | Worker.FileJob |
