# Files manager: sessions, uploads and thumbnails

This project models the request handlers of an Express file manager backed
by MongoDB (`users`, `files`), Redis (`auth_<token>` session keys) and a
content directory on disk, together with its Bull thumbnail worker. The
four stores are one `Model.Stores` object whose fields the handlers update
in place:

- `users`: the user documents `{_id, email, password}` in insertion order;
  `findOne` returns the first match;
- `sessions`: session key → user id string, with the time-to-live it was set with;
- `files`: the file documents `{_id, userId, name, type, isPublic, parentId, localPath?}`;
- `disk`: path → bytes.

Each handler appears twice. A pure function over a `State` value states what
it answers and what the stores become (`Register`, `Me`, `Connect`,
`Disconnect`, `Upload`, `ProcessJob`). A method over `Stores` runs the
handler's guards in the source's order and updates the fields (`PostNew`,
`GetMe`, `GetConnect`, `GetDisconnect`, `PostUpload`, `HandleJob`). Each method
is proved equal to its function. The properties are proved about the
functions, either in their own contracts or in lemmas.

The foreign calls are parameters:

- `sha1`: the password digest;
- `decrypt` / `decode`: Node's lenient base64 → UTF-8 `Buffer` conversion. For
  uploads, `decode` also covers the UTF-8 encoding that `writeFileSync` applies.
- `thumb`: `image-thumbnail`, which yields `None` when it rejects. It is taken to be a deterministic function of the file's content and the width. It reads the file at the given path, and a path missing from the disk counts as a rejection.

`uuid.v4()` and the ids that the document store assigns are passed in as
values. A precondition states that each is fresh.

JavaScript truthiness is explicit. An optional string field passes a check
only when it is present and non-empty (`Model.Truthy`). A `parentId` is the
number `0` or an id string (`Model.ParentId`), and only a non-empty id string
is truthy.

Registration accepts emails and passwords that hold ':', but login cuts the decrypted credentials at every ':', so such users cannot log in with the credentials they registered (`ColonEmailNeverAdmitted`, `ColonPasswordCannotConnect`). The code does not check a parent folder's owner and enqueues no thumbnail
job when an image is uploaded. It also routes `getShow` without defining it.
The model follows the code, so `getShow` is not modelled.

`Model.Consistent` is what the handlers keep true of the stores when requests run one after another:

- emails are unique;
- user ids are unique and non-empty;
- file ids are unique;
- every file record has one of the three types;
- a record carries a `localPath` exactly when it is not a folder, and that path exists on disk;
- a truthy `parentId` names a folder.

## Model

| member | source | states |
|---|---|---|
| `Model.SessionKey` | controllers/AuthController.js:31 | the key is `auth_` followed by the token, so distinct tokens have distinct keys |
| `Model.SessionUser` | controllers/FilesController.js:17-27 | a user id is given exactly when the token is truthy, `auth_<token>` is present and its value is non-empty; the id is that value |
| `Model.First` | controllers/UsersController.js:17 | `findOne` gives the index of the first document that matches, and none only when no document matches (used for lookups by email, by user id, by file id, and by file id together with user id) |
| `Model.FileWithIdAppend` | controllers/FilesController.js:46 | inserting a record does not change which earlier record a lookup by id finds |
| `Text.Split` | controllers/AuthController.js:15 | `split` on one character gives at least one field, and no field holds the separator |
| `Text.Field` | controllers/AuthController.js:15 | `s.split(c)[i]` is present exactly when the split has more than `i` fields, and is then that field, free of `c`; otherwise it is `undefined` |
| `Text.JoinSplit` | controllers/AuthController.js:22-23 | joining the fields of a split gives the original text back |
| `Text.SplitJoin` | controllers/AuthController.js:22-23 | splitting a join of separator-free fields gives the fields back |
| `Text.SplitWithoutSeparator` | controllers/AuthController.js:15 | text without the separator splits into itself alone |
| `Text.SplitAtFirst` | controllers/AuthController.js:22 | the first field is the text before the first separator, and the remaining fields are the split of the rest |
| `Text.SecondFieldExists` | controllers/AuthController.js:14-19 | a second field exists exactly when the separator occurs |
| `Text.DecimalString` | worker.js:39 | a number renders as at least one digit, and as at least two from 10 upward |
| `Text.DecimalStringInjective` | worker.js:39 | distinct widths render as distinct text |
| `UsersController.Register` | controllers/UsersController.js:7-26 | rejections come in a fixed order: "Missing email", then "Missing password", then "Already exist" for an email already present; each is a 400 that leaves the stores unchanged; the answer is 201 exactly when both fields are truthy and the email is new; success appends exactly one user holding `sha1(password)`, answers `{id, email}`, and keeps emails unique and the stores consistent |
| `UsersController.AppendUserKeepsConsistent` | controllers/UsersController.js:17-23 | adding a user with a new non-empty id and an unused email keeps emails unique and the stores consistent |
| `UsersController.Me` | controllers/UsersController.js:28-43 | 401 exactly when there is no token, no session key or an empty session value; otherwise 200 with the id and email of the first user whose id is the one the session names |
| `UsersController.PostNew` | controllers/UsersController.js:7-26 | the handler's answer and the new stores are those that `Register` gives |
| `UsersController.GetMe` | controllers/UsersController.js:28-43 | the handler changes nothing and answers what `Me` gives |
| `AuthController.Credentials` | controllers/AuthController.js:21-23 | the email is the decrypted text before the first ':'; the password is the text between the first ':' and the next ':' or the end |
| `AuthController.CredentialsOfPair` | controllers/AuthController.js:21-23 | `email:password` with no ':' in either part gives back that email and that password |
| `AuthController.BasicHeaderField` | controllers/AuthController.js:14-15 | the credential field of `Basic <c>` is `c` when `c` holds no space |
| `AuthController.EmailOf` | controllers/AuthController.js:22 | the email is the decrypted text before the first ':', or all of it when there is none |
| `AuthController.PasswordFieldExists` | controllers/AuthController.js:23-26 | when the looked-up email belongs to a stored user and the defining condition holds, the text has a ':' and so a password field |
| `AuthController.ColonFreeUnknownEmailRejected` | controllers/AuthController.js:22-27 | credentials without ':' whose text is no stored email get 401 and change nothing |
| `AuthController.ColonEmailNeverAdmitted` | controllers/AuthController.js:22-26 | a user whose stored email holds ':' is never admitted, since the email looked up is cut at the first ':' |
| `AuthController.Authenticate` | controllers/AuthController.js:14-28 | a missing or empty second header field admits nobody; otherwise an email that no user has admits nobody; the first user with the decrypted email is admitted exactly when the stored digest equals `sha1` of the decrypted password |
| `AuthController.Connect` | controllers/AuthController.js:13-34 | every rejection is a 401 that changes no store; success returns the token and adds exactly one session key, `auth_<token>`, which maps to the user id with a TTL of 86400; all other keys are unchanged |
| `AuthController.Disconnect` | controllers/AuthController.js:36-52 | 401 with no change when there is no token, no key or an empty value; otherwise 204, and exactly that key is deleted |
| `AuthController.GetConnect` | controllers/AuthController.js:13-34 | the handler's answer and the new sessions are those that `Connect` gives |
| `AuthController.GetDisconnect` | controllers/AuthController.js:36-52 | the handler's answer and the new sessions are those that `Disconnect` gives |
| `FilesController.ValidationError` | controllers/FilesController.js:35-43 | validation passes exactly when the name is truthy, the type is folder, file or image, and the data is truthy unless the type is folder; the messages come in order: "Missing name", "Missing type", "Missing data"; folders need no data |
| `FilesController.FolderPath` | controllers/FilesController.js:72 | the folder is `FOLDER_PATH` when that is truthy and `/tmp/files_manager` otherwise, so it is never empty |
| `FilesController.PathJoin` | controllers/FilesController.js:79 | the path ends with the file name and is preceded by the folder with exactly one `/`, which is added only when the folder lacks a trailing one |
| `FilesController.Uploader` | controllers/FilesController.js:17-32 | the upload gate admits exactly a session user id that some stored user has, and gives that id |
| `FilesController.EchoOmitsLocalPath` | controllers/FilesController.js:63-70 | two records give the same 201 body exactly when they agree on every field except `localPath` |
| `FilesController.ParentError` | controllers/FilesController.js:45-53 | the parent check passes exactly when the parentId is falsy or names a folder; "Parent not found" is given exactly for a truthy id that matches no record; the only other error is "Parent is not a folder" |
| `FilesController.Upload` | controllers/FilesController.js:15-102 | 401 exactly when the token gate fails; then the validation error, then the parent error, as a 400; 201 exactly when the gate, validation and parent check all pass; no rejection changes any store; success appends exactly one record with the new id, the uploader, the submitted fields, `parentId` defaulting to 0 and `isPublic` to false; the 201 body echoes that record without `localPath`; a folder has no `localPath` and leaves the disk alone; a file or image writes `decode(data)` at `<folder>/<fileName>` as the one new disk entry and records that path; the stores stay consistent |
| `FilesController.AppendFileKeepsConsistent` | controllers/FilesController.js:45-91 | inserting a record with a fresh id, a valid type, a `localPath` on disk exactly for non-folders, and a folder as parent keeps the stores consistent |
| `FilesController.PostUpload` | controllers/FilesController.js:15-102 | the handler's answer and the new files and disk are those that `Upload` gives |
| `Worker.FileOf` | worker.js:23-26 | the job's lookup finds a record matching both the file id and the user id, and none only when no record matches both |
| `Worker.Resize` | worker.js:38 | the thumbnail for one width is the thumbnailer's answer on the file's current content, and a rejection when the file is missing |
| `Worker.ThumbPath` | worker.js:39 | a thumbnail path is the original path followed by `_` and more text |
| `Worker.Thumbnails` | worker.js:37-42 | the writes keep every existing disk key, and every new key is the thumbnail path of a listed width |
| `Worker.ProcessJob` | worker.js:11-49 | only the disk changes; 'Missing fileId' is checked before 'Missing userId', then 'File not found' when no record matches both ids; a failed job writes nothing; a found job completes exactly when the record has a `localPath` and all three thumbnails are produced |
| `Worker.ThumbPathsSpelledOut` | worker.js:35-39 | the three targets are `<localPath>_500`, `<localPath>_250` and `<localPath>_100` |
| `Worker.ThumbPathsDistinct` | worker.js:39 | thumbnail paths for different widths differ, and none equals the original path |
| `Worker.ThumbnailsKeepSource` | worker.js:37-42 | writing the thumbnails leaves the original file as it was |
| `Worker.ThumbnailsAt` | worker.js:37-42 | after the writes, each entry is the thumbnail written there if there is one, and otherwise its earlier content |
| `Worker.WrittenDependsOnSource` | worker.js:38 | what is written depends only on the original file's content |
| `Worker.WrittenAtThumbPath` | worker.js:38-41 | the entry written at `<localPath>_<w>` is the width-`w` thumbnail of the original file |
| `Worker.WrittenOnlyAtThumbPaths` | worker.js:39-41 | nothing is written at a path that is not a thumbnail path |
| `Worker.ThumbnailsIdempotent` | worker.js:37-42 | writing the thumbnails a second time leaves the same disk, given a deterministic thumbnailer |
| `Worker.ProcessJobWrites` | worker.js:23-42 | a found job sets each `<localPath>_<w>`, for w in 500, 250 and 100, to its thumbnail when one is produced; the original file and every other disk entry are unchanged |
| `Worker.ProcessJobIdempotent` | worker.js:11-49 | running the same job again gives the same outcome and the same stores, given a deterministic thumbnailer |
| `Worker.ProcessJobKeepsEntries` | worker.js:37-42 | no disk entry disappears while a job runs |
| `Worker.ProcessJobKeepsConsistent` | worker.js:37-42 | the worker keeps the stores consistent |
| `Worker.HandleJob` | worker.js:11-49 | the handler's loop over the widths gives the outcome and disk that `ProcessJob` gives |
| `Flows.RegisterTwice` | controllers/UsersController.js:17-20 | a second registration of the same email gets "Already exist" and changes nothing |
| `Flows.RegisterThenConnect` | controllers/AuthController.js:21-33 | after registering, when neither the email nor the password holds ':', logging in with `Basic <c>`, where `c` decrypts to `email:password`, returns the token, and the session names the new user |
| `Flows.ColonPasswordCannotConnect` | controllers/AuthController.js:21-27 | a user registered with a password holding ':' who logs in with `email:password` gets 401 and no session, when `sha1` has no collisions, since only the text up to the second ':' is hashed |
| `Flows.ConnectThenMe` | controllers/AuthController.js:30-33 | a token just issued lets `getMe` return the logged-in user's id and email, and passes the upload gate |
| `Flows.DisconnectRevokes` | controllers/AuthController.js:43-49 | after a 204 disconnect, a second disconnect, `getMe` and the upload gate all give 401 |
| `Flows.DisconnectKeepsOtherSessions` | controllers/AuthController.js:49 | revoking one token leaves every other session unchanged |
| `Flows.ParentOwnerNotChecked` | controllers/FilesController.js:45-53 | a folder owned by another user is accepted as a parent |

## Left out

- The MongoDB driver, the Redis client, Express routing, the health and stats endpoints (`AppController`), and the standalone `thumbnail.js` demo are not modelled. The stores are plain values.
- `sha1`, base64/UTF-8 `Buffer` conversion, `uuid.v4`, ObjectId generation and `image-thumbnail` are parameters, not definitions. The model therefore does not capture that UTF-8 decoding can alter binary uploads.
- Parsing of ids by `ObjectId(...)` is not modelled. Ids are compared as strings, and the exception that a malformed id raises is not modelled.
- `path.join` is modelled only as appending `/` and a separator-free file name. Its normalisation of `.`, `..` and repeated separators is not modelled. Creating the content directory is not modelled.
- Crash paths are excluded by preconditions:
  - a missing `Authorization` header: the header is a plain string;
  - decrypted credentials without ':' whose whole text is a stored user's email (`AuthController.ConnectDefined`). Here the lookup succeeds and `sha1(undefined)` throws. Credentials without ':' that match no user are modelled and get 401.
  - `getMe` on a session whose user no longer exists (`UsersController.MeDefined`).
- Request fields are strings, booleans, or `0` / an id string for `parentId`. The truthiness of other JSON values (`null`, `false`, other numbers) is not modelled.
- Each handler is modelled as one atomic step, but the code awaits its lookups and inserts separately. Concurrent HTTP requests are not modelled. In particular, unique emails (`UsersController.Register`, `Model.Consistent`) hold only for registrations that run one after another. Two concurrent registrations of the same email can both pass the check at controllers/UsersController.js:17-20.
- Redis expiry over real time is not modelled. The TTL value is recorded, but there is no clock.
- ThumbnailsIdempotent: assumes `image-thumbnail` is a deterministic function of the file's content and the width; a thumbnailer whose output varies between calls is not captured.
- ProcessJobIdempotent: rests on the same assumption about `image-thumbnail`.
- The Bull transport, its events, the un-awaited `Promise.all`, `done` and the `try/catch` are left out, and so are concurrent workers. The widths are processed one after another. A rejected thumbnail makes the job `Pending`, because `done` is never called.
- Outcome: `Failed` names the error the handler throws; how Bull settles a job whose async handler throws without calling `done` is not modelled.
- Features that the code does not implement are not modelled: enqueueing a thumbnail job on image upload, `getShow`, listing, publish/unpublish and content fetch.
