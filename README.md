# chiefsend share lifecycle and authorization, modelled in Dafny

chiefsend is a file-sharing service. A client opens a share (a database row plus a
directory `temp/<id>` under the media directory), uploads attachments into it, and
closes it. Closing moves the directory to `data/<id>`, clears the share's
`IsTemporary` flag and queues an e-mail job and, when the share expires, a delete
job. Finalized shares are listed (when public), read and downloaded, behind an
optional password checked with HTTP Basic authentication. Admin routes, guarded by a
Bearer token equal to `ADMIN_KEY`, list every share, delete shares and update them.
Background tasks delete a share by id and sweep away every share still open.

The project models two revisions of the request handlers and their persistence
hooks:

- the current one: `controllers/`, `models/`, `background/tasks.go`, `globals/config.go`;
- the earlier one: `api.go`, `database.go`.

Module layout:

- `Store` holds the state: the share and attachment tables and the two directory
  roots, each a map from share id to the files in that directory, plus the job log.
  It is a class whose primitive methods are the database, filesystem and queue calls
  the handlers make (insert, save, delete, MkdirAll, RemoveAll, Rename, WriteFile,
  Remove, Enqueue, Find). Each method states the new state as a function of the old.
- `Store.Valid` is the consistency the service keeps:
  - every row is under its own key;
  - every share has its directory under the root its flag calls for;
  - every attachment's bytes are in its share's directory.
- `Store.Exclusive` says that no id has a directory under both roots. With `Valid`
  it gives the service's invariant that a share is open exactly when temp/<id> exists
  and data/<id> does not (`Store.HomeExclusive`). Every handler keeps it, except an OpenShare whose id
  already has data/<id> (`Api.OpenShareBesideFinalized`).
- `Models` and `Database` are the gorm hooks of the two revisions and the Create and
  Delete calls that run them.
- `Tasks` holds the background tasks.
- `Api` holds the current handlers and the `ServeHTTP` adapter. `LegacyApi` holds
  the earlier handlers.
- Handlers that only read (GetShare, DownloadFile, RetrieveShare) are functions of
  the world. The others are methods on the store.
- `Auth` holds the Bearer and Basic checks. Base64 decoding (Go's
  `base64.StdEncoding`) and the Basic header parsing of `net/http` are modelled
  concretely, so both are proved to read back what a client writes.
- `Output` is `sendJSON`, which blanks passwords; `SecureInPlace` does this on an
  array, as the loop over the slice does.
- `Config` is `LoadConfig`.

What the environment decides is a parameter `Env`:

- the faults the database, filesystem and queue produce;
- the outcome of `uuid.NewRandom`;
- whether the workers run;
- the bcrypt hasher, abstracted as a pair of functions;
- `ADMIN_KEY`.

`Request` carries the parsed path parameters, the Authorization header, the body and
the multipart form.

## Model

| member | source | states |
|---|---|---|
| Strings.FromToBytes | controllers/auth.go:31 | converting a byte string to bytes and back gives it unchanged |
| Strings.Cut | controllers/auth.go:37 | the text is before + ':' + after, and before holds no ':'; None exactly when there is no ':' |
| Strings.CutAtFirst | controllers/auth.go:37 | cutting a + ':' + b gives (a, b) when a holds no ':' |
| Strings.IndexOf | database.go:98 | the index of the first occurrence, or None exactly when there is none |
| Strings.BeforeFirst | database.go:98 | a prefix of the text without the separator, either the whole text or followed by the separator |
| Strings.Split | database.go:43 | strings.Split always gives at least one piece |
| Strings.SplitPiece | database.go:43 | splitting a + sep + b gives a, then the pieces of b |
| Strings.SplitSingle | database.go:43 | a text without the separator splits into itself alone |
| Strings.SplitJoin | database.go:67 | splitting the join of a non-empty list whose items hold no ';' gives the list back |
| Strings.SplitJoinEmpty | database.go:67 | the join of the empty list splits into [""] |
| Strings.JoinSplit | database.go:43 | joining the pieces of a split gives the text back |
| Base64.Value | controllers/auth.go:27 | an alphabet character's 6-bit value |
| Base64.Digit | controllers/auth.go:27 | the character for a 6-bit value, whose value it is |
| Base64.StripNewlines | controllers/auth.go:27 | no CR or LF is left, and the text only gets shorter |
| Base64.StripNothing | controllers/auth.go:27 | a text without CR or LF is left unchanged |
| Base64.DecodeQuad | controllers/auth.go:27 | a group of four decodes to 1 to 3 bytes, fewer than 3 only in the last group |
| Base64.Decode | controllers/auth.go:27 | only a length divisible by 4 decodes, to 3 bytes per group minus the padding |
| Base64.DecodeString | controllers/auth.go:27 | text that decodes has a length divisible by 4 once line breaks are dropped |
| Base64.Encode | controllers/auth.go:27 | the padded standard encoding: 4 characters per started 3 bytes, alphabet or '=' only |
| Base64.QuadThree | controllers/auth.go:27 | a full group decodes back to its three bytes |
| Base64.DecodeEncode | controllers/auth.go:27 | decoding an encoding gives the bytes back |
| Base64.DecodeStringEncode | controllers/auth.go:27 | base64.StdEncoding.DecodeString reads back every encoding |
| Auth.CheckBearerAuth | controllers/auth.go:15-32 | no header or no "Bearer " prefix is (false, nil); undecodable text is an error; otherwise ok exactly when the decoded token is ADMIN_KEY |
| Auth.AdminUnlocks | controllers/auth.go:15-32 | the header built from the admin key passes |
| Auth.OtherKeyRefused | controllers/auth.go:15-32 | the header built from any other key is refused without error |
| Auth.ParseBasicAuth | controllers/auth.go:37 | r.BasicAuth(): parsed credentials come from a "Basic " header whose decoded text is user ':' password, with no ':' in the user |
| Auth.BasicRoundTrip | controllers/auth.go:37 | the credentials a client encodes are parsed back exactly |
| Auth.CheckPasswordHash | controllers/auth.go:54-61 | under a sound hasher, a password unlocks its own hash |
| Auth.CheckBasicAuth | controllers/auth.go:35-50 | an unprotected share is open; a missing or malformed header is (false, error); ok exactly when the user is the share id and the password unlocks the hash |
| Auth.OwnerUnlocks | controllers/auth.go:35-50 | the share id and the plaintext whose hash is stored pass |
| Auth.OtherUserRefused | controllers/auth.go:42-44 | any other user name is refused with a nil error |
| Http.Pick | controllers/api.go:422 | a present JSON key overwrites the field, an absent one leaves it |
| Http.Merge | controllers/api.go:422 | json.Unmarshal into a current share: the keys present overwrite, an empty body changes nothing |
| Http.MergeLegacy | api.go:159 | json.Unmarshal into an earlier share: password, is_temporary and the e-mail column never come from the body |
| Output.Secure | models/share.go:38-42 | a present password becomes the empty string, and nothing else changes |
| Output.SecureIdempotent | models/share.go:38-42 | securing twice is securing once, and a secured share shows no password |
| Output.SecureEach | controllers/main.go:50-54 | every share of a list is secured, in place and order |
| Output.SecureInPlace | controllers/main.go:50-54 | the array afterwards is the list secured element by element |
| Output.ScrubBody | controllers/main.go:45-55 | a single share and a list are secured; other bodies are sent as they are |
| Output.ScrubBodyProperties | controllers/main.go:45-55 | a scrubbed body holds no password, and scrubbing is idempotent |
| Output.Sent | controllers/main.go:44-63 | an encoder failure is the 500 "Can't encode data"; otherwise the body is sent scrubbed, without any password |
| Output.SendJson | controllers/main.go:44-63 | the securing loop and the encode give exactly Sent, so no password leaves |
| Config.Getenv | globals/config.go:18 | an unset variable reads as "" |
| Config.Atoi | globals/config.go:18 | strconv.Atoi: only sign and digits parse, to a 64-bit value; "" is an error |
| Config.NatTextValue | globals/config.go:18 | the decimal digits of n have value n |
| Config.AtoiItoa | globals/config.go:18 | every 64-bit integer written in decimal reads back |
| Config.AtoiRejects | globals/config.go:18 | a text with a non-digit after the first character is an error |
| Config.SettingsFor | globals/config.go:16-41 | each field from its variable when it parses or is non-empty, else 6969, "./media", 10 << 20, "localhost:6379" |
| Config.EmptyEnvironment | globals/config.go:16-41 | an empty environment gives every fallback |
| Config.SettingsIndependent | globals/config.go:16-41 | each field depends only on its own variable |
| Config.PortFromText | globals/config.go:18-19 | a PORT written as a decimal integer is the port used |
| Config.Conf.constructor | globals/config.go:14 | `Config{}` has every field at its zero value |
| Config.Conf.LoadConfig | globals/config.go:16-41 | after the field-by-field assignments the configuration is SettingsFor the environment, whatever it held |
| Store.EnsureDir | models/share.go:56 | MkdirAll creates a missing directory, empty, and keeps an existing one with its files |
| Store.DropDir | models/share.go:80 | RemoveAll: the directory is gone and nothing else changes |
| Store.Move | controllers/api.go:202 | the directory's files are under data/ and no longer under temp/ |
| Store.Cascade | models/share.go:27 | the share row and every attachment row of it are gone |
| Store.FilesOf | controllers/api.go:80 | the preloaded attachments are exactly the rows of the share |
| Store.EnsureDirValid | models/share.go:54-65 | making a directory keeps the world consistent |
| Store.HomeExclusive | models/share.go:54-65 | in a consistent, exclusive world a share is open exactly when temp/<id> exists and data/<id> does not, and finalized exactly when the reverse holds |
| Store.DirsExclusive | controllers/api.go:200-204 | MkdirAll keeps the world exclusive exactly when the other root has no directory of that id; Rename, RemoveAll, WriteFile and Remove always keep it |
| Store.InsertShareValid | models/share.go:44-76 | inserting a share whose directory exists keeps the world consistent |
| Store.FinalizeValid | controllers/api.go:199-211 | moving an open share's directory and clearing its flag keeps the world consistent |
| Store.DeleteShareValid | models/share.go:78-91 | dropping a stored share's directory and its rows keeps the world consistent |
| Store.CascadeValid | background/tasks.go:43 | deleting a share row and its attachment rows keeps the world consistent |
| Store.ReplaceShareValid | controllers/api.go:426 | saving a share in the same state keeps the world consistent |
| Store.PutFileValid | controllers/api.go:278 | writing a file keeps the world consistent |
| Store.InsertAttachmentValid | controllers/api.go:268-278 | an attachment row whose file is written keeps the world consistent |
| Store.DeleteAttachmentValid | models/attachment.go:32-38 | removing an attachment's file and row keeps the world consistent |
| Store.Store.InsertShare | models/share.go:27 | an insert fails on a taken key and otherwise adds just the row |
| Store.Store.SaveShare | controllers/api.go:208 | db.Save writes the row under its id, or fails and changes nothing |
| Store.Store.DeleteShareRow | models/share.go:27 | the row goes, with its attachment rows |
| Store.Store.InsertAttachment | controllers/api.go:271 | an insert fails on a taken key and otherwise adds just the row |
| Store.Store.DeleteAttachmentRow | models/attachment.go:32-38 | only that attachment row goes |
| Store.Store.MkdirAll | models/share.go:56 | succeeds unless it faults, and then the directory exists |
| Store.Store.RemoveAll | models/share.go:80 | succeeds unless it faults, and then the directory is gone |
| Store.Store.Rename | controllers/api.go:202 | fails without a source, when data/<id> already exists (os.Rename refuses any directory target, even an empty one), or on a fault; otherwise the directory moves |
| Store.Store.WriteFile | controllers/api.go:278 | fails without the directory or on a fault; otherwise the file is written |
| Store.Store.RemoveFile | models/attachment.go:33 | fails when the file is missing or on a fault; otherwise only that file goes |
| Store.Store.Enqueue | controllers/api.go:215 | with the workers stopped nothing is queued; a job whose kind the queue rejects is an error and is not queued; otherwise the job is appended |
| Store.Store.Find | background/tasks.go:62 | the rows found are exactly the stored shares that match, once each |
| Models.FreshId | models/share.go:46-53 | only the all-zero UUID is replaced, by the random one |
| Models.Hashed | models/share.go:67-73 | a present password is replaced by its hash, and nothing else changes |
| Models.HashedUnlocks | models/share.go:67-73 | under a sound hasher the stored hash is unlocked by the original plaintext |
| Models.ShareBeforeCreate | models/share.go:44-76 | id, then the directory (a failure rolls back), then the hash (a failure is returned) |
| Models.Created | models/share.go:44-76 | the stored row is the share under its settled id, with its password hashed |
| Models.CreateShare | models/share.go:44-76 | succeeds exactly when the id is settled and free, the directory is made and hashing works; the row and its directory are added; consistency is kept |
| Models.ShareBeforeDelete | models/share.go:78-91 | the directory under the root of the share's state is removed, or the error is returned |
| Models.DeleteShare | models/share.go:78-91 | on success the directory and the rows go; a failure is the hook's RemoveAll error and changes nothing; consistency is kept |
| Models.AttachmentBeforeCreate | models/attachment.go:20-30 | only the all-zero id is replaced; a random failure aborts (the earlier hook at database.go:78-87 likewise) |
| Models.CreateAttachment | models/attachment.go:20-30 | the row is added under its settled id exactly when that id is free |
| Models.AttachmentBeforeDelete | models/attachment.go:32-38 | data/<share>/<id> is removed, or the error is returned (the earlier hook at database.go:89-91 likewise) |
| Models.DeleteAttachment | models/attachment.go:32-38 | the file and the row go, or nothing changes; consistency is kept |
| Tasks.ShareIdOf | background/tasks.go:39 | Payload.GetString is the value under "share_id", or an error when it is missing |
| Tasks.NewShareEmailTask | background/tasks.go:18-21 | kind "email:share" and a payload naming only the share |
| Tasks.NewDeleteShareTask | background/tasks.go:23-26 | kind "share:delete" and a payload naming only the share |
| Tasks.NewContinuousDeleteTask | background/tasks.go:28-30 | kind "continuous:delete" with no share id |
| Tasks.DeleteTaskNamesShare | background/tasks.go:23-26 | two delete tasks are equal exactly when they name the same share |
| Tasks.HandleDeleteShareTask | background/tasks.go:33-44 | without a share id it fails and nothing changes; otherwise the rows of that id go; consistency is kept |
| Tasks.HandleContinuousDeleteTask | background/tasks.go:54-75 | the rows walked are every share, once each; only temporary shares are deleted, finalized shares and their attachments stay; a delete error is returned as RemoveError at a temporary row whose directory could not be removed, with every temporary row before it deleted and every row from it on still stored; after a full run no temporary share is left and no removal failed; consistency and exclusivity are kept |
| Tasks.DeleteTemporary | background/tasks.go:66-72 | the loop: temporary rows are deleted in order, and the first failure stops it at that row, with the earlier temporary rows gone and that row and the later ones still stored |
| Api.NotFound | controllers/api.go:81-83 | gorm.ErrRecordNotFound is a 404 with the handler's message |
| Api.AllShares | controllers/api.go:42-65 | a header error is a 500; the admin gets every share and others exactly the public finalized ones, once each and secured |
| Api.GetShare | controllers/api.go:67-97 | 400, 500, 404, then 403 for an open share before any credentials, then 401 unless CheckBasicAuth passes, then the secured share with its attachments |
| Api.OpenShareServed | controllers/api.go:87-96 | a finalized share without a password is served to everyone |
| Api.OwnerServed | controllers/api.go:92-96 | the owner's Basic credentials open a protected finalized share |
| Api.DownloadFile | controllers/api.go:99-147 | 400s, 500, 404, 404 when the attachment belongs to another share, 404, 403, 401, then data/<share>/<attachment> |
| Api.DownloadServesStoredFile | controllers/api.go:124-145 | in a consistent world a request past the gates gets the attachment's stored bytes |
| Api.Opened | controllers/api.go:159-166 | the body over a zero share, always open, whatever is_temporary said |
| Api.OpenShare | controllers/api.go:149-173 | 400s change nothing; success stores exactly the created open share and its directory; a failure adds no row but keeps a directory the hook made; consistency is kept, and exclusivity exactly when the id has no data/<id> |
| Api.OpenShareBesideFinalized | models/share.go:54-58 | a body naming a finalized share's id fails with a 500, adds no row, and leaves temp/<id> beside data/<id> |
| Api.Finalized | controllers/api.go:199-208 | the share's directory is under data/, not temp/, and its flag is cleared |
| Api.CloseJobs | controllers/api.go:213-224 | one mail job, then a delete job at the expiry exactly when there is one |
| Api.Queued | controllers/api.go:213-224 | nothing queued with the workers stopped or the mail job rejected; only the mail job when the delete job is rejected; otherwise every job of the close |
| Api.Announced | controllers/api.go:213-226 | a rejected mail job is "Can't start send eMail background task", a rejected delete job "Can't start deleteShare task", otherwise the share sent secured |
| Api.QueuedPrefix | controllers/api.go:213-226 | what a close queues is a prefix of its jobs, all of them exactly when no job is rejected, and a close replying with the share queued all of them |
| Api.Announce | controllers/api.go:213-226 | the jobs before the first rejected one are queued, and the reply is Announced |
| Api.Finalize | controllers/api.go:199-226 | rename (a failure changes nothing), save (a failure leaves the directory moved), then the jobs as Queued and the reply as Announced; exclusivity is kept |
| Api.CloseShare | controllers/api.go:175-227 | 400, 500, 404; a finalized share is a success that changes nothing; otherwise Finalize, a mail job left queued when the delete job is rejected; consistency is kept unless the save fails, and exclusivity always |
| Api.Uploaded | controllers/api.go:268-271 | the attachment has the part's name and size, the share and the settled id |
| Api.UploadAttachment | controllers/api.go:229-287 | 400, 500, 404, 403 for a finalized share, 400s for the form; a write failure rolls the row back (the intended behaviour; see Findings); success adds exactly one row and its file; consistency is kept unless reading fails |
| Api.UploadAttachmentAsWritten | controllers/api.go:264-286 | as UploadAttachment, except that a write failure leaves the inserted row in place: `db.Begin()`'s transaction is dropped and `db.Rollback()` undoes nothing; consistency is kept only when neither reading nor writing fails (the earlier upload at api.go:233-298 has the same effect, with the rollback at api.go:291) |
| Api.OrphanRowBreaksValid | controllers/api.go:271-281 | an inserted upload row whose file is not in its open share's directory leaves the world inconsistent |
| Api.DeleteShare | controllers/api.go:358-390 | 404 before the credentials; 401 without the admin token changes nothing; a rejected delete job is a 500 that changes nothing; otherwise only the delete job is added |
| Api.UpdateShare | controllers/api.go:392-432 | 401 without the admin token changes nothing, checked first; then the body's keys are saved over the stored share; consistency is kept when neither the id nor the state changes |
| Api.DeleteAttachment | controllers/api.go:434-479 | the lookups and id match, then the file and the row go, or a 500 changes nothing; no credentials are read |
| Api.AdminDeleteAttachment | controllers/api.go:434-479 | the same with a 401 first for a request without the admin token |
| Api.DeleteAttachmentWithoutCredentials | controllers/api.go:434-479 | a request with no Authorization header deletes an attachment |
| Api.ServeHttpAsWritten | controllers/api.go:29-37 | a returned error is its code and "message - cause", with a Basic challenge on 401; a nil cause crashes (the earlier adapter at api.go:28-35 likewise) |
| Api.ServeHttp | controllers/api.go:29-37 | never crashes, each error keeps its code, and there is a challenge exactly on 401 |
| Api.WrongUserCrashes | controllers/api.go:92-93 | a wrong Basic user name gives a 401 with a nil cause, which crashes as written and is a challenged 401 as intended |
| Database.AfterFind | database.go:42-45 | the e-mails are the stored column split on ';', and nothing else changes |
| Database.Prepared | database.go:47-69 | the settled id; the e-mails joined unless making the directory failed |
| Database.ShareBeforeCreate | database.go:47-69 | a random failure is returned; a mkdir failure is swallowed before the join; otherwise the directory is made and the e-mails joined |
| Database.CreateShare | database.go:47-69 | succeeds exactly when the id is settled and free; the row is added with or without its directory; consistency is kept when the directory is made |
| Database.EmailsRoundTrip | database.go:42-67 | a row created with its directory reads back the e-mails it was given |
| Database.EmptyEmailsReadBack | database.go:42-67 | an empty e-mail list reads back as [""] |
| Database.EmailsLostWithoutDirectory | database.go:56-65 | when mkdir fails the e-mails are lost and read back as [""] |
| Database.ShareBeforeDelete | database.go:71-76 | only a finalized share's data/<id> is removed; an open share's directory is left |
| Database.DriverFor | database.go:96-107 | postgres, sqlserver, and sqlite or file, from the text before the first ':'; anything else is none |
| Database.BeforeFirstScheme | database.go:98 | the text before the first ':' of scheme ':' rest is the scheme |
| Database.DriverByScheme | database.go:96-107 | only the scheme decides the driver |
| LegacyApi.Encoded | database.go:22-24 | the encoded share has no password and no e-mail column, and every other field is kept |
| LegacyApi.EncodedBody | api.go:402-409 | each share of the body is encoded, a list keeps its length and order, and no password is left |
| LegacyApi.EncodedLikeSecured | database.go:22 | the two revisions' reply shares differ only in the password key: secured to "" in the current one, absent in this one |
| LegacyApi.Sent | api.go:402-409 | an encoder failure is a 500; otherwise the body as the encoder writes it, with no password |
| LegacyApi.PasswordNeverSent | api.go:90 | GetShare and DownloadFile never reply with a password; GetShare's share is the row read back and encoded |
| LegacyApi.Credentials | api.go:81 | the parsed Basic credentials, or two empty strings |
| LegacyApi.PasswordGate | api.go:79-88 | an empty password is open; otherwise "wrong username" unless the user is the share id, "wrong password" unless the password is the stored text |
| LegacyApi.OwnerPasses | api.go:79-88 | the share id and the stored password pass |
| LegacyApi.OtherPasswordRefused | api.go:85-87 | any other password is "wrong password" |
| LegacyApi.AllShares | api.go:40-52 | a failed query is a 500; otherwise exactly the public finalized shares, once each, e-mails read back, and no password sent |
| LegacyApi.RetrieveShare | api.go:359-382 | 500, 404 "Record not found", 403 for an open share, else the share with its attachments when asked |
| LegacyApi.GetShare | api.go:54-91 | 400, 500, 404, 403, then the password gate, then the share read back, without its password; every error has a cause |
| LegacyApi.GetShareRetrieves | api.go:54-91 | GetShare is RetrieveShare, then the password gate, then the reply |
| LegacyApi.DownloadFile | api.go:93-143 | 400s, 500, 404s, the password gate of the attachment's share, then data/<path id>/<attachment>; no state or id check |
| LegacyApi.OpenShareDownloadable | api.go:111-141 | an unprotected share's attachment is served even while the share is open |
| LegacyApi.Opened | api.go:158-166 | the body over a zero share, always open, without a password |
| LegacyApi.OpenShare | api.go:145-173 | 400s change nothing; the created row is added, or a 500 adds none; no password is sent; consistency is kept when the directory is made, and exclusivity exactly when the id has no data/<id> |
| LegacyApi.Closed | api.go:199-212 | the directory is under data/ and the row, as read, saved with its flag cleared |
| LegacyApi.ClosedValid | api.go:199-212 | closing an open share keeps the world consistent |
| LegacyApi.CloseTwiceFails | api.go:199-205 | after a close the rename of a second close cannot succeed |
| LegacyApi.CloseShare | api.go:175-231 | 400, 500, 404; the rename is tried whatever the state (a failure changes nothing), then the save, then the reply without a password; consistency is kept unless the save fails (a finalized share of a consistent world has data/<id>, so its rename fails and nothing changes), and exclusivity always |
| LegacyApi.NeverCrashes | api.go:28-35 | every error of this revision's GetShare and DownloadFile has a cause, so the adapter answers it |

## Left out

- DownloadZip (controllers/api.go:289-353, api.go:300-354): the zip writing streams to the response and is not modelled.
- The "Can't connect to database" / "Can't get database" 500s: the database connection is taken to open. The earlier GetDatabase's nil database for an unknown scheme is DriverFor's None; its later use is not modelled.
- JSON encoding itself, the `created_at` and `files` keys and JSON null: a reply is the body value, the encoder may only fail. In the earlier revision the encoder's dropping of the json:"-" fields is modelled for the password and the e-mail column (LegacyApi.Encoded); the dropped `is_temporary` flag and an attachment's share id stay in the reply value.
- Store.Valid: it states that each share's directory exists under its own root, not that none exists under the other. That exclusive half is the separate Store.Exclusive, because the source does not always keep it: an OpenShare whose id already has data/<id> (a finalized share's id sent in the body) makes temp/<id> before its insert fails (models/share.go:54-58). Api.OpenShare and LegacyApi.OpenShare keep Exclusive exactly when the id has no data/<id>, and every other handler always keeps it.
- The media directory is one root for `MEDIA_DIR`, `globals.Conf.MediaDir` and `config.mediaDir`, which the source reads separately.
- SendMail (api.go:215), mail.go and the queue and worker internals: a close adds jobs to a log, and nothing runs them.
- gorm's Save inserting a missing row runs the BeforeCreate hook; the model's Save is an upsert without the hook.
- bcrypt's salt and cost are left out; the hasher is abstract.
- Time and the expiry check play no part: an expiry is copied into the job.
- Concurrency between requests and workers is left out.
- Tasks.HandleDeleteShareTask: `Delete(&m.Share{})` runs BeforeDelete on an empty receiver, i.e. RemoveAll of data/<all-zero id>; this is not modelled, and the directories of the deleted share stay.
- Faults of row deletes are not modelled: only the hooks' filesystem steps can fail.
- The order of preloaded attachments is left out: FilesOf is a set.
- Handlers update receivers in place (`share.IsTemporary = false`); the model passes the updated values on.
- Api.UpdateShare stores a password from the body unhashed, as the source does; the model leaves the consequence unstated.
- Stats, ShareStats and Jobs routes (controllers/stats.go) are not part of this model.
- HandleShareEmailTask (background/tasks.go:46-52) only forwards to mail sending and is not modelled.

## Findings

| source | as written | input that shows it | evidently intended | confidence | as-written member | corrected member |
|---|---|---|---|---|---|---|
| controllers/api.go:31,35 with 92-93 | ServeHTTP calls `(*e).Error.Error()` on the error a handler returns; GetShare returns a 401 whose cause is the nil error of CheckBasicAuth for a wrong user name or password (also DownloadFile :140-141, DeleteShare :379-380, UpdateShare :394-395) | GET /share/{id} of a protected finalized share with Basic credentials of another user | a 401 with the Basic challenge | not executed | Api.ServeHttpAsWritten, Api.WrongUserCrashes | Api.ServeHttp |
| controllers/api.go:434-479 | DeleteAttachment, under "Admin Routes", never checks the admin token | DELETE /share/{id}/attachment/{att} without an Authorization header | a 401 without the admin Bearer token, as DeleteShare and UpdateShare | not executed | Api.DeleteAttachment, Api.DeleteAttachmentWithoutCredentials | Api.AdminDeleteAttachment |
| controllers/api.go:267,280 with api.go:274,282,291 | `db.Begin()`'s transaction is dropped, the row is created on `db` itself at :271, and `db.Rollback()` at :280 has no transaction to undo (the earlier revision likewise at api.go:274, :282 and :291), so a failed WriteFile leaves the attachment row without its file | POST /share/{id}/attachment of an open share whose file write into temp/<id>/ fails | the row rolled back, so that no attachment is stored without its bytes | not executed | Api.UploadAttachmentAsWritten, Api.OrphanRowBreaksValid | Api.UploadAttachment |
