# AppHub portal core, modelled in Dafny

AppHub is a FastAPI portal for an internal catalogue of applications, their
releases, downloadable files, screenshots and announcements. It sits behind an
authenticating proxy. This project models the parts of it that decide who may
do what and what ends up on disk and in the database:

- the identity handed over by the proxy (`get_identity`, email normalization);
- the role check;
- the double-submit CSRF protection and the middleware that applies it;
- the upload pipeline (extension allow-list, hashed destination name, chunked
  copy with a size cap, ClamAV verdict, MIME fallback);
- the audit trail;
- the small string helpers (slugs, tag lists, client address, filter value);
- the admin routes that create, update and delete content rows and change
  roles, in their order: identify, check the role, prepare, run the SQL block,
  then write one audit row (with the datetime serialisation corrected as
  described under Findings; the code as written loses that row when the
  before snapshot holds a datetime, as for the users, apps, releases, files
  and announcements rows);
- the download and media routes, including the containment check that keeps
  `X-Accel-Redirect` below the storage root.

Modules follow the program's files:

| module | file |
|---|---|
| `Text`, `Http`, `Encoding` | shared vocabulary: the Python string operations, the request and error types, UTF-8 and hex |
| `Rbac` | `apphub/app/rbac.py` |
| `Csrf` | `apphub/app/csrf.py` |
| `Auth` | `apphub/app/auth.py` (the `UserStore` class is the `users` table) |
| `Audit` | `apphub/app/audit.py` (the `AuditLog` class is the `audit_log` table) |
| `Util` | `apphub/app/util.py` |
| `Config` | `apphub/app/config.py` (the defaults and the list parsing only) |
| `Uploads` | `apphub/app/uploads.py` (the `FileSystem` class is the disk) |
| `Paths` | `pathlib` resolution and the containment check of `apphub/app/main.py` |
| `Database` | the content tables the routes of `apphub/app/main.py` write |
| `Routes` | the handlers and middleware of `apphub/app/main.py` (the `Portal` class holds all state) |
| `RouteLemmas` | properties of the routes that span several operations |

State that the source changes in place is modelled with classes:

- `Auth.UserStore` holds the users table.
- `Audit.AuditLog` holds the audit rows.
- `Uploads.FileSystem` holds the files and directories.
- `Routes.Portal` holds the content tables and points to the other three.

The copy loop of `save_upload` is a method with a loop (`Uploads.CopyChunks`).
Each handler is a method, proved against specification functions
(`Identify`, `UsersAfter`, `PrepOutcome`, `Apply`, `Entry`, `DownloadAnswer`).
Lemmas prove the properties of those functions.

Outside inputs are parameters:

- the clock is `now`;
- `secrets.token_urlsafe` is `issued`;
- SHA-256, `mimetypes.guess_type`, the ClamAV socket, `datetime.fromisoformat`,
  `json.dumps` and `str()` of a datetime are function-valued fields of
  `Uploads.Oracles`, `Routes.Env` and `Audit.Json`;
- the working directory that `Path.resolve` starts from is `Env.cwd`.

## Model

| member | source | states |
|---|---|---|
| Rbac.Rank | apphub/app/rbac.py:7 | viewer, editor and admin rank 1..3; exactly the strings outside the table rank 0 |
| Rbac.RequireRole | apphub/app/rbac.py:10-12 | passes iff the user's rank is at least the minimum's, else fails with 403 "Insufficient permissions" |
| Rbac.KnownRolesTable | apphub/app/rbac.py:7-12 | among the known roles exactly viewer-below-editor/admin and editor-below-admin are refused |
| Rbac.UnknownRoleRefused | apphub/app/rbac.py:11 | a role outside the table is refused wherever a known role is required |
| Rbac.UnknownMinimumAdmitsAll | apphub/app/rbac.py:11 | an unknown minimum ranks 0 and admits every user |
| Rbac.AdminPassesAll | apphub/app/rbac.py:7-12 | an admin passes every check |
| Rbac.RequireRoleMonotone | apphub/app/rbac.py:10-12 | whoever passes a higher minimum passes every lower one |
| Rbac.RequireRoleOnlyRole | apphub/app/rbac.py:10-12 | the verdict depends on the role alone |
| Rbac.RanksDistinct | apphub/app/rbac.py:7 | distinct known roles have distinct ranks |
| Csrf.CsrfToken | apphub/app/csrf.py:11-15 | the cookie's token when it is non-empty, otherwise the newly issued one |
| Csrf.CsrfCookie | apphub/app/csrf.py:18-26 | cookie `apphub_csrf` with the token, readable by scripts, secure, same-site lax, path "/" |
| Csrf.ValidateCsrf | apphub/app/csrf.py:29-45 | safe methods pass; otherwise a missing cookie or token gives 403 "Missing CSRF token", a mismatch 403 "Invalid CSRF token", and equality passes; the header is preferred over the form field |
| Csrf.EchoedHeaderPasses | apphub/app/csrf.py:11-45 | a client that stores the issued cookie and echoes it in X-CSRF-Token passes with any method |
| Csrf.EchoedFormPasses | apphub/app/csrf.py:34-45 | a form body carrying the cookie's token in `csrf_token` passes |
| Csrf.TokenStable | apphub/app/csrf.py:11-15 | once the cookie is stored, later requests get the same token whatever is newly drawn |
| Csrf.HeaderTakesPrecedence | apphub/app/csrf.py:43-45 | a non-empty header that differs from the cookie is refused even if the form field matches |
| Csrf.FormIgnoredUnlessForm | apphub/app/csrf.py:35-40 | outside form content types the form field never influences the verdict |
| Csrf.LowerCaseGetChecked | apphub/app/csrf.py:30 | the safe-method test is case-sensitive: "get" without a cookie is refused |
| Text.StripLeftShape | apphub/app/auth.py:20 | `lstrip` drops an all-whitespace prefix and leaves a suffix that does not start with whitespace |
| Text.StripRightShape | apphub/app/auth.py:20 | `rstrip` drops an all-whitespace suffix and leaves a prefix that does not end with whitespace |
| Text.StripShape | apphub/app/auth.py:20 | `strip` leaves the middle slice of the input between a whitespace prefix and suffix, with no outer whitespace |
| Text.StripUnique | apphub/app/auth.py:20 | conversely, any split into whitespace, a core without outer whitespace, and whitespace yields that core |
| Text.StripOfParts | apphub/app/util.py:14 | whitespace + core + whitespace strips to the core |
| Text.StripPadded | apphub/app/util.py:22 | extra whitespace around a string does not change its strip |
| Text.StripIdempotent | apphub/app/util.py:22 | strip is idempotent |
| Text.LowerStripCommute | apphub/app/auth.py:20 | lower-casing and stripping commute |
| Text.LowerIdempotent | apphub/app/auth.py:20 | lower is idempotent |
| Text.LowerOfLowerFree | apphub/app/auth.py:20 | a string without upper-case letters is its own lower case |
| Text.Contains | apphub/app/uploads.py:38 | `needle in s` holds iff the needle occurs at some index |
| Text.Split | apphub/app/util.py:22 | `split(sep)` is never empty, no piece holds the separator, and joining gives the input back |
| Text.SplitConcat | apphub/app/util.py:22 | splitting distributes over a separator between two strings |
| Text.SplitNoSep | apphub/app/util.py:34 | a string without the separator splits into itself |
| Text.SplitJoin | apphub/app/util.py:38-40 | split inverts join when no piece holds the separator |
| Auth.NormalizeEmail | apphub/app/auth.py:19-20 | the normalized email has no outer whitespace and no upper-case letter |
| Auth.NormalizedEmailUnchanged | apphub/app/auth.py:19-20 | an email with no outer whitespace and no upper-case letter is its own key, so normalizing changes only padding and case |
| Auth.NormalizeEmailIdempotent | apphub/app/auth.py:19-20 | normalizing twice is normalizing once |
| Auth.NormalizeEmailIgnoresCaseAndPadding | apphub/app/auth.py:19-20 | emails differing only in case or surrounding whitespace normalize alike |
| Auth.UserStore.GetIdentity | apphub/app/auth.py:23-51 | returns `Identify` and leaves the table as `UsersAfter`/`NextIdAfter` say, keeping the table invariant |
| Auth.UserStore.SetRole | apphub/app/main.py:1016 | the table becomes `RoleSet`, next id unchanged, invariant kept |
| Auth.UserById | apphub/app/main.py:1014-1015 | finds a row iff some row has the id, and that row |
| Auth.MissingEmailRejected | apphub/app/auth.py:24-26 | a missing or empty X-Auth-Email gives 401 "Missing identity header" and leaves the table alone |
| Auth.KnownEmailKeepsRow | apphub/app/auth.py:33-45 | a known email returns its stored id, email, role and old display name; only last_login and (when given) display_name change |
| Auth.NewEmailBecomesViewer | apphub/app/auth.py:46-51 | an unknown email inserts exactly one viewer row under a fresh id and returns it |
| Auth.IdentityKeepsRoles | apphub/app/auth.py:23-51 | no row is removed and no stored role, id or email changes |
| Auth.SecondVisitSameUser | apphub/app/auth.py:23-51 | a second request whose email normalizes the same resolves to the same user |
| Auth.IdentityKeepsTableOk | apphub/app/auth.py:23-51 | the table invariant (rows under their email, ids fresh and unique) is kept |
| Auth.RoleSetOnlyThatRow | apphub/app/main.py:1016 | the role update changes only the role of the row with that id |
| Auth.RoleSetTakesEffect | apphub/app/main.py:1014-1016 | after the update the row with that id is found again with the new role |
| Audit.Stringify | apphub/app/audit.py:34-35 | `default=str` keeps the columns, makes the row serializable and turns each datetime into its text |
| Audit.StringifyKeepsEncodable | apphub/app/audit.py:34-35 | a row without datetimes is unchanged by `default=str` |
| Audit.DumpsAsWritten | apphub/app/audit.py:34-35 | `json.dumps` succeeds iff the row holds no datetime, giving the serialiser's text of the row, else raises TypeError |
| Audit.Entry | apphub/app/audit.py:11-39 | the inserted row carries actor email, action, entity type and id, ip and time, with a snapshot iff one was given, and that snapshot is the `default=str` serialisation of the given row |
| Audit.EntryAsWritten | apphub/app/audit.py:29-38 | as written, the row is produced iff both snapshots are datetime-free, holding `json.dumps` of each given snapshot, else TypeError |
| Audit.EntryAgreesWhenSerializable | apphub/app/audit.py:34-35 | on datetime-free snapshots the code as written and the corrected entry agree |
| Audit.DatetimeLosesEntry | apphub/app/audit.py:34 | one datetime column in the before snapshot is enough to lose the audit row as written |
| Audit.AuditLog.LogAction | apphub/app/audit.py:11-39 | appends exactly the corrected entry and keeps every earlier row |
| Audit.AuditLog.LogActionAsWritten | apphub/app/audit.py:11-39 | as written: appends the entry when both snapshots serialize, otherwise leaves the table unchanged |
| Util.KeepSlugChars | apphub/app/util.py:10 | keeps only slug characters, never grows, and leaves a slug unchanged |
| Util.KeepSlugCharsConcat | apphub/app/util.py:16 | the pattern works character by character: the kept characters of a concatenation are those of each part, in order |
| Util.KeepSlugCharsOne | apphub/app/util.py:16 | one character is kept exactly when it matches `[a-z0-9-]` |
| Util.Slugify | apphub/app/util.py:13-16 | the slug holds only `[a-z0-9-]` and is no longer than the input |
| Util.SlugifyKeepsSlugs | apphub/app/util.py:13-16 | a slug is its own slug |
| Util.SlugifyIdempotent | apphub/app/util.py:13-16 | slugify is idempotent |
| Util.SlugifyJoinsWords | apphub/app/util.py:14 | two slug words separated by a space become the words joined by "-" |
| Util.DropEmpty | apphub/app/util.py:39 | keeps exactly the non-empty values in order |
| Util.TagOf | apphub/app/util.py:22 | each piece contributes at most its stripped text, never empty, never holding a comma it did not have |
| Util.KeepTags | apphub/app/util.py:22 | the comprehension yields non-empty tags without outer whitespace |
| Util.ParseTags | apphub/app/util.py:19-22 | no tags for a missing or empty field; otherwise non-empty tags without commas or outer whitespace |
| Util.KeepTagsConcat | apphub/app/util.py:22 | the comprehension distributes over concatenation |
| Util.ParseTagsPresent | apphub/app/util.py:19-22 | for any present string the result is the comprehension over its split |
| Util.ParseTagsConcat | apphub/app/util.py:19-22 | the tags of `a,b` are the tags of `a` followed by those of `b` |
| Util.ParseTagsSingle | apphub/app/util.py:22 | a comma-free field yields its stripped text, or nothing when that is empty |
| Util.EnsureFilterIn | apphub/app/util.py:38-40 | the joined value is empty iff every value is empty |
| Util.DropEmptyConcat | apphub/app/util.py:39 | dropping empty values works value by value over a concatenation, keeping order |
| Util.DropEmptyOne | apphub/app/util.py:39 | one value is kept exactly when it is not empty |
| Util.DropEmptyNil | apphub/app/util.py:39 | nothing is kept iff every value is empty |
| Util.FilterSplitsBack | apphub/app/util.py:38-40 | splitting the joined value gives back the non-empty values |
| Util.TagsRoundTrip | apphub/app/util.py:19-40 | `parse_tags(ensure_filter_in(tags)) == tags` for well-formed tag lists |
| Util.KeepTagsOfTags | apphub/app/util.py:22 | already clean tags pass the comprehension unchanged |
| Util.ClientIp | apphub/app/util.py:31-35 | with a non-empty X-Forwarded-For the address is a stripped comma-free hop; otherwise the peer host |
| Util.ClientIpSingleHop | apphub/app/util.py:31-34 | a single-address X-Forwarded-For gives that address stripped |
| Util.ClientIpFirstHop | apphub/app/util.py:33-34 | for a chain `first,rest` the address is `first` stripped |
| Config.ExtensionList | apphub/app/config.py:27-33 | the list is the comma-separated pieces as written: comma-free pieces that join back to the setting |
| Config.TrailingCommaGivesEmptyEntry | apphub/app/config.py:27-30 | a trailing comma adds an empty entry |
| Config.ClamavFlagSpellings | apphub/app/config.py:34 | "true" in any case enables scanning; "1" and "yes" do not |
| Encoding.Hex | apphub/app/uploads.py:46 | two lower-case hex digits per byte |
| Encoding.Unhex | apphub/app/uploads.py:69 | reading back yields half as many bytes as digits |
| Encoding.HexRoundTrip | apphub/app/uploads.py:69 | `hexdigest` loses nothing: the digest reads back from its hex form |
| Encoding.HexInjective | apphub/app/uploads.py:46 | equal hex strings come from equal digests |
| Encoding.Utf8 | apphub/app/uploads.py:46 | `str.encode()` gives one to four bytes per character |
| Encoding.DecodeUtf8 | apphub/app/uploads.py:46 | the inverse of the `filename.encode()` hashed into the stored name: a successful decode re-encodes to the input bytes |
| Encoding.Utf8RoundTrip | apphub/app/uploads.py:46 | decoding the encoding of a name gives the name back |
| Encoding.Utf8Injective | apphub/app/uploads.py:46 | different names encode to different bytes |
| Encoding.Utf8Ascii | apphub/app/uploads.py:46 | an ASCII name encodes to its character codes |
| Paths.KeepParts | apphub/app/main.py:208-209 | pathlib keeps only plain parts and leaves plain parts as they are |
| Paths.ParsePath | apphub/app/main.py:208-209 | the parsed path is well formed and absolute iff the text starts with "/" |
| Paths.PathTextRoundTrip | apphub/app/main.py:212 | printing then parsing a path gives it back |
| Paths.Div | apphub/app/main.py:833 | `/` keeps paths well formed |
| Paths.Collapse | apphub/app/main.py:208-209 | resolution yields canonical parts (no "..") and never more of them |
| Paths.CollapseCanonical | apphub/app/main.py:208-209 | canonical parts resolve to themselves |
| Paths.CollapseIdempotent | apphub/app/main.py:208-209 | resolution is idempotent |
| Paths.CollapseAppend | apphub/app/main.py:208-209 | appending plain parts appends them to the resolution |
| Paths.Resolve | apphub/app/main.py:208-209 | `resolve()` yields canonical absolute parts |
| Paths.InternalRedirect | apphub/app/main.py:208-212 | accepted iff the resolved root is a proper ancestor of the resolved path, else 400 "Invalid file path" |
| Paths.RedirectNamesStoredFile | apphub/app/main.py:210-212 | an accepted redirect is the internal prefix plus plain names, and root plus those names is the stored file |
| Paths.RootItselfRejected | apphub/app/main.py:210-211 | the storage root itself is never served |
| Paths.ClimbingOutRejected | apphub/app/main.py:208-211 | a path that climbs out of the root with ".." is refused |
| Paths.StoredUnderRootAccepted | apphub/app/main.py:208-212 | a file below the root under plain names is accepted with the prefix plus those names |
| Uploads.AnyEndsWith | apphub/app/uploads.py:25 | true iff some entry is a suffix of the name |
| Uploads.ValidateExtension | apphub/app/uploads.py:23-26 | passes iff the lower-cased name ends with an entry as written, else 400 "File extension not allowed" |
| Uploads.UpperCaseEntryNeverMatches | apphub/app/uploads.py:24-25 | an entry with an upper-case letter never matches |
| Uploads.EmptyEntryAcceptsAll | apphub/app/uploads.py:25 | an empty entry accepts every name |
| Uploads.ExtensionCaseInsensitive | apphub/app/uploads.py:24 | the verdict ignores the case of the name |
| Uploads.Basename | apphub/app/uploads.py:45 | the base name is a "/"-free suffix preceded by "/" when shorter than the input |
| Uploads.BasenameOfName | apphub/app/uploads.py:45 | a name without "/" is its own base name |
| Uploads.BasenameAfterSlash | apphub/app/uploads.py:45 | a directory prefix is dropped |
| Uploads.StoredName | apphub/app/uploads.py:46 | the hex SHA-256 digest of the UTF-8 encoded base name (64 hex digits), "-", then the base name |
| Uploads.StoredNameIsPart | apphub/app/uploads.py:46 | the stored name is one plain path part |
| Uploads.DestinationIsChild | apphub/app/uploads.py:45-46 | the destination is a direct child of the storage directory whatever name the client sent |
| Uploads.DestinationDeterminesBasename | apphub/app/uploads.py:45-46 | two uploads share a destination iff their base names are equal |
| Uploads.ScanVerdict | apphub/app/uploads.py:29-39 | skipped when disabled; otherwise malware iff the reply contains "FOUND"; a socket failure propagates |
| Uploads.FoundInNameRejected | apphub/app/uploads.py:36-39 | a clean file whose path contains "FOUND" is reported as malware |
| Uploads.MimeOf | apphub/app/uploads.py:64-70 | the guessed type when there is one, else "application/octet-stream"; never empty |
| Uploads.SaveOutcome | apphub/app/uploads.py:42-71 | succeeds iff the extension passes, the body is within the cap and the scan is clean; errors are the three 400s or a propagated exception |
| Uploads.DirChain | apphub/app/uploads.py:44 | the directories `mkdir(parents=True)` ensures hold the storage directory itself |
| Uploads.FileSystem.MakeDirs | apphub/app/uploads.py:44 | adds the directory and every parent (`DirChain`), files unchanged |
| Uploads.FileSystem.Create | apphub/app/uploads.py:51 | creates or truncates the file |
| Uploads.FileSystem.Append | apphub/app/uploads.py:61 | appends the data to the file |
| Uploads.FileSystem.Unlink | apphub/app/uploads.py:58 | removes the file if present |
| Uploads.ReadChunk | apphub/app/uploads.py:53 | the next slice of the body, empty exactly at the end |
| Uploads.CopyChunks | apphub/app/uploads.py:49-61 | gives up iff the body is non-empty and over the cap, then without the destination; else the destination holds the body, the count is its length and the hash covers it |
| Uploads.RewriteFacts | apphub/app/uploads.py:51-61 | truncating then removing or refilling a file equals removing or filling it |
| Uploads.SaveUpload | apphub/app/uploads.py:42-71 | returns `SaveOutcome` and leaves files and directories as `FilesAfter` and `DirsAfter` say; the directories gain the storage directory and its parents once the extension passes |
| Uploads.ResultDescribesContent | apphub/app/uploads.py:65-71 | a success reports the base name, destination, full length, the digest of the whole body in readable hex, and the MIME type guessed from the base name or "application/octet-stream" |
| Uploads.CapIsInclusive | apphub/app/uploads.py:57 | a body of exactly the cap passes the size check and one byte more is refused |
| Uploads.RefusedExtensionTouchesNothing | apphub/app/uploads.py:43-44 | a refused extension leaves files and directories as they were |
| Uploads.MalwareStaysOnDisk | apphub/app/uploads.py:63 | after a malware verdict the bytes remain at the destination |
| Uploads.SameBasenameShareDestination | apphub/app/uploads.py:45-61 | a later upload with the same base name replaces the earlier bytes, and an oversized one deletes them |
| Database.RelinkReplaces | apphub/app/main.py:424-429 | after unlink and relink the app has exactly the submitted categories; other apps keep theirs |
| Database.InsertedIsFresh | apphub/app/main.py:314-335 | an insert adds one row under a fresh id and keeps the others |
| Database.InsertedKeepsTyped | apphub/app/main.py:834-853 | inserting rows with the served columns keeps the tables typed |
| Database.UpdatedKeepsInvariants | apphub/app/main.py:449 | an update keeps the key set; a `deleted_at` update keeps the types |
| Database.DeletedKeepsInvariants | apphub/app/main.py:789 | a delete keeps the invariants |
| Routes.MinimumRole | apphub/app/main.py:445 | admin exactly for the deletes and the role route, editor otherwise |
| Routes.ParseIso | apphub/app/main.py:597 | `fromisoformat` succeeds iff the oracle parses, else ValueError |
| Routes.ParseOptional | apphub/app/main.py:920-921 | an empty field gives None; a present one parses or raises |
| Routes.PrepOutcome | apphub/app/main.py:597 | releases always parse a date, announcements parse their dates, uploads store; only those steps can fail |
| Routes.UploadPrepIsStored | apphub/app/main.py:833 | the preparation of an upload route is `save_upload` into its directory with its allow-list |
| Routes.Answer | apphub/app/main.py:308-350 | the redirect iff the caller passes the role check and preparation succeeds; a refused caller gets 403 |
| Routes.CreateKeepsInvariants | apphub/app/main.py:313-340 | every create block keeps the table invariants |
| Routes.UpdateKeepsInvariants | apphub/app/main.py:399-429 | every update block keeps the table invariants |
| Routes.DeleteKeepsInvariants | apphub/app/main.py:446-449 | every delete block keeps the table invariants |
| Routes.ApplyKeepsInvariants | apphub/app/main.py:313-429 | every cursor block keeps the table invariants |
| Routes.Downloadable | apphub/app/main.py:195-206 | a found row is the stored live file row with the served columns |
| Routes.CountedKeepsInvariants | apphub/app/main.py:207 | the count bump keeps the invariants |
| Routes.Responded | apphub/app/main.py:27-34 | handled answers carry the CSRF cookie and keep their status; an unhandled exception becomes a bare 500 without a cookie |
| Routes.Portal.Insert | apphub/app/main.py:314-335 | the row is inserted under the next id, which is returned |
| Routes.Portal.Update | apphub/app/main.py:402-423 | the tables become `Updated` |
| Routes.Portal.Delete | apphub/app/main.py:789 | the tables become `Deleted` |
| Routes.Portal.Unlink | apphub/app/main.py:424 | the tables become `Unlinked` |
| Routes.Portal.LinkCategories | apphub/app/main.py:336-340 | the loop adds one link per category |
| Routes.Portal.Mutate | apphub/app/main.py:313-340 | the statements of each route's cursor block produce `Apply`'s change |
| Routes.Portal.Prepare | apphub/app/main.py:759 | returns `PrepOutcome`; the disk changes as `PrepFiles`/`PrepDirs` say |
| Routes.Portal.Handle | apphub/app/main.py:294-350 | identify, check the role, prepare, mutate, audit: the answer is `Answer`; a refused caller changes only the users table; a failed preparation writes no row and no audit entry; success writes `Apply`'s change and exactly one audit entry |
| Routes.Portal.ChangeRole | apphub/app/main.py:1009-1026 | the user row is updated and exactly one audit entry with the row before and `{"role": role}` is appended |
| Routes.Portal.Commit | apphub/app/main.py:586-618 | after a failed preparation nothing is written; otherwise the cursor block, then one audit entry |
| Routes.Portal.Download | apphub/app/main.py:191-216 | answers `DownloadAnswer` and bumps the count whenever the row is found |
| Routes.Portal.ServeMedia | apphub/app/main.py:219-234 | answers `MediaAnswer`; only the users table changes |
| Routes.Portal.Serve | apphub/app/main.py:27-34 | a CSRF refusal changes nothing and answers 500; otherwise the handler's answer with the CSRF cookie, and the users table, content tables, audit log and disk become `EndpointAfter` of the state before |
| Routes.AdminAfterOf | apphub/app/main.py:294-350 | the post-state of an admin route, clause by clause, is the state function `AdminAfter`: identify, role check, preparation, cursor block, one audit entry |
| RouteLemmas.CreateAddsOneRow | apphub/app/main.py:586-607 | a create inserts one row in its table under a fresh id, keeps the rest, and audits no before snapshot |
| RouteLemmas.MissingRowChangesNoRow | apphub/app/main.py:446-449 | an update or delete of a missing row is no error and changes no row |
| RouteLemmas.DeleteSoftUnlessMedia | apphub/app/main.py:782-800 | a delete records the row as before; media rows are removed, others get `deleted_at` and stop being live |
| RouteLemmas.CreateOnlyItsTable | apphub/app/main.py:313-340 | a create leaves other tables alone |
| RouteLemmas.UpdatedOnlyItsTable | apphub/app/main.py:402-423 | an update leaves other tables alone |
| RouteLemmas.UpdateOnlyItsTable | apphub/app/main.py:399-429 | every update block leaves other tables alone |
| RouteLemmas.DeleteOnlyItsTable | apphub/app/main.py:446-449 | every delete block leaves other tables alone |
| RouteLemmas.OnlyItsTable | apphub/app/main.py:313-429 | a cursor block touches no other table, and only the app routes touch category links |
| RouteLemmas.AppUpdateReplacesCategories | apphub/app/main.py:424-429 | an app update links exactly the submitted categories; other apps keep theirs |
| RouteLemmas.ApplySoftDelete | apphub/app/main.py:866-884 | app, release and file deletes set `deleted_at` |
| RouteLemmas.SoftDeletedNotLive | apphub/app/main.py:873 | a soft-deleted row is no longer live |
| RouteLemmas.HiddenFileNotFound | apphub/app/main.py:204-206 | a file the query does not find is answered 404 |
| RouteLemmas.SoftDeletedFileHidden | apphub/app/main.py:200 | a soft-deleted file is not found |
| RouteLemmas.DeletedFileNotFound | apphub/app/main.py:866-884 | after a file delete its download answers 404 |
| RouteLemmas.DeletedReleaseHidesFiles | apphub/app/main.py:673-691 | after a release delete its files answer 404 while their rows stay |
| RouteLemmas.RejectedPathStillCounted | apphub/app/main.py:207-211 | a found file whose path fails containment answers 400 yet its count is bumped |
| RouteLemmas.CountedOnlyThatFile | apphub/app/main.py:207 | the count bump changes no other row |
| RouteLemmas.FilesDirectory | apphub/app/main.py:833 | the files directory is the root plus "files" |
| RouteLemmas.FilesEntryAccepted | apphub/app/main.py:208-212 | a plain name in the files directory is served as `files/<name>` |
| RouteLemmas.StoredFileRedirect | apphub/app/main.py:833 | a file stored by the upload route is served as `files/<stored name>` |
| RouteLemmas.FileUploadResult | apphub/app/main.py:833 | a stored file keeps the client's base name and its destination |
| RouteLemmas.InsertedFileFound | apphub/app/main.py:834-853 | a file row inserted under a live release is found with its path and name |
| RouteLemmas.FoundFileAnswer | apphub/app/main.py:208-216 | a found file with a contained path answers the redirect and the attachment name |
| RouteLemmas.ApplyFileUpload | apphub/app/main.py:834-853 | the file upload block inserts the file row |
| RouteLemmas.UploadedFileServable | apphub/app/main.py:823-864 | a file uploaded under a live release is then downloadable from `files/<stored name>` under its base name |
| RouteLemmas.EditorCannotDelete | apphub/app/main.py:1012 | editors pass every route but deletes and the role change; admins pass all; viewers none |
| RouteLemmas.RoleAuditAsWrittenFails | apphub/app/main.py:1014-1025 | as written, the role change's audit row is lost because the user row holds datetimes |
| RouteLemmas.UpdateAfterCreateAuditAsWrittenFails | apphub/app/main.py:400-438 | as written, updating a created app loses its audit row; the corrected entry keeps it |

## Left out

- Reading the environment (`load_dotenv`, `_env`): settings are a record with the defaults of `apphub/app/config.py`.
- The listing, edit-form and template routes of `apphub/app/main.py`; they change nothing.
- Form validation (422) and method routing (405) are FastAPI's; a route receives parsed form values.
- SHA-256, `mimetypes.guess_type`, `secrets.token_urlsafe`, `datetime.fromisoformat`, `json.dumps` and `str()` of a datetime are oracles passed as parameters.
- `secrets.compare_digest` is modelled as string equality; its timing behaviour is not modelled.
- Text.Lower: only ASCII letters are lower-cased, because Unicode case mapping is not modelled.
- Paths.Resolve: symbolic links are not followed and the POSIX "//" root is treated as "/", because the file system's links are not part of the model.
- Uploads.FileSystem.MakeDirs: the file system never refuses, so `mkdir` failures (permissions, a file in the way) are not modelled.
- The ClamAV socket is one oracle call: connecting, the 4096-byte receive limit and timeouts are not modelled.
- Uploads.CopyChunks: the 1 MiB chunk size does not change the result, so the loop reads it but no property depends on it.
- The database is one value with a single id counter for all tables, where PostgreSQL has one sequence per table. Foreign keys, unique constraints and column defaults are not modelled; a row without `deleted_at` counts as live.
- Routes.Downloadable: the joined `r.app_id` column is not part of the returned row.
- Transactions: a cursor block and its audit write are separate steps, as in the source; rollback on an exception inside a block is not modelled.
- One `now` stands for every clock read of a request.
- Concurrency between requests is not modelled.
- Routes.Portal.Serve: the CSRF refusal is modelled as Starlette treats an exception raised inside an `@app.middleware` function. It skips the per-status handlers and reaches the 500 handler, so the answer is 500 without the cookie; the 403 handler at `apphub/app/main.py:1029-1033` is never reached for the middleware's exception.
- Routes.Portal.Handle, Routes.Portal.Commit, Routes.Portal.Serve: these use the corrected audit entry (`Audit.Entry`, see Findings). As written, the update and delete routes pass the `SELECT *` row as the before snapshot. Where that row holds a datetime, the request answers 500 without the cookie and without an audit row after the change has committed. That covers the role route (the users row has `created_at` and `last_login`) and existing rows of apps, releases, files and announcements, into which the code writes timestamps. Category and media rows receive no timestamp from the code, so whether they hold one depends on the database schema, which is not part of this model; in the model they hold none and are audited. An update or delete of a missing id has no before snapshot and is audited as written too; that behaviour is modelled by `Audit.EntryAsWritten` and `Audit.AuditLog.LogActionAsWritten`, not by these methods.
- Behaviour of the code that is easy to miss, modelled as written:
  - same-basename uploads overwrite each other (Uploads.SameBasenameShareDestination);
  - a malware verdict leaves the file on disk (Uploads.MalwareStaysOnDisk);
  - an oversized upload deletes an earlier file with the same base name;
  - a "FOUND" in the stored path is reported as malware (Uploads.FoundInNameRejected);
  - media serving does not check `deleted_at`, and media deletes are hard deletes.

## Findings

| source | as written | input that shows it | evidently intended | confidence | as-written member | corrected member |
|---|---|---|---|---|---|---|
| apphub/app/audit.py:34-35 | `json.dumps(before)` on a row dict that holds `datetime` values raises `TypeError`, so the audit row is never inserted after the mutation has committed | the role route (main.py:1014-1025) passes the `SELECT * FROM users` row, which holds `created_at` and `last_login`; an app update passes the `apps` row with `created_at`/`updated_at` | every mutation is audited; serialise datetimes as text (`json.dumps(x, default=str)`) | not executed; depends on the driver returning timestamp columns as `datetime` | Audit.EntryAsWritten | Audit.Entry |
| apphub/app/main.py:1014-1025 | the role change commits, then `log_action` raises and the request answers 500 with no audit row | any existing user id | the role change is audited | not executed | RouteLemmas.RoleAuditAsWrittenFails | Routes.Portal.ChangeRole |
