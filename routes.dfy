/** The request handlers of apphub/app/main.py that change state or serve
    stored files, and the CSRF middleware in front of them.

    Every admin route runs the same steps in the same order: identify the
    caller (which itself writes the users table), check the role, prepare
    (parse dates or store the upload), run the SQL in one cursor block, and
    write one audit row. The serving routes identify the caller, look the
    row up, and hand a path below the storage root to the web server. */
module Routes {
  import opened Text
  import opened Http
  import opened Util
  import opened Auth
  import opened Rbac
  import opened Csrf
  import opened Paths
  import opened Encoding
  import opened Uploads
  import opened Config
  import opened Audit
  import opened Database

  /** The form of the app create and update routes. */
  datatype AppForm = AppForm(
    name: string,
    kind: string,                 // `type`
    description: string,
    status: string,
    ownerTeam: string,
    supportContact: string,
    webUrl: string,
    tags: string,
    featured: Option<string>,
    categories: seq<int>)

  /** The form of the release create and update routes. */
  datatype ReleaseForm = ReleaseForm(
    appId: int,
    version: string,
    releaseDate: string,
    notes: string,
    changelog: string)

  /** The form of the announcement create and update routes. */
  datatype AnnouncementForm = AnnouncementForm(
    title: string,
    body: string,
    startsAt: Option<string>,
    endsAt: Option<string>,
    priority: int)

  /** The state-changing admin routes, with their path and form values. */
  datatype Route =
    | AppCreate(app: AppForm)
    | AppUpdate(id: int, app: AppForm)
    | AppDelete(id: int)
    | CategoryCreate(name: string, sortOrder: int)
    | CategoryUpdate(id: int, name: string, sortOrder: int)
    | ReleaseCreate(release: ReleaseForm)
    | ReleaseUpdate(id: int, release: ReleaseForm)
    | ReleaseDelete(id: int)
    | MediaUpload(appId: int, kind: string, caption: string, sortOrder: int, upload: Upload)
    | MediaDelete(id: int)
    | FileUpload(releaseId: int, platform: string, arch: string, upload: Upload)
    | FileDelete(id: int)
    | AnnouncementCreate(announcement: AnnouncementForm)
    | AnnouncementUpdate(id: int, announcement: AnnouncementForm)
    | UserRole(id: int, role: string)

  predicate IsDelete(route: Route) {
    route.AppDelete? || route.ReleaseDelete? || route.MediaDelete? || route.FileDelete?
  }

  predicate IsCreate(route: Route) {
    route.AppCreate? || route.CategoryCreate? || route.ReleaseCreate? ||
    route.MediaUpload? || route.FileUpload? || route.AnnouncementCreate?
  }

  predicate IsUpload(route: Route) {
    route.MediaUpload? || route.FileUpload?
  }

  /** The `require_role` minimum of each route: admin for the deletes and
      the role change, editor for everything else. */
  function MinimumRole(route: Route): (m: string)
    ensures m == "admin" <==> IsDelete(route) || route.UserRole?
    ensures m == "editor" <==> !(IsDelete(route) || route.UserRole?)
  {
    if IsDelete(route) || route.UserRole? then "admin" else "editor"
  }

  /** The audit `action`. */
  function Action(route: Route): string {
    if IsCreate(route) then "create" else if IsDelete(route) then "delete" else "update"
  }

  /** The audit `entity_type`. */
  function EntityType(route: Route): string {
    match route
    case AppCreate(_) => "app"
    case AppUpdate(_, _) => "app"
    case AppDelete(_) => "app"
    case CategoryCreate(_, _) => "category"
    case CategoryUpdate(_, _, _) => "category"
    case ReleaseCreate(_) => "release"
    case ReleaseUpdate(_, _) => "release"
    case ReleaseDelete(_) => "release"
    case MediaUpload(_, _, _, _, _) => "media"
    case MediaDelete(_) => "media"
    case FileUpload(_, _, _, _) => "file"
    case FileDelete(_) => "file"
    case AnnouncementCreate(_) => "announcement"
    case AnnouncementUpdate(_, _) => "announcement"
    case UserRole(_, _) => "user"
  }

  /** The content table a route writes (the role route writes `users`). */
  function TableOf(route: Route): Table
    requires !route.UserRole?
  {
    match route
    case AppCreate(_) => Apps
    case AppUpdate(_, _) => Apps
    case AppDelete(_) => Apps
    case CategoryCreate(_, _) => Categories
    case CategoryUpdate(_, _, _) => Categories
    case ReleaseCreate(_) => Releases
    case ReleaseUpdate(_, _) => Releases
    case ReleaseDelete(_) => Releases
    case MediaUpload(_, _, _, _, _) => Media
    case MediaDelete(_) => Media
    case FileUpload(_, _, _, _) => Files
    case FileDelete(_) => Files
    case AnnouncementCreate(_) => Announcements
    case AnnouncementUpdate(_, _) => Announcements
  }

  /** Where the 303 redirect after a successful mutation points. */
  function Location(route: Route, settings: Settings): string {
    var page := match route
      case AppCreate(_) => "apps"
      case AppUpdate(_, _) => "apps"
      case AppDelete(_) => "apps"
      case CategoryCreate(_, _) => "categories"
      case CategoryUpdate(_, _, _) => "categories"
      case ReleaseCreate(_) => "releases"
      case ReleaseUpdate(_, _) => "releases"
      case ReleaseDelete(_) => "releases"
      case MediaUpload(_, _, _, _, _) => "media"
      case MediaDelete(_) => "media"
      case FileUpload(_, _, _, _) => "files"
      case FileDelete(_) => "files"
      case AnnouncementCreate(_) => "announcements"
      case AnnouncementUpdate(_, _) => "announcements"
      case UserRole(_, _) => "users";
    settings.apphubRoot + "/admin/" + page
  }

  /** What the handlers get from outside: the settings, the serialiser,
      the upload oracles, `datetime.fromisoformat` (None where it raises)
      and the working directory `Path.resolve` starts from. */
  datatype Env = Env(
    settings: Settings,
    json: Json,
    oracles: Oracles,
    parseTime: string -> Option<Time>,
    cwd: seq<string>)

  const BadDate := Unhandled("ValueError: Invalid isoformat string")

  /** `datetime.fromisoformat(s)`. */
  function ParseIso(s: string, parseTime: string -> Option<Time>): (r: Result<Time>)
    ensures r.Ok? <==> parseTime(s).Some?
    ensures r.Err? ==> r.error == BadDate
  {
    if parseTime(s).Some? then Ok(parseTime(s).value) else Err(BadDate)
  }

  /** `datetime.fromisoformat(s) if s else None`. */
  function ParseOptional(s: Option<string>, parseTime: string -> Option<Time>): (r: Result<Option<Time>>)
    ensures !Truthy(s) ==> r == Ok(None)
    ensures Truthy(s) ==> r.Ok? == parseTime(s.value).Some?
  {
    if !Truthy(s) then Ok(None)
    else if parseTime(s.value).Some? then Ok(Some(parseTime(s.value).value)) else Err(BadDate)
  }

  /** What a route computes between the role check and the cursor block. */
  datatype Prep = Nothing | Dates(first: Option<Time>, second: Option<Time>) | Stored(result: UploadResult)

  /** `Path(settings.storage_root) / sub`. */
  function UploadDir(settings: Settings, sub: string): Path {
    Div(ParsePath(settings.storageRoot), ParsePath(sub))
  }

  /** The directory an upload route stores into. */
  function UploadDirOf(route: Route, settings: Settings): Path
    requires IsUpload(route)
  {
    if route.MediaUpload? then UploadDir(settings, "media") else UploadDir(settings, "files")
  }

  /** The allow-list an upload route checks. */
  function AllowedOf(route: Route, settings: Settings): seq<string>
    requires IsUpload(route)
  {
    if route.MediaUpload? then settings.allowedMediaExtensions else settings.allowedUploadExtensions
  }

  /** The preparation step of each route: date parsing (releases always,
      announcements for non-empty fields) or `save_upload`; the other
      routes prepare nothing. */
  function PrepOutcome(route: Route, env: Env): (p: Result<Prep>)
    ensures p.Ok? && (route.ReleaseCreate? || route.ReleaseUpdate?) ==> p.value.Dates? && p.value.first.Some?
    ensures p.Ok? && (route.AnnouncementCreate? || route.AnnouncementUpdate?) ==> p.value.Dates?
    ensures p.Ok? && IsUpload(route) ==> p.value.Stored?
    ensures p.Err? ==> IsUpload(route) || route.ReleaseCreate? || route.ReleaseUpdate? ||
                       route.AnnouncementCreate? || route.AnnouncementUpdate?
  {
    match route
    case ReleaseCreate(f) =>
      var t := ParseIso(f.releaseDate, env.parseTime);
      if t.Err? then Err(t.error) else Ok(Dates(Some(t.value), None))
    case ReleaseUpdate(_, f) =>
      var t := ParseIso(f.releaseDate, env.parseTime);
      if t.Err? then Err(t.error) else Ok(Dates(Some(t.value), None))
    case AnnouncementCreate(a) => AnnouncementDates(a, env.parseTime)
    case AnnouncementUpdate(_, a) => AnnouncementDates(a, env.parseTime)
    case MediaUpload(_, _, _, _, _) => StoredOutcome(route, env)
    case FileUpload(_, _, _, _) => StoredOutcome(route, env)
    case _ => Ok(Nothing)
  }

  function AnnouncementDates(a: AnnouncementForm, parseTime: string -> Option<Time>): (p: Result<Prep>)
    ensures p.Ok? ==> p.value.Dates?
  {
    var starts := ParseOptional(a.startsAt, parseTime);
    if starts.Err? then Err(starts.error)
    else
      var ends := ParseOptional(a.endsAt, parseTime);
      if ends.Err? then Err(ends.error) else Ok(Dates(starts.value, ends.value))
  }

  function StoredOutcome(route: Route, env: Env): (p: Result<Prep>)
    requires IsUpload(route)
    ensures p.Ok? ==> p.value.Stored?
  {
    var s := env.settings;
    var saved := SaveOutcome(route.upload, UploadDirOf(route, s), AllowedOf(route, s), s.maxUploadMb,
                             s.clamavEnabled, env.oracles);
    if saved.Err? then Err(saved.error) else Ok(Stored(saved.value))
  }

  /** The preparation step of an upload route is `save_upload`. */
  lemma UploadPrepIsStored(route: Route, env: Env)
    requires IsUpload(route)
    ensures PrepOutcome(route, env) == StoredOutcome(route, env)
  {
  }

  /** The files on disk after the preparation step. */
  function PrepFiles(files: map<string, seq<byte>>, route: Route, env: Env): map<string, seq<byte>> {
    if IsUpload(route) then
      FilesAfter(files, route.upload, UploadDirOf(route, env.settings), AllowedOf(route, env.settings),
                 env.settings.maxUploadMb, env.oracles.digest)
    else files
  }

  function PrepDirs(dirs: set<string>, route: Route, env: Env): set<string> {
    if IsUpload(route) then
      DirsAfter(dirs, route.upload, UploadDirOf(route, env.settings), AllowedOf(route, env.settings))
    else dirs
  }

  /** A prepared value of the shape the route's cursor block reads. */
  predicate Fits(route: Route, prep: Prep) {
    ((route.ReleaseCreate? || route.ReleaseUpdate?) ==> prep.Dates? && prep.first.Some?) &&
    ((route.AnnouncementCreate? || route.AnnouncementUpdate?) ==> prep.Dates?) &&
    (IsUpload(route) ==> prep.Stored?)
  }

  function TimeValue(t: Option<Time>): Value {
    if t.Some? then Stamp(t.value) else Null
  }

  /** The columns the app routes write (both set `updated_at`). */
  function AppColumns(f: AppForm, now: Time): Row {
    map[
      "name" := Text(f.name),
      "slug" := Text(Slugify(f.name)),
      "type" := Text(f.kind),
      "description" := Text(f.description),
      "status" := Text(f.status),
      "owner_team" := Text(f.ownerTeam),
      "support_contact" := Text(f.supportContact),
      "web_url" := Text(f.webUrl),
      "tags" := TextList(ParseTags(Some(f.tags))),
      "featured" := Flag(f.featured == Some("on")),
      "updated_at" := Stamp(now)]
  }

  function CategoryColumns(name: string, sortOrder: int): Row {
    map["name" := Text(name), "slug" := Text(Slugify(name)), "sort_order" := Int(sortOrder)]
  }

  function ReleaseColumns(f: ReleaseForm, releaseDate: Time): Row {
    map[
      "app_id" := Int(f.appId),
      "version" := Text(f.version),
      "release_date" := Stamp(releaseDate),
      "notes" := Text(f.notes),
      "changelog" := Text(f.changelog)]
  }

  function AnnouncementColumns(a: AnnouncementForm, starts: Option<Time>, ends: Option<Time>): Row {
    map[
      "title" := Text(a.title),
      "body" := Text(a.body),
      "starts_at" := TimeValue(starts),
      "ends_at" := TimeValue(ends),
      "priority" := Int(a.priority)]
  }

  function MediaRow(appId: int, kind: string, caption: string, sortOrder: int, res: UploadResult): Row {
    map[
      "app_id" := Int(appId),
      "type" := Text(kind),
      "stored_path" := Text(res.storedPath),
      "caption" := Text(caption),
      "sort_order" := Int(sortOrder)]
  }

  function FileRow(releaseId: int, platform: string, arch: string, res: UploadResult, now: Time): Row {
    map[
      "release_id" := Int(releaseId),
      "platform" := Text(platform),
      "arch" := Text(arch),
      "filename" := Text(res.filename),
      "stored_path" := Text(res.storedPath),
      "size_bytes" := Int(res.sizeBytes),
      "sha256" := Text(res.sha256),
      "mime_type" := Text(res.mimeType),
      "download_count" := Int(0),
      "created_at" := Stamp(now)]
  }

  /** `SET deleted_at = NOW()`. */
  function DeletedAt(now: Time): Row {
    map["deleted_at" := Stamp(now)]
  }

  /** What a cursor block leaves behind: the tables, the id the audit row
      names, and the before and after snapshots it records. */
  datatype Change = Change(db: Db, entityId: int, before: Option<Row>, after: Option<Row>)

  /** An `INSERT ... RETURNING id` block; the audit row names the new id. */
  function CreateRow(db: Db, t: Table, row: Row, after: Row): Change {
    Change(Inserted(db, t, row), db.nextId, None, Some(after))
  }

  /** A `SELECT *` then `UPDATE` block on the row with the path's id. */
  function UpdateRow(db: Db, t: Table, id: int, columns: Row, after: Row): Change {
    Change(Updated(db, t, id, columns), id, Select(db, t, id), Some(after))
  }

  /** A `SELECT *` then `UPDATE ... SET deleted_at = NOW()` block. */
  function SoftDelete(db: Db, t: Table, id: int, now: Time): Change {
    Change(Updated(db, t, id, DeletedAt(now)), id, Select(db, t, id), None)
  }

  /** The app create block: the insert, then one link per category. */
  function CreateApp(db: Db, f: AppForm, now: Time): Change {
    var id := db.nextId;
    var row := AppColumns(f, now)["created_at" := Stamp(now)];
    Change(Linked(Inserted(db, Apps, row), id, f.categories), id, None,
           Some(map["name" := Text(f.name), "slug" := Text(Slugify(f.name))]))
  }

  /** The app update block: the update, then the app's links replaced. */
  function UpdateApp(db: Db, id: int, f: AppForm, now: Time): Change {
    Change(Linked(Unlinked(Updated(db, Apps, id, AppColumns(f, now)), id), id, f.categories),
           id, Select(db, Apps, id),
           Some(map["name" := Text(f.name), "slug" := Text(Slugify(f.name))]))
  }

  /** The cursor block of each content route. Creates insert (an app also
      links its categories); updates select the row, update it (an app's
      links are replaced); deletes select the row and set `deleted_at`,
      except media, which is deleted outright. A missing row is no error. */
  function Apply(db: Db, route: Route, prep: Prep, now: Time): Change
    requires !route.UserRole? && Fits(route, prep)
  {
    match route
    case AppCreate(f) => CreateApp(db, f, now)
    case AppUpdate(id, f) => UpdateApp(db, id, f, now)
    case AppDelete(id) => SoftDelete(db, Apps, id, now)
    case CategoryCreate(name, sortOrder) =>
      CreateRow(db, Categories, CategoryColumns(name, sortOrder), map["name" := Text(name)])
    case CategoryUpdate(id, name, sortOrder) =>
      UpdateRow(db, Categories, id, CategoryColumns(name, sortOrder), map["name" := Text(name)])
    case ReleaseCreate(f) =>
      CreateRow(db, Releases, ReleaseColumns(f, prep.first.value)["created_at" := Stamp(now)],
                map["version" := Text(f.version)])
    case ReleaseUpdate(id, f) =>
      UpdateRow(db, Releases, id, ReleaseColumns(f, prep.first.value), map["version" := Text(f.version)])
    case ReleaseDelete(id) => SoftDelete(db, Releases, id, now)
    case MediaUpload(appId, kind, caption, sortOrder, _) =>
      CreateRow(db, Media, MediaRow(appId, kind, caption, sortOrder, prep.result),
                map["filename" := Text(prep.result.filename)])
    case MediaDelete(id) => Change(Deleted(db, Media, id), id, Select(db, Media, id), None)
    case FileUpload(releaseId, platform, arch, _) =>
      CreateRow(db, Files, FileRow(releaseId, platform, arch, prep.result, now),
                map["filename" := Text(prep.result.filename)])
    case FileDelete(id) => SoftDelete(db, Files, id, now)
    case AnnouncementCreate(a) =>
      CreateRow(db, Announcements, AnnouncementColumns(a, prep.first, prep.second)["created_at" := Stamp(now)],
                map["title" := Text(a.title)])
    case AnnouncementUpdate(id, a) =>
      UpdateRow(db, Announcements, id, AnnouncementColumns(a, prep.first, prep.second),
                map["title" := Text(a.title)])
  }

  /** `SELECT * FROM users WHERE id = %s` as a snapshot: the timestamps are datetimes. */
  function UserSnapshot(row: UserRow): Row {
    map[
      "id" := Int(row.id),
      "email" := Text(row.email),
      "display_name" := if row.displayName.Some? then Text(row.displayName.value) else Null,
      "role" := Text(row.role),
      "created_at" := Stamp(row.createdAt),
      "last_login" := Stamp(row.lastLogin)]
  }

  function UserBefore(users: map<string, UserRow>, userId: int): Option<Row>
    requires IdsUnique(users)
  {
    var row := UserById(users, userId);
    if row.Some? then Some(UserSnapshot(row.value)) else None
  }

  /** The caller passes the role check. */
  predicate Admitted(who: Result<User>, route: Route) {
    who.Ok? && RequireRole(who.value, MinimumRole(route)) == Pass
  }

  /** What an admin route answers: the identity error, the role refusal,
      the preparation error, or the redirect. */
  function Answer(who: Result<User>, route: Route, prep: Result<Prep>, settings: Settings): (r: Result<string>)
    ensures r.Ok? <==> Admitted(who, route) && prep.Ok?
    ensures who.Ok? && !Admitted(who, route) ==> r == Err(Forbidden)
  {
    if who.Err? then Err(who.error)
    else if RequireRole(who.value, MinimumRole(route)).Fail? then Err(Forbidden)
    else if prep.Err? then Err(prep.error)
    else Ok(Location(route, settings))
  }

  lemma CreateRowKeepsInvariants(db: Db, t: Table, row: Row, after: Row)
    requires DbOk(db) && Typed(db)
    requires t == Files ==> FileRowOk(row)
    requires t == Media ==> MediaRowOk(row)
    ensures DbOk(CreateRow(db, t, row, after).db) && Typed(CreateRow(db, t, row, after).db)
  {
    InsertedIsFresh(db, t, row);
    InsertedKeepsTyped(db, t, row);
  }

  lemma CreateKeepsInvariants(db: Db, route: Route, prep: Prep, now: Time)
    requires IsCreate(route) && Fits(route, prep)
    requires DbOk(db) && Typed(db)
    ensures DbOk(Apply(db, route, prep, now).db) && Typed(Apply(db, route, prep, now).db)
  {
    match route {
      case AppCreate(f) =>
        var row := AppColumns(f, now)["created_at" := Stamp(now)];
        InsertedIsFresh(db, Apps, row);
        InsertedKeepsTyped(db, Apps, row);
      case CategoryCreate(name, sortOrder) =>
        CreateRowKeepsInvariants(db, Categories, CategoryColumns(name, sortOrder), map["name" := Text(name)]);
      case ReleaseCreate(f) =>
        CreateRowKeepsInvariants(db, Releases, ReleaseColumns(f, prep.first.value)["created_at" := Stamp(now)],
                                 map["version" := Text(f.version)]);
      case MediaUpload(appId, kind, caption, sortOrder, _) =>
        CreateRowKeepsInvariants(db, Media, MediaRow(appId, kind, caption, sortOrder, prep.result),
                                 map["filename" := Text(prep.result.filename)]);
      case FileUpload(releaseId, platform, arch, _) =>
        CreateRowKeepsInvariants(db, Files, FileRow(releaseId, platform, arch, prep.result, now),
                                 map["filename" := Text(prep.result.filename)]);
      case AnnouncementCreate(a) =>
        CreateRowKeepsInvariants(db, Announcements,
                                 AnnouncementColumns(a, prep.first, prep.second)["created_at" := Stamp(now)],
                                 map["title" := Text(a.title)]);
    }
  }

  lemma UpdateKeepsInvariants(db: Db, route: Route, prep: Prep, now: Time)
    requires !IsCreate(route) && !IsDelete(route) && !route.UserRole? && Fits(route, prep)
    requires DbOk(db) && Typed(db)
    ensures DbOk(Apply(db, route, prep, now).db) && Typed(Apply(db, route, prep, now).db)
  {
    match route {
      case AppUpdate(id, f) =>
        UpdatedKeepsInvariants(db, Apps, id, AppColumns(f, now));
      case CategoryUpdate(id, name, sortOrder) =>
        UpdatedKeepsInvariants(db, Categories, id, CategoryColumns(name, sortOrder));
      case ReleaseUpdate(id, f) =>
        UpdatedKeepsInvariants(db, Releases, id, ReleaseColumns(f, prep.first.value));
      case AnnouncementUpdate(id, a) =>
        UpdatedKeepsInvariants(db, Announcements, id, AnnouncementColumns(a, prep.first, prep.second));
    }
  }

  lemma DeleteKeepsInvariants(db: Db, route: Route, prep: Prep, now: Time)
    requires IsDelete(route) && Fits(route, prep)
    requires DbOk(db) && Typed(db)
    ensures DbOk(Apply(db, route, prep, now).db) && Typed(Apply(db, route, prep, now).db)
  {
    match route {
      case AppDelete(id) =>
        UpdatedKeepsInvariants(db, Apps, id, DeletedAt(now));
      case ReleaseDelete(id) =>
        UpdatedKeepsInvariants(db, Releases, id, DeletedAt(now));
      case MediaDelete(id) =>
        DeletedKeepsInvariants(db, Media, id);
      case FileDelete(id) =>
        UpdatedKeepsInvariants(db, Files, id, DeletedAt(now));
    }
  }

  /** The table invariants survive every cursor block. */
  lemma ApplyKeepsInvariants(db: Db, route: Route, prep: Prep, now: Time)
    requires !route.UserRole? && Fits(route, prep)
    requires DbOk(db) && Typed(db)
    ensures DbOk(Apply(db, route, prep, now).db) && Typed(Apply(db, route, prep, now).db)
  {
    if IsCreate(route) {
      CreateKeepsInvariants(db, route, prep, now);
    } else if IsDelete(route) {
      DeleteKeepsInvariants(db, route, prep, now);
    } else {
      UpdateKeepsInvariants(db, route, prep, now);
    }
  }

  const NotFound := HttpError(404, "Not Found")

  /** The row the download query finds: the file is live and so is its release. */
  function Downloadable(db: Db, fileId: int): (row: Option<Row>)
    requires Typed(db)
    ensures row.Some? ==> (Files, fileId) in db.rows && row.value == db.rows[(Files, fileId)]
    ensures row.Some? ==> FileRowOk(row.value) && Live(row.value)
  {
    if (Files, fileId) in db.rows then
      var f := db.rows[(Files, fileId)];
      var release := f["release_id"].i;
      if Live(f) && (Releases, release) in db.rows && Live(db.rows[(Releases, release)]) then Some(f)
      else None
    else None
  }

  /** `UPDATE files SET download_count = download_count + 1`, run only when
      the download query found the row. */
  function Counted(db: Db, fileId: int): Db
    requires Typed(db)
  {
    if Downloadable(db, fileId).Some? then
      var f := db.rows[(Files, fileId)];
      db.(rows := db.rows[(Files, fileId) := f["download_count" := Int(f["download_count"].i + 1)]])
    else db
  }

  /** The count bump keeps the table invariants. */
  lemma CountedKeepsInvariants(db: Db, fileId: int)
    requires DbOk(db) && Typed(db)
    ensures DbOk(Counted(db, fileId)) && Typed(Counted(db, fileId))
  {
  }

  /** `attachment; filename="<name>"`. */
  function Attachment(filename: string): string {
    "attachment; filename=\"" + filename + "\""
  }

  /** What `download_file` answers once the caller is known: 404 unless the
      query finds the row; 400 unless the stored path lies strictly below
      the storage root; otherwise the internal redirect and the attachment
      name. */
  function DownloadAnswer(db: Db, fileId: int, env: Env): (r: Result<map<string, string>>)
    requires Typed(db) && Canonical(env.cwd)
  {
    var row := Downloadable(db, fileId);
    if row.None? then Err(NotFound)
    else
      var target := InternalRedirect(env.settings.storageRoot, row.value["stored_path"].s, env.cwd);
      if target.Err? then Err(target.error)
      else Ok(map["x-accel-redirect" := target.value, "content-disposition" := Attachment(row.value["filename"].s)])
  }

  /** What `media_file` answers once the caller is known: 404 for a missing
      row (a media row has no `deleted_at` check), 400 outside the root,
      otherwise the internal redirect. */
  function MediaAnswer(db: Db, mediaId: int, env: Env): (r: Result<map<string, string>>)
    requires Typed(db) && Canonical(env.cwd)
  {
    if (Media, mediaId) !in db.rows then Err(NotFound)
    else
      var target := InternalRedirect(env.settings.storageRoot, db.rows[(Media, mediaId)]["stored_path"].s, env.cwd);
      if target.Err? then Err(target.error) else Ok(map["x-accel-redirect" := target.value])
  }

  /** The endpoints behind the middleware. */
  datatype Endpoint = Admin(route: Route) | DownloadFile(fileId: int) | MediaFile(mediaId: int)

  /** A response: status, headers, and the cookie set on it. */
  datatype Response = Response(status: nat, headers: map<string, string>, cookie: Option<SetCookie>)

  /** What an endpoint's handler yields against the state before the request,
      and the status of its success response. */
  function EndpointAnswer(users: map<string, UserRow>, nextId: int, db: Db, r: Request,
                          endpoint: Endpoint, env: Env): (Result<map<string, string>>, nat)
    requires Typed(db) && Canonical(env.cwd)
  {
    var who := Identify(users, nextId, r);
    match endpoint
    case Admin(route) =>
      var a := Answer(who, route, PrepOutcome(route, env), env.settings);
      (if a.Ok? then Ok(map["location" := a.value]) else Err(a.error), 303)
    case DownloadFile(fileId) =>
      (if who.Err? then Err(who.error) else DownloadAnswer(db, fileId, env), 200)
    case MediaFile(mediaId) =>
      (if who.Err? then Err(who.error) else MediaAnswer(db, mediaId, env), 200)
  }

  /** `call_next` then `set_csrf_cookie`: a handler's response (its success,
      or an `HTTPException` turned into a response) gets the cookie; an
      exception nobody handles becomes a bare 500 and no cookie is set. */
  function Responded(answer: (Result<map<string, string>>, nat), cookie: SetCookie): (resp: Response)
    ensures resp.cookie.None? <==> answer.0.Err? && answer.0.error.Unhandled?
    ensures resp.cookie.Some? ==> resp.cookie.value == cookie
    ensures answer.0.Ok? ==> resp.status == answer.1 && resp.headers == answer.0.value
    ensures answer.0.Err? ==> resp.headers == map[] &&
                              resp.status == if answer.0.error.HttpError? then answer.0.error.status else 500
  {
    match answer.0
    case Ok(headers) => Response(answer.1, headers, Some(cookie))
    case Err(HttpError(status, _)) => Response(status, map[], Some(cookie))
    case Err(Unhandled(_)) => Response(500, map[], None)
  }

  /** The response to a request refused by the CSRF check in the middleware:
      the exception escapes the exception handlers and becomes a 500. */
  const CsrfRefused := Response(500, map[], None)

  /** Everything a request can change: the users table and its id counter,
      the content tables, the audit log and the disk. */
  datatype World = World(users: map<string, UserRow>, nextId: int, db: Db, audit: seq<AuditRow>,
                         files: map<string, seq<byte>>, dirs: set<string>)

  /** The state after an admin route, in the source's order: the caller is
      identified (their row created or refreshed); a refused caller changes
      nothing more; the role route updates the row and logs it; a content
      route runs its preparation (uploads write to disk), and only when that
      succeeded runs its cursor block and logs one entry. */
  function AdminAfter(w: World, r: Request, route: Route, now: Time, env: Env): World
    requires TableOk(w.users, w.nextId)
  {
    var who := Identify(w.users, w.nextId, r);
    var users := UsersAfter(w.users, w.nextId, r, now);
    var identified := w.(users := users, nextId := NextIdAfter(w.users, w.nextId, r));
    if !Admitted(who, route) then identified
    else if route.UserRole? then
      IdentityKeepsTableOk(w.users, w.nextId, r, now);
      identified.(users := RoleSet(users, route.id, route.role),
                  audit := w.audit + [Entry(who.value, "update", "user", Some(route.id), UserBefore(users, route.id),
                                            Some(map["role" := Text(route.role)]), ClientIp(r), now, env.json)])
    else
      var prepared := identified.(files := PrepFiles(w.files, route, env), dirs := PrepDirs(w.dirs, route, env));
      var prep := PrepOutcome(route, env);
      if prep.Err? then prepared
      else
        var c := Apply(w.db, route, prep.value, now);
        prepared.(db := c.db,
                  audit := w.audit + [Entry(who.value, Action(route), EntityType(route), Some(c.entityId),
                                            c.before, c.after, ClientIp(r), now, env.json)])
  }

  /** The post-state `Handle` promises, clause by clause, is `AdminAfter`. */
  lemma AdminAfterOf(w0: World, w1: World, r: Request, route: Route, now: Time, env: Env)
    requires TableOk(w0.users, w0.nextId)
    requires var who := Identify(w0.users, w0.nextId, r);
             var users := UsersAfter(w0.users, w0.nextId, r, now);
             w1.nextId == NextIdAfter(w0.users, w0.nextId, r) &&
             w1.users == if Admitted(who, route) && route.UserRole? then RoleSet(users, route.id, route.role) else users
    requires var who := Identify(w0.users, w0.nextId, r);
             !Admitted(who, route) ==>
               w1.db == w0.db && w1.audit == w0.audit && w1.files == w0.files && w1.dirs == w0.dirs
    requires var who := Identify(w0.users, w0.nextId, r);
             Admitted(who, route) ==>
               w1.files == PrepFiles(w0.files, route, env) && w1.dirs == PrepDirs(w0.dirs, route, env)
    requires var who := Identify(w0.users, w0.nextId, r);
             Admitted(who, route) && PrepOutcome(route, env).Err? ==> w1.db == w0.db && w1.audit == w0.audit
    requires var who := Identify(w0.users, w0.nextId, r);
             var prep := PrepOutcome(route, env);
             Admitted(who, route) && prep.Ok? && !route.UserRole? ==>
               var c := Apply(w0.db, route, prep.value, now);
               w1.db == c.db &&
               w1.audit == w0.audit + [Entry(who.value, Action(route), EntityType(route), Some(c.entityId),
                                             c.before, c.after, ClientIp(r), now, env.json)]
    requires var who := Identify(w0.users, w0.nextId, r);
             var users := UsersAfter(w0.users, w0.nextId, r, now);
             Admitted(who, route) && route.UserRole? ==>
               IdsUnique(users) && w1.db == w0.db &&
               w1.audit == w0.audit + [Entry(who.value, "update", "user", Some(route.id),
                                             UserBefore(users, route.id),
                                             Some(map["role" := Text(route.role)]), ClientIp(r), now, env.json)]
    ensures w1 == AdminAfter(w0, r, route, now, env)
  {
  }

  /** The state after an endpoint's handler: admin routes as `AdminAfter`;
      a download identifies the caller and, once identified, counts the
      download; a media request only identifies the caller. */
  function EndpointAfter(w: World, r: Request, endpoint: Endpoint, now: Time, env: Env): World
    requires TableOk(w.users, w.nextId) && Typed(w.db)
  {
    var identified := w.(users := UsersAfter(w.users, w.nextId, r, now), nextId := NextIdAfter(w.users, w.nextId, r));
    match endpoint
    case Admin(route) => AdminAfter(w, r, route, now, env)
    case DownloadFile(fileId) =>
      identified.(db := if Identify(w.users, w.nextId, r).Ok? then Counted(w.db, fileId) else w.db)
    case MediaFile(_) => identified
  }

  /** The portal's state: the users table, the audit log, the disk, and the
      content tables. */
  class Portal {
    const store: UserStore
    const log: AuditLog
    const fs: FileSystem
    var db: Db

    ghost predicate Valid()
      reads this, store
    {
      store.Valid() && DbOk(db) && Typed(db)
    }

    constructor ()
      ensures Valid() && fresh(store) && fresh(log) && fresh(fs)
      ensures db == Empty && store.users == map[] && log.rows == [] && fs.files == map[]
    {
      store := new UserStore();
      log := new AuditLog();
      fs := new FileSystem();
      db := Empty;
    }

    /** The whole state the portal's methods change. */
    function Snapshot(): World
      reads this, store, log, fs
    {
      World(store.users, store.nextId, db, log.rows, fs.files, fs.dirs)
    }

    /** `INSERT INTO t ... RETURNING id`, then `fetchone()["id"]`. */
    method Insert(t: Table, row: Row) returns (id: int)
      modifies this
      ensures id == old(db.nextId) && db == Inserted(old(db), t, row)
    {
      id := db.nextId;
      db := db.(rows := db.rows[(t, id) := row["id" := Int(id)]], nextId := id + 1);
    }

    /** `UPDATE t SET <columns> WHERE id = %s`. */
    method Update(t: Table, id: int, columns: Row)
      modifies this
      ensures db == Updated(old(db), t, id, columns)
    {
      if (t, id) in db.rows {
        db := db.(rows := db.rows[(t, id) := db.rows[(t, id)] + columns]);
      }
    }

    /** `DELETE FROM t WHERE id = %s`. */
    method Delete(t: Table, id: int)
      modifies this
      ensures db == Deleted(old(db), t, id)
    {
      db := db.(rows := db.rows - {(t, id)});
    }

    /** `DELETE FROM app_categories WHERE app_id = %s`. */
    method Unlink(appId: int)
      modifies this
      ensures db == Unlinked(old(db), appId)
    {
      db := db.(links := set p | p in db.links && p.0 != appId);
    }

    /** The loop inserting one `app_categories` pair per selected category. */
    method LinkCategories(appId: int, categories: seq<int>)
      modifies this
      ensures db == Linked(old(db), appId, categories)
    {
      var i := 0;
      while i < |categories|
        invariant 0 <= i <= |categories|
        invariant db == old(db).(links := old(db).links + Pairs(appId, categories[..i]))
      {
        assert Pairs(appId, categories[..i + 1]) == Pairs(appId, categories[..i]) + {(appId, categories[i])} by {
          assert categories[..i + 1][i] == categories[i];
          assert forall j :: 0 <= j < i ==> categories[..i + 1][j] == categories[..i][j];
        }
        db := db.(links := db.links + {(appId, categories[i])});
        i := i + 1;
      }
      assert categories[..i] == categories;
    }

    /** The cursor block of a content route, statement by statement. */
    method Mutate(route: Route, prep: Prep, now: Time) returns (entityId: int, before: Option<Row>, after: Option<Row>)
      requires !route.UserRole? && Fits(route, prep)
      modifies this
      ensures Apply(old(db), route, prep, now) == Change(db, entityId, before, after)
    {
      match route
      case AppCreate(f) =>
        entityId := Insert(Apps, AppColumns(f, now)["created_at" := Stamp(now)]);
        LinkCategories(entityId, f.categories);
        before, after := None, Some(map["name" := Text(f.name), "slug" := Text(Slugify(f.name))]);
      case AppUpdate(id, f) =>
        before := Select(db, Apps, id);
        Update(Apps, id, AppColumns(f, now));
        Unlink(id);
        LinkCategories(id, f.categories);
        entityId, after := id, Some(map["name" := Text(f.name), "slug" := Text(Slugify(f.name))]);
      case AppDelete(id) =>
        before := Select(db, Apps, id);
        Update(Apps, id, DeletedAt(now));
        entityId, after := id, None;
      case CategoryCreate(name, sortOrder) =>
        entityId := Insert(Categories, CategoryColumns(name, sortOrder));
        before, after := None, Some(map["name" := Text(name)]);
      case CategoryUpdate(id, name, sortOrder) =>
        before := Select(db, Categories, id);
        Update(Categories, id, CategoryColumns(name, sortOrder));
        entityId, after := id, Some(map["name" := Text(name)]);
      case ReleaseCreate(f) =>
        entityId := Insert(Releases, ReleaseColumns(f, prep.first.value)["created_at" := Stamp(now)]);
        before, after := None, Some(map["version" := Text(f.version)]);
      case ReleaseUpdate(id, f) =>
        before := Select(db, Releases, id);
        Update(Releases, id, ReleaseColumns(f, prep.first.value));
        entityId, after := id, Some(map["version" := Text(f.version)]);
      case ReleaseDelete(id) =>
        before := Select(db, Releases, id);
        Update(Releases, id, DeletedAt(now));
        entityId, after := id, None;
      case MediaUpload(appId, kind, caption, sortOrder, _) =>
        entityId := Insert(Media, MediaRow(appId, kind, caption, sortOrder, prep.result));
        before, after := None, Some(map["filename" := Text(prep.result.filename)]);
      case MediaDelete(id) =>
        before := Select(db, Media, id);
        Delete(Media, id);
        entityId, after := id, None;
      case FileUpload(releaseId, platform, arch, _) =>
        entityId := Insert(Files, FileRow(releaseId, platform, arch, prep.result, now));
        before, after := None, Some(map["filename" := Text(prep.result.filename)]);
      case FileDelete(id) =>
        before := Select(db, Files, id);
        Update(Files, id, DeletedAt(now));
        entityId, after := id, None;
      case AnnouncementCreate(a) =>
        entityId := Insert(Announcements, AnnouncementColumns(a, prep.first, prep.second)["created_at" := Stamp(now)]);
        before, after := None, Some(map["title" := Text(a.title)]);
      case AnnouncementUpdate(id, a) =>
        before := Select(db, Announcements, id);
        Update(Announcements, id, AnnouncementColumns(a, prep.first, prep.second));
        entityId, after := id, Some(map["title" := Text(a.title)]);
    }

    /** The preparation step: parse the dates, or run `save_upload`. */
    method Prepare(route: Route, env: Env) returns (p: Result<Prep>)
      modifies fs
      ensures p == PrepOutcome(route, env)
      ensures fs.files == PrepFiles(old(fs.files), route, env)
      ensures fs.dirs == PrepDirs(old(fs.dirs), route, env)
    {
      if IsUpload(route) {
        var s := env.settings;
        UploadPrepIsStored(route, env);
        var saved := SaveUpload(fs, route.upload, UploadDirOf(route, s), AllowedOf(route, s), s.maxUploadMb,
                                s.clamavEnabled, env.oracles);
        if saved.Err? {
          return Err(saved.error);
        }
        return Ok(Stored(saved.value));
      }
      return PrepOutcome(route, env);
    }

    /** An admin route of main.py: `get_identity`, `require_role`, the
        preparation step, the cursor block, then exactly one `log_action`.
        A refused caller changes nothing but the users table; a failed
        preparation inserts no row and writes no audit entry. */
    method Handle(r: Request, route: Route, now: Time, env: Env) returns (res: Result<string>)
      requires Valid()
      modifies this, store, log, fs
      ensures Valid()
      ensures var who := Identify(old(store.users), old(store.nextId), r);
              res == Answer(who, route, PrepOutcome(route, env), env.settings)
      ensures var who := Identify(old(store.users), old(store.nextId), r);
              var users := UsersAfter(old(store.users), old(store.nextId), r, now);
              store.nextId == NextIdAfter(old(store.users), old(store.nextId), r) &&
              store.users == if Admitted(who, route) && route.UserRole? then RoleSet(users, route.id, route.role) else users
      ensures var who := Identify(old(store.users), old(store.nextId), r);
              !Admitted(who, route) ==>
                db == old(db) && log.rows == old(log.rows) && fs.files == old(fs.files) && fs.dirs == old(fs.dirs)
      ensures var who := Identify(old(store.users), old(store.nextId), r);
              Admitted(who, route) ==>
                fs.files == PrepFiles(old(fs.files), route, env) && fs.dirs == PrepDirs(old(fs.dirs), route, env)
      ensures var who := Identify(old(store.users), old(store.nextId), r);
              Admitted(who, route) && PrepOutcome(route, env).Err? ==> db == old(db) && log.rows == old(log.rows)
      ensures var who := Identify(old(store.users), old(store.nextId), r);
              var prep := PrepOutcome(route, env);
              Admitted(who, route) && prep.Ok? && !route.UserRole? ==>
                var c := Apply(old(db), route, prep.value, now);
                db == c.db &&
                log.rows == old(log.rows) + [Entry(who.value, Action(route), EntityType(route), Some(c.entityId),
                                                   c.before, c.after, ClientIp(r), now, env.json)]
      ensures var who := Identify(old(store.users), old(store.nextId), r);
              var users := UsersAfter(old(store.users), old(store.nextId), r, now);
              Admitted(who, route) && route.UserRole? ==>
                IdsUnique(users) && db == old(db) &&
                log.rows == old(log.rows) + [Entry(who.value, "update", "user", Some(route.id),
                                                   UserBefore(users, route.id),
                                                   Some(map["role" := Text(route.role)]), ClientIp(r), now, env.json)]
    {
      var who := store.GetIdentity(r, now);
      if who.Err? {
        return Err(who.error);
      }
      var user := who.value;
      var allowed := RequireRole(user, MinimumRole(route));
      if allowed.Fail? {
        return Err(allowed.error);
      }
      if route.UserRole? {
        ChangeRole(user, route.id, route.role, ClientIp(r), now, env.json);
        return Ok(Location(route, env.settings));
      }
      res := Commit(user, route, ClientIp(r), now, env);
    }

    /** The role route after the role check: the user row as it was, the
        update, then the audit row. */
    method ChangeRole(user: User, userId: int, role: string, ip: Option<string>, now: Time, json: Json)
      requires store.Valid()
      modifies store, log
      ensures store.Valid() && IdsUnique(old(store.users))
      ensures store.users == RoleSet(old(store.users), userId, role) && store.nextId == old(store.nextId)
      ensures log.rows == old(log.rows) + [Entry(user, "update", "user", Some(userId),
                                                 UserBefore(old(store.users), userId),
                                                 Some(map["role" := Text(role)]), ip, now, json)]
    {
      var before := UserBefore(store.users, userId);
      store.SetRole(userId, role);
      log.LogAction(user, "update", "user", Some(userId), before, Some(map["role" := Text(role)]), ip, now, json);
    }

    /** A content route after the role check: the preparation step, then,
        when it succeeded, the cursor block and one audit row. */
    method Commit(user: User, route: Route, ip: Option<string>, now: Time, env: Env) returns (res: Result<string>)
      requires Valid() && !route.UserRole?
      modifies this, log, fs
      ensures Valid()
      ensures var prep := PrepOutcome(route, env);
              res == if prep.Err? then Err(prep.error) else Ok(Location(route, env.settings))
      ensures fs.files == PrepFiles(old(fs.files), route, env) && fs.dirs == PrepDirs(old(fs.dirs), route, env)
      ensures PrepOutcome(route, env).Err? ==> db == old(db) && log.rows == old(log.rows)
      ensures var prep := PrepOutcome(route, env);
              prep.Ok? ==>
                var c := Apply(old(db), route, prep.value, now);
                db == c.db &&
                log.rows == old(log.rows) + [Entry(user, Action(route), EntityType(route), Some(c.entityId),
                                                   c.before, c.after, ip, now, env.json)]
    {
      var prep := Prepare(route, env);
      if prep.Err? {
        return Err(prep.error);
      }
      ghost var db0 := db;
      var entityId, before, after := Mutate(route, prep.value, now);
      ApplyKeepsInvariants(db0, route, prep.value, now);
      log.LogAction(user, Action(route), EntityType(route), Some(entityId), before, after, ip, now, env.json);
      return Ok(Location(route, env.settings));
    }

    /** `download_file`: identify the caller, find the row, count the
        download (committed even when the path check then fails), check
        the path and redirect. */
    method Download(r: Request, fileId: int, now: Time, env: Env) returns (res: Result<map<string, string>>)
      requires Valid() && Canonical(env.cwd)
      modifies this, store
      ensures Valid()
      ensures store.users == UsersAfter(old(store.users), old(store.nextId), r, now)
      ensures store.nextId == NextIdAfter(old(store.users), old(store.nextId), r)
      ensures var who := Identify(old(store.users), old(store.nextId), r);
              (who.Err? ==> res == Err(who.error) && db == old(db)) &&
              (who.Ok? ==> res == DownloadAnswer(old(db), fileId, env) && db == Counted(old(db), fileId))
    {
      var who := store.GetIdentity(r, now);
      if who.Err? {
        return Err(who.error);
      }
      var row := Downloadable(db, fileId);
      if row.None? {
        return Err(NotFound);
      }
      CountedKeepsInvariants(db, fileId);
      db := Counted(db, fileId);
      var target := InternalRedirect(env.settings.storageRoot, row.value["stored_path"].s, env.cwd);
      if target.Err? {
        return Err(target.error);
      }
      return Ok(map["x-accel-redirect" := target.value, "content-disposition" := Attachment(row.value["filename"].s)]);
    }

    /** `media_file`: identify the caller, find the row, check the path and
        redirect. Nothing but the users table changes. */
    method ServeMedia(r: Request, mediaId: int, now: Time, env: Env) returns (res: Result<map<string, string>>)
      requires Valid() && Canonical(env.cwd)
      modifies store
      ensures Valid()
      ensures store.users == UsersAfter(old(store.users), old(store.nextId), r, now)
      ensures store.nextId == NextIdAfter(old(store.users), old(store.nextId), r)
      ensures var who := Identify(old(store.users), old(store.nextId), r);
              res == if who.Err? then Err(who.error) else MediaAnswer(db, mediaId, env)
    {
      var who := store.GetIdentity(r, now);
      if who.Err? {
        return Err(who.error);
      }
      if (Media, mediaId) !in db.rows {
        return Err(NotFound);
      }
      var target := InternalRedirect(env.settings.storageRoot, db.rows[(Media, mediaId)]["stored_path"].s, env.cwd);
      if target.Err? {
        return Err(target.error);
      }
      return Ok(map["x-accel-redirect" := target.value]);
    }

    /** `csrf_middleware`: outside GET, HEAD and OPTIONS the CSRF check runs
        before the handler, and a refusal leaves every table and the disk
        untouched; otherwise the handler runs and its response carries the
        CSRF cookie, the one the client sent or a newly issued one. */
    method Serve(r: Request, endpoint: Endpoint, now: Time, issued: string, env: Env) returns (resp: Response)
      requires Valid() && Canonical(env.cwd)
      modifies this, store, log, fs
      ensures Valid()
      ensures ValidateCsrf(r).Fail? ==>
                resp == CsrfRefused &&
                store.users == old(store.users) && store.nextId == old(store.nextId) &&
                db == old(db) && log.rows == old(log.rows) && fs.files == old(fs.files) && fs.dirs == old(fs.dirs)
      ensures ValidateCsrf(r) == Pass ==>
                resp == Responded(EndpointAnswer(old(store.users), old(store.nextId), old(db), r, endpoint, env),
                                   CsrfCookie(CsrfToken(r, issued)))
      ensures ValidateCsrf(r) == Pass ==> Snapshot() == EndpointAfter(old(Snapshot()), r, endpoint, now, env)
    {
      if !IsSafeMethod(r.verb) {
        var check := ValidateCsrf(r);
        if check.Fail? {
          return CsrfRefused;
        }
      }
      ghost var answer := EndpointAnswer(store.users, store.nextId, db, r, endpoint, env);
      ghost var w0 := Snapshot();
      var res: Result<map<string, string>>;
      var success: nat;
      match endpoint {
        case Admin(route) =>
          var a := Handle(r, route, now, env);
          AdminAfterOf(w0, Snapshot(), r, route, now, env);
          res, success := if a.Ok? then Ok(map["location" := a.value]) else Err(a.error), 303;
        case DownloadFile(fileId) =>
          res := Download(r, fileId, now, env);
          success := 200;
        case MediaFile(mediaId) =>
          res := ServeMedia(r, mediaId, now, env);
          success := 200;
      }
      assert (res, success) == answer;
      var token := CsrfToken(r, issued);
      resp := Responded((res, success), CsrfCookie(token));
    }
  }
}
