/** What the admin and serving routes of apphub/app/main.py promise together:
    which rows a cursor block touches, what a delete leaves behind, that an
    uploaded file can be downloaded again, and that the audit trail as
    written loses the entry of an update. */
module RouteLemmas {
  import opened Text
  import opened Http
  import opened Auth
  import opened Rbac
  import opened Paths
  import opened Encoding
  import opened Config
  import opened Uploads
  import opened Audit
  import opened Database
  import opened Routes

  /** A create inserts exactly one row, in its own table, under an id no row
      had, keeps every other row, and records no before snapshot. */
  lemma CreateAddsOneRow(db: Db, route: Route, prep: Prep, now: Time)
    requires IsCreate(route) && Fits(route, prep) && DbOk(db)
    ensures var c := Apply(db, route, prep, now);
            c.entityId == db.nextId && c.before.None? && c.after.Some? &&
            (TableOf(route), c.entityId) !in db.rows &&
            c.db.rows.Keys == db.rows.Keys + {(TableOf(route), c.entityId)} &&
            (forall k :: k in db.rows ==> c.db.rows[k] == db.rows[k]) &&
            c.db.nextId == db.nextId + 1
  {
    var row := match route
      case AppCreate(f) => AppColumns(f, now)["created_at" := Stamp(now)]
      case CategoryCreate(name, sortOrder) => CategoryColumns(name, sortOrder)
      case ReleaseCreate(f) => ReleaseColumns(f, prep.first.value)["created_at" := Stamp(now)]
      case MediaUpload(appId, kind, caption, sortOrder, _) => MediaRow(appId, kind, caption, sortOrder, prep.result)
      case FileUpload(releaseId, platform, arch, _) => FileRow(releaseId, platform, arch, prep.result, now)
      case AnnouncementCreate(a) => AnnouncementColumns(a, prep.first, prep.second)["created_at" := Stamp(now)];
    InsertedIsFresh(db, TableOf(route), row);
  }

  /** The row a non-create content route names. */
  function TargetId(route: Route): int
    requires !IsCreate(route) && !route.UserRole?
  {
    match route
    case AppUpdate(id, _) => id
    case AppDelete(id) => id
    case CategoryUpdate(id, _, _) => id
    case ReleaseUpdate(id, _) => id
    case ReleaseDelete(id) => id
    case MediaDelete(id) => id
    case FileDelete(id) => id
    case AnnouncementUpdate(id, _) => id
  }

  /** An update or delete of a row that does not exist is no error: no row
      changes, the audit row names the path's id, and its before snapshot
      is empty. */
  lemma MissingRowChangesNoRow(db: Db, route: Route, prep: Prep, now: Time)
    requires !IsCreate(route) && !route.UserRole? && Fits(route, prep)
    requires (TableOf(route), TargetId(route)) !in db.rows
    ensures var c := Apply(db, route, prep, now);
            c.db.rows == db.rows && c.db.nextId == db.nextId &&
            c.entityId == TargetId(route) && c.before.None?
  {
  }

  /** A delete of an existing row records it as the before snapshot. Media
      rows disappear; app, release and file rows stay with `deleted_at` set,
      so they are no longer live. */
  lemma DeleteSoftUnlessMedia(db: Db, route: Route, prep: Prep, now: Time)
    requires IsDelete(route) && Fits(route, prep)
    requires (TableOf(route), TargetId(route)) in db.rows
    ensures var c := Apply(db, route, prep, now);
            var key := (TableOf(route), TargetId(route));
            c.before == Some(db.rows[key]) && c.after.None? &&
            (route.MediaDelete? ==> key !in c.db.rows) &&
            (!route.MediaDelete? ==> key in c.db.rows && !Live(c.db.rows[key]) &&
                                     c.db.rows[key] == db.rows[key]["deleted_at" := Stamp(now)])
  {
  }

  /** Rows outside table `t` are the same in `before` and `after`. */
  ghost predicate OtherTablesKept(before: Db, after: Db, t: Table) {
    forall k: (Table, int) :: k.0 != t ==>
      (k in after.rows <==> k in before.rows) && (k in before.rows ==> after.rows[k] == before.rows[k])
  }

  lemma CreateOnlyItsTable(db: Db, route: Route, prep: Prep, now: Time)
    requires IsCreate(route) && Fits(route, prep)
    ensures OtherTablesKept(db, Apply(db, route, prep, now).db, TableOf(route))
  {
  }

  lemma UpdatedOnlyItsTable(db: Db, t: Table, id: int, columns: Row)
    ensures OtherTablesKept(db, Updated(db, t, id, columns), t)
  {
  }

  lemma UpdateOnlyItsTable(db: Db, route: Route, prep: Prep, now: Time)
    requires !IsCreate(route) && !IsDelete(route) && !route.UserRole? && Fits(route, prep)
    ensures OtherTablesKept(db, Apply(db, route, prep, now).db, TableOf(route))
  {
    match route {
      case AppUpdate(id, f) =>
        var updated := Updated(db, Apps, id, AppColumns(f, now));
        UpdatedOnlyItsTable(db, Apps, id, AppColumns(f, now));
        assert Apply(db, route, prep, now).db.rows == updated.rows;
      case CategoryUpdate(id, name, sortOrder) =>
        UpdatedOnlyItsTable(db, Categories, id, CategoryColumns(name, sortOrder));
      case ReleaseUpdate(id, f) =>
        UpdatedOnlyItsTable(db, Releases, id, ReleaseColumns(f, prep.first.value));
      case AnnouncementUpdate(id, a) =>
        UpdatedOnlyItsTable(db, Announcements, id, AnnouncementColumns(a, prep.first, prep.second));
    }
  }

  lemma DeleteOnlyItsTable(db: Db, route: Route, prep: Prep, now: Time)
    requires IsDelete(route) && Fits(route, prep)
    ensures OtherTablesKept(db, Apply(db, route, prep, now).db, TableOf(route))
  {
  }

  /** A cursor block touches no row of another table, and only the app
      routes touch the category links. */
  lemma OnlyItsTable(db: Db, route: Route, prep: Prep, now: Time)
    requires !route.UserRole? && Fits(route, prep)
    ensures OtherTablesKept(db, Apply(db, route, prep, now).db, TableOf(route))
    ensures !(route.AppCreate? || route.AppUpdate?) ==> Apply(db, route, prep, now).db.links == db.links
  {
    if IsCreate(route) {
      CreateOnlyItsTable(db, route, prep, now);
    } else if IsDelete(route) {
      DeleteOnlyItsTable(db, route, prep, now);
    } else {
      UpdateOnlyItsTable(db, route, prep, now);
    }
  }

  /** After an app update the app is linked to exactly the submitted
      categories, and every other app keeps its links. */
  lemma AppUpdateReplacesCategories(db: Db, id: int, f: AppForm, prep: Prep, now: Time, other: int)
    requires other != id
    ensures var links := Apply(db, AppUpdate(id, f), prep, now).db.links;
            CategoriesOf(links, id) == (set i | 0 <= i < |f.categories| :: f.categories[i]) &&
            CategoriesOf(links, other) == CategoriesOf(db.links, other)
  {
    var updated := Updated(db, Apps, id, AppColumns(f, now));
    RelinkReplaces(updated, id, f.categories, other);
  }

  /** The cursor block of an app, release or file delete sets `deleted_at`. */
  lemma ApplySoftDelete(db: Db, route: Route, prep: Prep, now: Time)
    requires route.AppDelete? || route.ReleaseDelete? || route.FileDelete?
    ensures Apply(db, route, prep, now).db == Updated(db, TableOf(route), route.id, DeletedAt(now))
  {
  }

  /** A soft-deleted row is no longer live. */
  lemma SoftDeletedNotLive(db: Db, t: Table, id: int, now: Time)
    requires (t, id) in db.rows
    ensures !Live(Updated(db, t, id, DeletedAt(now)).rows[(t, id)])
  {
    assert (db.rows[(t, id)] + DeletedAt(now))["deleted_at"] == Stamp(now);
  }

  /** A file the download query does not find is answered with 404. */
  lemma HiddenFileNotFound(db: Db, fileId: int, env: Env)
    requires Typed(db) && Canonical(env.cwd) && Downloadable(db, fileId).None?
    ensures DownloadAnswer(db, fileId, env) == Err(NotFound)
  {
  }

  /** A soft-deleted file is not found by the download query. */
  lemma SoftDeletedFileHidden(db: Db, id: int, now: Time)
    requires Typed(db) && DbOk(db)
    ensures Typed(Updated(db, Files, id, DeletedAt(now)))
    ensures Downloadable(Updated(db, Files, id, DeletedAt(now)), id).None?
  {
    UpdatedKeepsInvariants(db, Files, id, DeletedAt(now));
    if (Files, id) in db.rows {
      SoftDeletedNotLive(db, Files, id, now);
    }
  }

  /** Deleting a file makes its download answer 404. */
  lemma DeletedFileNotFound(db: Db, id: int, prep: Prep, now: Time, env: Env)
    requires Typed(db) && DbOk(db) && Canonical(env.cwd)
    ensures var after := Apply(db, FileDelete(id), prep, now).db;
            Typed(after) && DownloadAnswer(after, id, env) == Err(NotFound)
  {
    var after := Updated(db, Files, id, DeletedAt(now));
    ApplySoftDelete(db, FileDelete(id), prep, now);
    assert Apply(db, FileDelete(id), prep, now).db == after;
    SoftDeletedFileHidden(db, id, now);
    HiddenFileNotFound(after, id, env);
  }

  /** Deleting a release makes the download of each of its files answer 404,
      although the file rows stay live. */
  lemma DeletedReleaseHidesFiles(db: Db, releaseId: int, fileId: int, prep: Prep, now: Time, env: Env)
    requires Typed(db) && DbOk(db) && Canonical(env.cwd)
    requires (Files, fileId) in db.rows && db.rows[(Files, fileId)]["release_id"] == Int(releaseId)
    ensures var after := Apply(db, ReleaseDelete(releaseId), prep, now).db;
            Typed(after) && DownloadAnswer(after, fileId, env) == Err(NotFound) &&
            after.rows[(Files, fileId)] == db.rows[(Files, fileId)]
  {
    var after := Updated(db, Releases, releaseId, DeletedAt(now));
    ApplySoftDelete(db, ReleaseDelete(releaseId), prep, now);
    assert Apply(db, ReleaseDelete(releaseId), prep, now).db == after;
    UpdatedKeepsInvariants(db, Releases, releaseId, DeletedAt(now));
    if (Releases, releaseId) in db.rows {
      SoftDeletedNotLive(db, Releases, releaseId, now);
    }
    assert Downloadable(after, fileId).None?;
    HiddenFileNotFound(after, fileId, env);
  }

  /** The download is counted as soon as the row is found, also when the
      stored path then fails the containment check and the answer is 400. */
  lemma RejectedPathStillCounted(db: Db, fileId: int, env: Env)
    requires Typed(db) && Canonical(env.cwd)
    requires Downloadable(db, fileId).Some?
    requires !StrictlyUnder(Resolve(env.settings.storageRoot, env.cwd),
                            Resolve(db.rows[(Files, fileId)]["stored_path"].s, env.cwd))
    ensures DownloadAnswer(db, fileId, env) == Err(InvalidPath)
    ensures var before := db.rows[(Files, fileId)]["download_count"].i;
            Counted(db, fileId).rows[(Files, fileId)]["download_count"] == Int(before + 1)
  {
  }

  /** Only the count of that file changes. */
  lemma CountedOnlyThatFile(db: Db, fileId: int, k: (Table, int))
    requires Typed(db) && k != (Files, fileId)
    ensures (k in Counted(db, fileId).rows <==> k in db.rows)
    ensures k in db.rows ==> Counted(db, fileId).rows[k] == db.rows[k]
    ensures Counted(db, fileId).links == db.links && Counted(db, fileId).nextId == db.nextId
  {
  }

  /** `Path(storage_root) / "files"` for an absolute canonical root. */
  lemma FilesDirectory(settings: Settings, rootParts: seq<string>)
    requires Canonical(rootParts)
    requires settings.storageRoot == PathText(Path(true, rootParts))
    ensures UploadDir(settings, "files") == Path(true, rootParts + ["files"])
  {
    PathTextRoundTrip(Path(true, rootParts));
    SplitNoSep("files", '/');
    assert !StartsWith("files", "/");
  }

  /** A plain name directly in the `files` directory below the root passes
      the containment check. */
  lemma FilesEntryAccepted(rootParts: seq<string>, name: string, cwd: seq<string>)
    requires Canonical(cwd) && Canonical(rootParts)
    requires IsPart(name) && name != ".."
    ensures InternalRedirect(PathText(Path(true, rootParts)), PathText(Path(true, rootParts + ["files"] + [name])), cwd)
              == Ok(InternalPrefix + "files/" + name)
  {
    var rel := ["files", name];
    assert rootParts + ["files"] + [name] == rootParts + rel;
    StoredUnderRootAccepted(rootParts, rel, cwd);
    assert rel[1..] == [name];
    calc {
      InternalPrefix + Join(rel, '/');
      InternalPrefix + ("files" + ['/'] + name);
      { assert "files" + ['/'] == "files/"; }
      InternalPrefix + "files/" + name;
    }
  }

  /** A file stored by the upload route under an absolute canonical storage
      root passes the containment check, and the redirect is
      `files/<stored name>` below the internal location. */
  lemma StoredFileRedirect(settings: Settings, rootParts: seq<string>, digest: seq<byte> -> Digest,
                           filename: string, cwd: seq<string>)
    requires Canonical(cwd) && Canonical(rootParts)
    requires settings.storageRoot == PathText(Path(true, rootParts))
    ensures InternalRedirect(settings.storageRoot, StoredPath(UploadDir(settings, "files"), digest, filename), cwd)
              == Ok(InternalPrefix + "files/" + StoredName(digest, Basename(filename)))
  {
    FilesDirectory(settings, rootParts);
    DestinationIsChild(UploadDir(settings, "files"), digest, filename);
    FilesEntryAccepted(rootParts, StoredName(digest, Basename(filename)), cwd);
  }

  /** What a successful file upload stores: the client's base name, and the
      destination in the `files` directory. */
  lemma FileUploadResult(releaseId: int, platform: string, arch: string, up: Upload, env: Env)
    requires PrepOutcome(FileUpload(releaseId, platform, arch, up), env).Ok?
    ensures var res := PrepOutcome(FileUpload(releaseId, platform, arch, up), env).value;
            res.Stored? && res.result.filename == Basename(up.filename) &&
            res.result.storedPath == StoredPath(UploadDir(env.settings, "files"), env.oracles.digest, up.filename)
  {
    UploadPrepIsStored(FileUpload(releaseId, platform, arch, up), env);
  }

  /** A file row inserted under a live release is found by the download
      query. */
  lemma InsertedFileFound(db: Db, releaseId: int, platform: string, arch: string, res: UploadResult, now: Time)
    requires DbOk(db) && Typed(db)
    requires (Releases, releaseId) in db.rows && Live(db.rows[(Releases, releaseId)])
    ensures var after := Inserted(db, Files, FileRow(releaseId, platform, arch, res, now));
            Typed(after) && Downloadable(after, db.nextId).Some? &&
            Downloadable(after, db.nextId).value["stored_path"] == Text(res.storedPath) &&
            Downloadable(after, db.nextId).value["filename"] == Text(res.filename)
  {
    var row := FileRow(releaseId, platform, arch, res, now);
    InsertedIsFresh(db, Files, row);
    InsertedKeepsTyped(db, Files, row);
    var after := Inserted(db, Files, row);
    var r := after.rows[(Files, db.nextId)];
    assert r == row["id" := Int(db.nextId)];
    assert r["release_id"] == Int(releaseId) && Live(r);
    assert after.rows[(Releases, releaseId)] == db.rows[(Releases, releaseId)];
  }

  /** A file the download query finds, whose stored path passes the
      containment check, is answered with the redirect and its name. */
  lemma FoundFileAnswer(db: Db, fileId: int, env: Env)
    requires Typed(db) && Canonical(env.cwd) && Downloadable(db, fileId).Some?
    ensures var row := Downloadable(db, fileId).value;
            var target := InternalRedirect(env.settings.storageRoot, row["stored_path"].s, env.cwd);
            target.Ok? ==>
              DownloadAnswer(db, fileId, env)
                == Ok(map["x-accel-redirect" := target.value, "content-disposition" := Attachment(row["filename"].s)])
  {
  }

  /** The cursor block of a file upload inserts the file row. */
  lemma ApplyFileUpload(db: Db, releaseId: int, platform: string, arch: string, up: Upload,
                        res: UploadResult, now: Time)
    ensures Apply(db, FileUpload(releaseId, platform, arch, up), Stored(res), now).db
              == Inserted(db, Files, FileRow(releaseId, platform, arch, res, now))
  {
  }

  /** An uploaded release file can be downloaded: when the storage root is an
      absolute canonical path and the release is live, the new file row
      answers the internal redirect to `files/<stored name>` and the
      attachment name is the client's base name. */
  lemma UploadedFileServable(db: Db, releaseId: int, platform: string, arch: string, up: Upload,
                             now: Time, env: Env, rootParts: seq<string>)
    requires DbOk(db) && Typed(db) && Canonical(env.cwd) && Canonical(rootParts)
    requires env.settings.storageRoot == PathText(Path(true, rootParts))
    requires (Releases, releaseId) in db.rows && Live(db.rows[(Releases, releaseId)])
    requires PrepOutcome(FileUpload(releaseId, platform, arch, up), env).Ok?
    ensures var route := FileUpload(releaseId, platform, arch, up);
            var after := Apply(db, route, PrepOutcome(route, env).value, now).db;
            var name := StoredName(env.oracles.digest, Basename(up.filename));
            Typed(after) &&
            DownloadAnswer(after, db.nextId, env)
              == Ok(map["x-accel-redirect" := InternalPrefix + "files/" + name,
                        "content-disposition" := Attachment(Basename(up.filename))])
  {
    FileUploadResult(releaseId, platform, arch, up, env);
    var res := PrepOutcome(FileUpload(releaseId, platform, arch, up), env).value.result;
    StoredFileRedirect(env.settings, rootParts, env.oracles.digest, up.filename, env.cwd);
    InsertedFileFound(db, releaseId, platform, arch, res, now);
    var after := Inserted(db, Files, FileRow(releaseId, platform, arch, res, now));
    ApplyFileUpload(db, releaseId, platform, arch, up, res, now);
    FoundFileAnswer(after, db.nextId, env);
  }

  /** An editor may use every content route but no delete and not the role
      route; an admin may use all of them. */
  lemma EditorCannotDelete(user: User, route: Route)
    ensures user.role == "editor" ==> (RequireRole(user, MinimumRole(route)) == Pass <==> !IsDelete(route) && !route.UserRole?)
    ensures user.role == "admin" ==> RequireRole(user, MinimumRole(route)) == Pass
    ensures user.role == "viewer" ==> RequireRole(user, MinimumRole(route)) == Fail(Forbidden)
  {
  }

  /** As written, the audit row of a role change is lost: the before
      snapshot is the user row, whose timestamps are datetimes. */
  lemma RoleAuditAsWrittenFails(actor: User, users: map<string, UserRow>, userId: int, role: string,
                                ip: Option<string>, now: Time, json: Json)
    requires IdsUnique(users) && UserById(users, userId).Some?
    ensures EntryAsWritten(actor, "update", "user", Some(userId), UserBefore(users, userId),
                           Some(map["role" := Text(role)]), ip, now, json) == Err(NotSerializable)
  {
    var before := UserSnapshot(UserById(users, userId).value);
    DatetimeLosesEntry(actor, "update", "user", Some(userId), before, Some(map["role" := Text(role)]),
                       ip, now, json, "created_at");
  }

  /** As written, updating an app that the portal created loses the audit
      row: the stored row carries `created_at`, a datetime. The corrected
      entry records the row with the time as text. */
  lemma UpdateAfterCreateAuditAsWrittenFails(db: Db, f: AppForm, g: AppForm, prep: Prep,
                                             now: Time, later: Time, actor: User,
                                             ip: Option<string>, json: Json)
    requires DbOk(db)
    ensures var id := db.nextId;
            var created := Apply(db, AppCreate(f), prep, now).db;
            var c := Apply(created, AppUpdate(id, g), prep, later);
            c.before.Some? &&
            EntryAsWritten(actor, "update", "app", Some(id), c.before, c.after, ip, later, json)
              == Err(NotSerializable) &&
            Entry(actor, "update", "app", Some(id), c.before, c.after, ip, later, json).beforeJson.Some?
  {
    var id := db.nextId;
    var created := Apply(db, AppCreate(f), prep, now).db;
    var row := created.rows[(Apps, id)];
    assert row["created_at"] == Stamp(now);
    var c := Apply(created, AppUpdate(id, g), prep, later);
    DatetimeLosesEntry(actor, "update", "app", Some(id), row, c.after, ip, later, json, "created_at");
  }
}
