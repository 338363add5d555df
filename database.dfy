/** The content tables the admin routes of apphub/app/main.py write (apps,
    categories, releases, media, files, announcements, and the
    app-to-category links), as one value, and the SQL statements those
    routes issue as functions on it. A row is the dict `SELECT *` returns. */
module Database {
  import opened Http
  import opened Audit

  datatype Table = Apps | Categories | Releases | Media | Files | Announcements

  /** Rows keyed by table and id, the `app_categories` pairs, and the next
      id to hand out. */
  datatype Db = Db(rows: map<(Table, int), Row>, links: set<(int, int)>, nextId: int)

  const Empty := Db(map[], {}, 1)

  /** Every row id is below the next one to hand out. */
  ghost predicate DbOk(db: Db) {
    forall k :: k in db.rows ==> k.1 < db.nextId
  }

  /** The columns the serving routes read are present with the types they need. */
  predicate FileRowOk(row: Row) {
    "filename" in row && row["filename"].Text? &&
    "stored_path" in row && row["stored_path"].Text? &&
    "download_count" in row && row["download_count"].Int? &&
    "release_id" in row && row["release_id"].Int?
  }

  predicate MediaRowOk(row: Row) {
    "stored_path" in row && row["stored_path"].Text?
  }

  ghost predicate Typed(db: Db) {
    forall k :: k in db.rows ==>
      (k.0 == Files ==> FileRowOk(db.rows[k])) && (k.0 == Media ==> MediaRowOk(db.rows[k]))
  }

  /** `deleted_at IS NULL` (a row without the column was never deleted). */
  predicate Live(row: Row) {
    "deleted_at" !in row || row["deleted_at"] == Null
  }

  /** `SELECT * FROM t WHERE id = %s` followed by `fetchone()`. */
  function Select(db: Db, t: Table, id: int): Option<Row> {
    if (t, id) in db.rows then Some(db.rows[(t, id)]) else None
  }

  /** `INSERT INTO t ... RETURNING id`: the row gets the next id. */
  function Inserted(db: Db, t: Table, row: Row): Db {
    db.(rows := db.rows[(t, db.nextId) := row["id" := Int(db.nextId)]], nextId := db.nextId + 1)
  }

  /** `UPDATE t SET <columns> WHERE id = %s`: a missing row is no error and
      no change. */
  function Updated(db: Db, t: Table, id: int, columns: Row): Db {
    if (t, id) in db.rows then db.(rows := db.rows[(t, id) := db.rows[(t, id)] + columns]) else db
  }

  /** `DELETE FROM t WHERE id = %s`. */
  function Deleted(db: Db, t: Table, id: int): Db {
    db.(rows := db.rows - {(t, id)})
  }

  /** `DELETE FROM app_categories WHERE app_id = %s`. */
  function Unlinked(db: Db, appId: int): Db {
    db.(links := set p | p in db.links && p.0 != appId)
  }

  /** The pairs `(app_id, category_id)` the insert loop adds. */
  function Pairs(appId: int, categories: seq<int>): set<(int, int)> {
    set i | 0 <= i < |categories| :: (appId, categories[i])
  }

  /** `for category_id in categories: INSERT INTO app_categories ...`. */
  function Linked(db: Db, appId: int, categories: seq<int>): Db {
    db.(links := db.links + Pairs(appId, categories))
  }

  /** The categories an app is linked to. */
  function CategoriesOf(links: set<(int, int)>, appId: int): set<int> {
    set p | p in links && p.0 == appId :: p.1
  }

  /** After unlinking and relinking, an app's categories are exactly the
      given ones, and every other app keeps its own. */
  lemma RelinkReplaces(db: Db, appId: int, categories: seq<int>, other: int)
    requires other != appId
    ensures CategoriesOf(Linked(Unlinked(db, appId), appId, categories).links, appId)
              == set i | 0 <= i < |categories| :: categories[i]
    ensures CategoriesOf(Linked(Unlinked(db, appId), appId, categories).links, other)
              == CategoriesOf(db.links, other)
  {
    var links := Linked(Unlinked(db, appId), appId, categories).links;
    var given := set i | 0 <= i < |categories| :: categories[i];
    forall c | c in given
      ensures c in CategoriesOf(links, appId)
    {
      var i :| 0 <= i < |categories| && categories[i] == c;
      assert (appId, categories[i]) in Pairs(appId, categories);
    }
    forall c | c in CategoriesOf(db.links, other)
      ensures c in CategoriesOf(links, other)
    {
      assert (other, c) in db.links;
    }
  }

  /** An insert adds exactly one row, under a fresh id, and keeps the others. */
  lemma InsertedIsFresh(db: Db, t: Table, row: Row)
    requires DbOk(db)
    ensures var after := Inserted(db, t, row);
            (t, db.nextId) !in db.rows &&
            after.rows.Keys == db.rows.Keys + {(t, db.nextId)} &&
            (forall k :: k in db.rows ==> after.rows[k] == db.rows[k]) &&
            DbOk(after)
  {
  }

  /** An insert of a row with the columns the serving routes read keeps the
      tables typed. */
  lemma InsertedKeepsTyped(db: Db, t: Table, row: Row)
    requires Typed(db)
    requires t == Files ==> FileRowOk(row)
    requires t == Media ==> MediaRowOk(row)
    ensures Typed(Inserted(db, t, row))
  {
    var after := Inserted(db, t, row);
    forall k | k in after.rows
      ensures (k.0 == Files ==> FileRowOk(after.rows[k])) && (k.0 == Media ==> MediaRowOk(after.rows[k]))
    {
      if k != (t, db.nextId) {
        assert after.rows[k] == db.rows[k];
      }
    }
  }

  /** An update keeps the key set; one that only sets `deleted_at` on the
      tables the serving routes read keeps the types. */
  lemma UpdatedKeepsInvariants(db: Db, t: Table, id: int, columns: Row)
    requires DbOk(db) && Typed(db)
    requires t == Files || t == Media ==> columns.Keys == {"deleted_at"}
    ensures Updated(db, t, id, columns).rows.Keys == db.rows.Keys
    ensures DbOk(Updated(db, t, id, columns)) && Typed(Updated(db, t, id, columns))
  {
  }

  /** Deleting a row keeps the invariants. */
  lemma DeletedKeepsInvariants(db: Db, t: Table, id: int)
    requires DbOk(db) && Typed(db)
    ensures DbOk(Deleted(db, t, id)) && Typed(Deleted(db, t, id))
  {
  }
}
