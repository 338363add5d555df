/** apphub/app/audit.py: the audit trail. Every call of `log_action` appends
    one row to `audit_log`; earlier rows are never touched. The before and
    after snapshots are stored as JSON text, or NULL when absent.

    `json.dumps` is a parameter (`dumps`), as is `str()` of a datetime
    (`timeText`). The code as written passes database rows that hold
    datetimes straight to `json.dumps`, which raises `TypeError` on them;
    `EntryAsWritten` models that, and `Entry` the corrected serialisation
    (`default=str`) that the rest of the model uses. */
module Audit {
  import opened Http
  import opened Auth

  /** A column value as the database driver hands it back in a row dict. */
  datatype Value =
    | Null
    | Int(i: int)
    | Text(s: string)
    | Flag(b: bool)
    | Stamp(t: Time)              // a `datetime`
    | TextList(items: seq<string>)

  /** A row or a snapshot: column name to value (`dict[str, Any]`). */
  type Row = map<string, Value>

  /** What `json.dumps` encodes without a `default`: everything but a datetime. */
  predicate Encodable(v: Value) {
    !v.Stamp?
  }

  predicate Serializable(row: Row) {
    forall k :: k in row ==> Encodable(row[k])
  }

  /** The serialiser: `json.dumps` on encodable snapshots, and `str()` on a datetime. */
  datatype Json = Json(dumps: Row -> string, timeText: Time -> string)

  const NotSerializable := Unhandled("TypeError: Object of type datetime is not JSON serializable")

  /** `default=str`: every datetime becomes its text, everything else stays. */
  function Stringify(row: Row, timeText: Time -> string): (r: Row)
    ensures r.Keys == row.Keys && Serializable(r)
    ensures forall k :: k in row && row[k].Stamp? ==> r[k] == Text(timeText(row[k].t))
  {
    map k | k in row :: if row[k].Stamp? then Text(timeText(row[k].t)) else row[k]
  }

  /** A snapshot without datetimes is left exactly as it is. */
  lemma StringifyKeepsEncodable(row: Row, timeText: Time -> string)
    requires Serializable(row)
    ensures Stringify(row, timeText) == row
  {
    var r := Stringify(row, timeText);
    assert forall k :: k in row ==> r[k] == row[k];
  }

  /** `json.dumps(snapshot, default=str)`. */
  function Dumps(row: Row, json: Json): string {
    json.dumps(Stringify(row, json.timeText))
  }

  /** `json.dumps(snapshot)` as the code calls it: a datetime raises. */
  function DumpsAsWritten(row: Row, json: Json): (r: Result<string>)
    ensures r.Ok? <==> Serializable(row)
    ensures r.Ok? ==> r.value == json.dumps(row)
    ensures r.Err? ==> r.error == NotSerializable
  {
    if Serializable(row) then Ok(json.dumps(row)) else Err(NotSerializable)
  }

  /** A row of the `audit_log` table. */
  datatype AuditRow = AuditRow(
    actorEmail: string,
    action: string,
    entityType: string,
    entityId: Option<int>,
    beforeJson: Option<string>,
    afterJson: Option<string>,
    ip: Option<string>,
    createdAt: Time)

  /** `json.dumps(x, default=str) if x is not None else None`. */
  function SnapshotJson(snapshot: Option<Row>, json: Json): Option<string> {
    if snapshot.Some? then Some(Dumps(snapshot.value, json)) else None
  }

  /** The row `log_action` inserts, with the corrected serialisation. */
  function Entry(actor: User, action: string, entityType: string, entityId: Option<int>,
                 before: Option<Row>, after: Option<Row>, ip: Option<string>, now: Time,
                 json: Json): (e: AuditRow)
    ensures e.actorEmail == actor.email && e.action == action && e.entityType == entityType
    ensures e.entityId == entityId && e.ip == ip && e.createdAt == now
    ensures e.beforeJson.None? <==> before.None?
    ensures e.afterJson.None? <==> after.None?
    ensures before.Some? ==> e.beforeJson == Some(Dumps(before.value, json))
    ensures after.Some? ==> e.afterJson == Some(Dumps(after.value, json))
  {
    AuditRow(actor.email, action, entityType, entityId,
             SnapshotJson(before, json), SnapshotJson(after, json), ip, now)
  }

  /** The row `log_action` inserts as written: the arguments are evaluated
      before the INSERT, so a datetime in either snapshot raises and no row
      is inserted. */
  function EntryAsWritten(actor: User, action: string, entityType: string, entityId: Option<int>,
                          before: Option<Row>, after: Option<Row>, ip: Option<string>, now: Time,
                          json: Json): (r: Result<AuditRow>)
    ensures r.Ok? <==> (before.None? || Serializable(before.value)) &&
                       (after.None? || Serializable(after.value))
    ensures r.Ok? ==> r.value.beforeJson == (if before.Some? then Some(json.dumps(before.value)) else None)
    ensures r.Ok? ==> r.value.afterJson == (if after.Some? then Some(json.dumps(after.value)) else None)
    ensures r.Err? ==> r.error == NotSerializable
  {
    var b := if before.Some? then DumpsAsWritten(before.value, json) else Ok("");
    var a := if after.Some? then DumpsAsWritten(after.value, json) else Ok("");
    if b.Err? then Err(b.error)
    else if a.Err? then Err(a.error)
    else Ok(AuditRow(actor.email, action, entityType, entityId,
                     if before.Some? then Some(b.value) else None,
                     if after.Some? then Some(a.value) else None, ip, now))
  }

  /** The correction changes nothing where the code already worked: on
      snapshots without datetimes both give the same row. */
  lemma EntryAgreesWhenSerializable(actor: User, action: string, entityType: string, entityId: Option<int>,
                                    before: Option<Row>, after: Option<Row>, ip: Option<string>, now: Time,
                                    json: Json)
    requires before.None? || Serializable(before.value)
    requires after.None? || Serializable(after.value)
    ensures EntryAsWritten(actor, action, entityType, entityId, before, after, ip, now, json)
              == Ok(Entry(actor, action, entityType, entityId, before, after, ip, now, json))
  {
    if before.Some? {
      StringifyKeepsEncodable(before.value, json.timeText);
    }
    if after.Some? {
      StringifyKeepsEncodable(after.value, json.timeText);
    }
  }

  /** As written, one datetime column in the before snapshot is enough to
      lose the audit row. */
  lemma DatetimeLosesEntry(actor: User, action: string, entityType: string, entityId: Option<int>,
                           before: Row, after: Option<Row>, ip: Option<string>, now: Time,
                           json: Json, column: string)
    requires column in before && before[column].Stamp?
    ensures EntryAsWritten(actor, action, entityType, entityId, Some(before), after, ip, now, json)
              == Err(NotSerializable)
  {
    assert !Encodable(before[column]);
  }

  /** The `audit_log` table. */
  class AuditLog {
    var rows: seq<AuditRow>

    constructor ()
      ensures rows == []
    {
      rows := [];
    }

    /** `log_action(...)`, corrected: appends exactly one row and leaves the
        earlier rows as they were. */
    method LogAction(actor: User, action: string, entityType: string, entityId: Option<int>,
                     before: Option<Row>, after: Option<Row>, ip: Option<string>, now: Time, json: Json)
      modifies this
      ensures rows == old(rows) + [Entry(actor, action, entityType, entityId, before, after, ip, now, json)]
    {
      var beforeJson := SnapshotJson(before, json);
      var afterJson := SnapshotJson(after, json);
      rows := rows + [AuditRow(actor.email, action, entityType, entityId, beforeJson, afterJson, ip, now)];
    }

    /** `log_action(...)` as written: the row is appended when both snapshots
        serialise; otherwise the `TypeError` propagates and the table is
        unchanged. */
    method LogActionAsWritten(actor: User, action: string, entityType: string, entityId: Option<int>,
                              before: Option<Row>, after: Option<Row>, ip: Option<string>, now: Time,
                              json: Json) returns (o: Outcome)
      modifies this
      ensures var r := EntryAsWritten(actor, action, entityType, entityId, before, after, ip, now, json);
              (r.Ok? ==> o == Pass && rows == old(rows) + [r.value]) &&
              (r.Err? ==> o == Fail(r.error) && rows == old(rows))
    {
      var r := EntryAsWritten(actor, action, entityType, entityId, before, after, ip, now, json);
      if r.Err? {
        return Fail(r.error);
      }
      rows := rows + [r.value];
      return Pass;
    }
  }
}
