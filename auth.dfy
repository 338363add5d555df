/** apphub/app/auth.py: the identity handed over by the authenticating proxy.
    The `users` table is a map keyed by the stored email; `get_identity`
    looks the normalized email up and either refreshes that row or inserts a
    new viewer. */
module Auth {
  import opened Text
  import opened Http

  /** `User`: what the request handlers know about the caller. */
  datatype User = User(id: int, email: string, displayName: Option<string>, role: string)

  /** A row of the `users` table. */
  datatype UserRow = UserRow(
    id: int,
    email: string,
    displayName: Option<string>,
    role: string,
    createdAt: Time,
    lastLogin: Time)

  const EmailHeader := "x-auth-email"              // X-Auth-Email
  const PreferredNameHeader := "x-auth-preferred-username"  // X-Auth-Preferred-Username
  const UserHeader := "x-auth-user"                // X-Auth-User
  const MissingIdentity := HttpError(401, "Missing identity header")

  /** `_normalize_email`: no whitespace at either end and no upper-case letter. */
  function NormalizeEmail(email: string): (r: string)
    ensures NoOuterSpace(r)
    ensures forall i :: 0 <= i < |r| ==> !IsUpper(r[i])
  {
    StripShape(email);
    LowerKeepsSpace(Strip(email));
    Lower(Strip(email))
  }

  /** An email that already has no outer whitespace and no upper-case letter
      is its own key: normalizing changes only padding and case. */
  lemma NormalizedEmailUnchanged(email: string)
    requires NoOuterSpace(email)
    requires forall i :: 0 <= i < |email| ==> !IsUpper(email[i])
    ensures NormalizeEmail(email) == email
  {
    StripOfStripped(email);
    LowerOfLowerFree(email);
  }

  /** Normalizing twice is normalizing once. */
  lemma NormalizeEmailIdempotent(email: string)
    ensures NormalizeEmail(NormalizeEmail(email)) == NormalizeEmail(email)
  {
    NormalizedEmailUnchanged(NormalizeEmail(email));
  }

  /** Emails that differ only in letter case or in surrounding whitespace
      normalize to the same key. */
  lemma NormalizeEmailIgnoresCaseAndPadding(email: string, pre: string, post: string)
    requires AllSpace(pre) && AllSpace(post)
    ensures NormalizeEmail(pre + email + post) == NormalizeEmail(email)
    ensures NormalizeEmail(Lower(email)) == NormalizeEmail(email)
  {
    StripPadded(pre, email, post);
    LowerStripCommute(email);
    LowerIdempotent(Strip(email));
  }

  /** `X-Auth-Preferred-Username or X-Auth-User`. */
  function DisplayName(r: Request): Option<string> {
    Or(Header(r, PreferredNameHeader), Header(r, UserHeader))
  }

  /** SQL `COALESCE(new, old)`: only a missing value falls back. */
  function Coalesce(given: Option<string>, stored: Option<string>): Option<string> {
    if given.Some? then given else stored
  }

  /** The table invariant: every row sits under its own email, ids are below
      the next id to hand out, and no two rows share an id. */
  ghost predicate TableOk(users: map<string, UserRow>, nextId: int) {
    (forall e :: e in users ==> users[e].email == e && users[e].id < nextId) &&
    IdsUnique(users)
  }

  ghost predicate IdsUnique(users: map<string, UserRow>) {
    forall e1, e2 :: e1 in users && e2 in users && e1 != e2 ==> users[e1].id != users[e2].id
  }

  /** What `get_identity` returns for request `r` against `users`. */
  function Identify(users: map<string, UserRow>, nextId: int, r: Request): Result<User> {
    var email := Header(r, EmailHeader);
    if !Truthy(email) then Err(MissingIdentity)
    else
      var e := NormalizeEmail(email.value);
      if e in users then
        var row := users[e];
        Ok(User(row.id, row.email, row.displayName, row.role))
      else Ok(User(nextId, e, DisplayName(r), "viewer"))
  }

  /** The `users` table after `get_identity(r)` at time `now`. */
  function UsersAfter(users: map<string, UserRow>, nextId: int, r: Request, now: Time): map<string, UserRow> {
    var email := Header(r, EmailHeader);
    if !Truthy(email) then users
    else
      var e := NormalizeEmail(email.value);
      if e in users then
        users[e := users[e].(lastLogin := now, displayName := Coalesce(DisplayName(r), users[e].displayName))]
      else users[e := UserRow(nextId, e, DisplayName(r), "viewer", now, now)]
  }

  function NextIdAfter(users: map<string, UserRow>, nextId: int, r: Request): int {
    var email := Header(r, EmailHeader);
    if Truthy(email) && NormalizeEmail(email.value) !in users then nextId + 1 else nextId
  }

  /** The users table as a mutable store (the database behind `get_cursor`). */
  class UserStore {
    var users: map<string, UserRow>
    var nextId: int

    ghost predicate Valid()
      reads this
    {
      TableOk(users, nextId)
    }

    constructor ()
      ensures Valid() && users == map[] && nextId == 1
    {
      users := map[];
      nextId := 1;
    }

    /** `get_identity(request)`: reject a missing or empty email header before
        touching the table; otherwise refresh the row of the normalized email
        or insert a new viewer row. */
    method GetIdentity(r: Request, now: Time) returns (res: Result<User>)
      requires Valid()
      modifies this
      ensures Valid()
      ensures res == Identify(old(users), old(nextId), r)
      ensures users == UsersAfter(old(users), old(nextId), r, now)
      ensures nextId == NextIdAfter(old(users), old(nextId), r)
    {
      IdentityKeepsTableOk(users, nextId, r, now);
      var email := Header(r, EmailHeader);
      if !Truthy(email) {
        return Err(MissingIdentity);
      }
      var e := NormalizeEmail(email.value);
      var name := DisplayName(r);
      if e in users {
        var row := users[e];
        users := users[e := row.(lastLogin := now, displayName := Coalesce(name, row.displayName))];
        return Ok(User(row.id, row.email, row.displayName, row.role));
      }
      var id := nextId;
      users := users[e := UserRow(id, e, name, "viewer", now, now)];
      nextId := nextId + 1;
      return Ok(User(id, e, name, "viewer"));
    }

    /** `UPDATE users SET role = %s WHERE id = %s`: any string is stored. */
    method SetRole(userId: int, role: string)
      requires Valid()
      modifies this
      ensures Valid() && nextId == old(nextId)
      ensures users == RoleSet(old(users), userId, role)
    {
      users := RoleSet(users, userId, role);
    }
  }

  /** The row with the given id, as `SELECT * FROM users WHERE id = %s`
      returns it (the role route of main.py). */
  function UserById(users: map<string, UserRow>, userId: int): (row: Option<UserRow>)
    requires IdsUnique(users)
    ensures row.Some? <==> exists e :: e in users && users[e].id == userId
    ensures row.Some? ==> row.value in users.Values && row.value.id == userId
  {
    if exists e :: e in users && users[e].id == userId then
      var e :| e in users && users[e].id == userId;
      Some(users[e])
    else None
  }

  /** `UPDATE users SET role = %s WHERE id = %s` on the table. */
  function RoleSet(users: map<string, UserRow>, userId: int, role: string): map<string, UserRow> {
    map e | e in users :: if users[e].id == userId then users[e].(role := role) else users[e]
  }

  /** A missing or empty X-Auth-Email is refused with 401 and the table is
      left alone. */
  lemma MissingEmailRejected(users: map<string, UserRow>, nextId: int, r: Request, now: Time)
    requires !Truthy(Header(r, EmailHeader))
    ensures Identify(users, nextId, r) == Err(MissingIdentity)
    ensures UsersAfter(users, nextId, r, now) == users && NextIdAfter(users, nextId, r) == nextId
  {
  }

  /** A known email gets its stored id, email and role back (with the display
      name from before this request); only `last_login` and, when a name
      header is present, `display_name` change. */
  lemma KnownEmailKeepsRow(users: map<string, UserRow>, nextId: int, r: Request, now: Time)
    requires Truthy(Header(r, EmailHeader))
    requires NormalizeEmail(Header(r, EmailHeader).value) in users
    ensures var e := NormalizeEmail(Header(r, EmailHeader).value);
            var row := users[e];
            Identify(users, nextId, r) == Ok(User(row.id, row.email, row.displayName, row.role)) &&
            UsersAfter(users, nextId, r, now).Keys == users.Keys &&
            UsersAfter(users, nextId, r, now)[e].role == row.role &&
            UsersAfter(users, nextId, r, now)[e].lastLogin == now &&
            (DisplayName(r).None? ==>
               UsersAfter(users, nextId, r, now)[e].displayName == row.displayName)
  {
  }

  /** An unknown email inserts exactly one row, a viewer, and returns it. */
  lemma NewEmailBecomesViewer(users: map<string, UserRow>, nextId: int, r: Request, now: Time)
    requires TableOk(users, nextId)
    requires Truthy(Header(r, EmailHeader))
    requires NormalizeEmail(Header(r, EmailHeader).value) !in users
    ensures var e := NormalizeEmail(Header(r, EmailHeader).value);
            Identify(users, nextId, r) == Ok(User(nextId, e, DisplayName(r), "viewer")) &&
            UsersAfter(users, nextId, r, now).Keys == users.Keys + {e} &&
            |UsersAfter(users, nextId, r, now)| == |users| + 1 &&
            UsersAfter(users, nextId, r, now)[e].role == "viewer"
  {
  }

  /** `get_identity` never changes a stored role, id or email, and never
      removes a row. */
  lemma IdentityKeepsRoles(users: map<string, UserRow>, nextId: int, r: Request, now: Time, e: string)
    requires e in users
    ensures e in UsersAfter(users, nextId, r, now)
    ensures UsersAfter(users, nextId, r, now)[e].role == users[e].role
    ensures UsersAfter(users, nextId, r, now)[e].id == users[e].id
    ensures UsersAfter(users, nextId, r, now)[e].email == users[e].email
  {
  }

  /** Get-or-create is stable: a second request with an email that normalizes
      the same way resolves to the user the first one returned, with the same
      id and role. */
  lemma SecondVisitSameUser(users: map<string, UserRow>, nextId: int, r1: Request, r2: Request, now: Time)
    requires TableOk(users, nextId)
    requires Truthy(Header(r1, EmailHeader)) && Truthy(Header(r2, EmailHeader))
    requires NormalizeEmail(Header(r1, EmailHeader).value) == NormalizeEmail(Header(r2, EmailHeader).value)
    ensures var first := Identify(users, nextId, r1);
            var second := Identify(UsersAfter(users, nextId, r1, now), NextIdAfter(users, nextId, r1), r2);
            first.Ok? && second.Ok? &&
            second.value.id == first.value.id && second.value.role == first.value.role &&
            second.value.email == first.value.email
  {
  }

  /** `get_identity` keeps the table invariant. */
  lemma IdentityKeepsTableOk(users: map<string, UserRow>, nextId: int, r: Request, now: Time)
    requires TableOk(users, nextId)
    ensures TableOk(UsersAfter(users, nextId, r, now), NextIdAfter(users, nextId, r))
  {
  }

  /** The role update changes the role of the row with that id and nothing else. */
  lemma RoleSetOnlyThatRow(users: map<string, UserRow>, nextId: int, userId: int, role: string, e: string)
    requires TableOk(users, nextId)
    requires e in users
    ensures RoleSet(users, userId, role).Keys == users.Keys
    ensures TableOk(RoleSet(users, userId, role), nextId)
    ensures RoleSet(users, userId, role)[e].role == if users[e].id == userId then role else users[e].role
    ensures RoleSet(users, userId, role)[e].(role := users[e].role) == users[e]
  {
  }

  /** After the role update, looking the user up by id finds the same row
      with the new role. */
  lemma RoleSetTakesEffect(users: map<string, UserRow>, nextId: int, userId: int, role: string)
    requires TableOk(users, nextId) && UserById(users, userId).Some?
    ensures IdsUnique(RoleSet(users, userId, role))
    ensures UserById(RoleSet(users, userId, role), userId) == Some(UserById(users, userId).value.(role := role))
  {
    var after := RoleSet(users, userId, role);
    var row := UserById(users, userId).value;
    var e := row.email;
    assert e in users && users[e] == row;
    RoleSetOnlyThatRow(users, nextId, userId, role, e);
    var found := UserById(after, userId).value;
    var e2 :| e2 in after && after[e2] == found;
    RoleSetOnlyThatRow(users, nextId, userId, role, e2);
  }
}
