/** apphub/app/rbac.py: the three roles in increasing order of power, and
    the check every protected route starts with. */
module Rbac {
  import opened Http
  import opened Auth

  /** `ROLE_ORDER.get(role, 0)`: viewer 1, editor 2, admin 3, anything else 0. */
  function Rank(role: string): (n: nat)
    ensures n <= 3
    ensures n == 0 <==> role !in {"viewer", "editor", "admin"}
  {
    if role == "viewer" then 1
    else if role == "editor" then 2
    else if role == "admin" then 3
    else 0
  }

  const Forbidden := HttpError(403, "Insufficient permissions")

  /** `require_role(user, minimum)`: passes exactly when the user's rank is at
      least the minimum's, and otherwise refuses with 403. */
  function RequireRole(user: User, minimum: string): (o: Outcome)
    ensures o == Pass || o == Fail(Forbidden)
    ensures o == Pass <==> Rank(user.role) >= Rank(minimum)
  {
    if Rank(user.role) < Rank(minimum) then Fail(Forbidden) else Pass
  }

  /** Among the three known roles, exactly these pairs are refused: a viewer
      where editor or admin is needed, an editor where admin is needed. */
  lemma KnownRolesTable(user: User, minimum: string)
    requires user.role in {"viewer", "editor", "admin"}
    requires minimum in {"viewer", "editor", "admin"}
    ensures RequireRole(user, minimum).Fail? <==>
              (user.role, minimum) in {("viewer", "editor"), ("viewer", "admin"), ("editor", "admin")}
  {
  }

  /** A role outside the table ranks 0: it is refused wherever a known role
      is required, like no role at all. */
  lemma UnknownRoleRefused(user: User, minimum: string)
    requires user.role !in {"viewer", "editor", "admin"}
    requires minimum in {"viewer", "editor", "admin"}
    ensures RequireRole(user, minimum) == Fail(Forbidden)
  {
  }

  /** An unknown minimum ranks 0, so it lets every user through. */
  lemma UnknownMinimumAdmitsAll(user: User, minimum: string)
    requires minimum !in {"viewer", "editor", "admin"}
    ensures RequireRole(user, minimum) == Pass
  {
  }

  /** An admin passes every check. */
  lemma AdminPassesAll(user: User, minimum: string)
    requires user.role == "admin"
    ensures RequireRole(user, minimum) == Pass
  {
  }

  /** Raising the minimum never admits more users; a user who passes a
      check passes every lower one. */
  lemma RequireRoleMonotone(user: User, lower: string, higher: string)
    requires Rank(lower) <= Rank(higher)
    ensures RequireRole(user, higher) == Pass ==> RequireRole(user, lower) == Pass
  {
  }

  /** The check depends on the role alone, not on who the user is. */
  lemma RequireRoleOnlyRole(u1: User, u2: User, minimum: string)
    requires u1.role == u2.role
    ensures RequireRole(u1, minimum) == RequireRole(u2, minimum)
  {
  }

  /** The known roles are totally ordered: distinct known roles rank apart. */
  lemma RanksDistinct(a: string, b: string)
    requires a in {"viewer", "editor", "admin"} && b in {"viewer", "editor", "admin"}
    ensures Rank(a) == Rank(b) <==> a == b
  {
  }
}
