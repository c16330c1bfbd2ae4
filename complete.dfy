/** POST /api/auth/complete: an authenticated user picks a role (and, for
    staff, a branch) after a third-party sign-in. */
module CompleteRoute {
  import opened Wrappers
  import opened Tables
  import opened Domain
  import opened Store

  const NotAuthenticated := Refusal(401, "Not authenticated")
  const InvalidRole := Refusal(400, "Invalid role")
  const BranchRequired := Refusal(400, "Branch required for staff roles")
  const InvalidBranch := Refusal(400, "Invalid branchId")
  /** The update throws when the session's user row is gone. */
  const InternalError := Refusal(500, "Internal server error")

  predicate AllowedRole(role: string) {
    role == "client" || role == "manager" || role == "supervisor" || role == "assistant"
  }

  /** `sessionUserId` and `branchId` are 0 when absent. */
  function CompleteRefusal(users: Table<User>, branches: Table<Branch>, sessionUserId: int, role: string, branchId: int): (e: Option<Refusal>)
    ensures e.None? <==>
      && sessionUserId != 0 && AllowedRole(role)
      && (role != "client" ==> branchId != 0 && branchId in branches.rows)
      && sessionUserId in users.rows
    ensures sessionUserId == 0 ==> e == Some(NotAuthenticated)
    ensures sessionUserId != 0 && role == "owner" ==> e == Some(InvalidRole)
  {
    if sessionUserId == 0 then Some(NotAuthenticated)
    else if !AllowedRole(role) then Some(InvalidRole)
    else if role != "client" && branchId == 0 then Some(BranchRequired)
    else if role != "client" && branchId !in branches.rows then Some(InvalidBranch)
    else if sessionUserId !in users.rows then Some(InternalError)
    else None
  }

  /** The user row after completion: new role, and no branch for a client
      whatever was sent. */
  function Completed(u: User, role: string, branchId: int): (v: User)
    requires AllowedRole(role)
    ensures RoleName(v.role) == role
    ensures v.branchId == if role == "client" then None else Some(branchId)
    ensures v.name == u.name && v.email == u.email && v.password == u.password && v.emailVerified == u.emailVerified
  {
    u.(role := ParseRole(role).value, branchId := if role == "client" then None else Some(branchId))
  }

  method Complete(db: Db, sessionUserId: int, role: string, branchId: int) returns (r: Reply<()>)
    requires db.Valid()
    modifies db`users
    ensures db.Valid()
    ensures r == ReplyOf(CompleteRefusal(old(db.users), db.branches, sessionUserId, role, branchId), 200, ())
    ensures r.Fail? ==> db.users == old(db.users)
    ensures r.Done? ==> db.users == old(db.users).Update(sessionUserId, Completed(old(db.users.rows[sessionUserId]), role, branchId))
  {
    if sessionUserId == 0 {
      return Fail(NotAuthenticated);
    }
    if !AllowedRole(role) {
      return Fail(InvalidRole);
    }
    if role != "client" {
      if branchId == 0 {
        return Fail(BranchRequired);
      }
      if db.branches.Get(branchId).None? {
        return Fail(InvalidBranch);
      }
    }
    var user := db.users.Get(sessionUserId);
    if user.None? {
      return Fail(InternalError);
    }
    db.users := db.users.Update(sessionUserId, Completed(user.value, role, branchId));
    return Done(200, ());
  }

  /** A client's branch is not checked at all: any value, even an unknown
      branch, is accepted and discarded. */
  lemma ClientBranchIgnored(users: Table<User>, branches: Table<Branch>, id: int, b1: int, b2: int)
    ensures CompleteRefusal(users, branches, id, "client", b1) == CompleteRefusal(users, branches, id, "client", b2)
  {
  }
}
