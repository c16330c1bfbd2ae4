/** POST /api/auth/manual/create-staff: create a staff account directly.
    Token issuing is not modelled. */
module CreateStaffRoute {
  import opened Wrappers
  import opened Tables
  import opened Domain
  import opened Store

  const MissingFields := Refusal(400, "Email, name, password, and role are required")
  const InvalidRole := Refusal(400, "Invalid role. Allowed roles: manager, supervisor, assistant")
  const UserExists := Refusal(409, "A user already exists with this email")
  const InvalidBranch := Refusal(400, "Invalid branch ID")

  const AllowedRoles: seq<string> := ["manager", "supervisor", "assistant"]

  /** `branchId` 0 means none was supplied, which is allowed. */
  function StaffRefusal(users: Table<User>, branches: Table<Branch>, email: string, name: string,
                        password: string, role: string, branchId: int): (e: Option<Refusal>)
    requires users.Valid()
    ensures e.None? <==>
      && email != "" && name != "" && password != "" && role != ""
      && role in AllowedRoles
      && UserWithEmail(users, email).None?
      && (branchId != 0 ==> branchId in branches.rows)
  {
    if email == "" || name == "" || password == "" || role == "" then Some(MissingFields)
    else if role !in AllowedRoles then Some(InvalidRole)
    else if UserWithEmail(users, email).Some? then Some(UserExists)
    else if branchId != 0 && branchId !in branches.rows then Some(InvalidBranch)
    else None
  }

  function NewStaff(email: string, name: string, password: string, role: string, branchId: int): (u: User)
    requires role in AllowedRoles
    ensures u.email == email && u.name == name && u.password == Some(password) && u.emailVerified.None?
    ensures RoleName(u.role) == role && u.role != Client && u.role != Owner
    ensures u.branchId == if branchId == 0 then None else Some(branchId)
  {
    User(name, email, Some(password), ParseRole(role).value, if branchId == 0 then None else Some(branchId), None)
  }

  method CreateStaff(db: Db, email: string, name: string, password: string, role: string, branchId: int)
    returns (r: Reply<int>)
    requires db.Valid()
    modifies db`users
    ensures db.Valid()
    ensures r == ReplyOf(StaffRefusal(old(db.users), db.branches, email, name, password, role, branchId), 201, old(db.users.next))
    ensures r.Fail? ==> db.users == old(db.users)
    ensures r.Done? ==> db.users == old(db.users).Insert(NewStaff(email, name, password, role, branchId))
  {
    if email == "" || name == "" || password == "" || role == "" {
      return Fail(MissingFields);
    }
    if role !in AllowedRoles {
      return Fail(InvalidRole);
    }
    if UserWithEmail(db.users, email).Some? {
      return Fail(UserExists);
    }
    if branchId != 0 && db.branches.Get(branchId).None? {
      return Fail(InvalidBranch);
    }
    var id := db.users.next;
    db.users := db.users.Insert(NewStaff(email, name, password, role, branchId));
    return Done(201, id);
  }

  /** The role is checked before the email, so an owner or client request
      is refused as a bad role even for a taken email. */
  lemma RoleCheckedBeforeEmail(users: Table<User>, branches: Table<Branch>, email: string, name: string, password: string, branchId: int)
    requires users.Valid() && email != "" && name != "" && password != ""
    ensures StaffRefusal(users, branches, email, name, password, "owner", branchId) == Some(InvalidRole)
    ensures StaffRefusal(users, branches, email, name, password, "client", branchId) == Some(InvalidRole)
  {
  }
}
