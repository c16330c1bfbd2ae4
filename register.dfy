/** POST /api/auth/register: clients get an account at once; staff roles only
    file an application. */
module RegisterRoute {
  import opened Wrappers
  import opened Tables
  import opened Domain
  import opened Store

  const MissingFields := Refusal(400, "Missing required fields")
  const EmailExists := Refusal(400, "Email already exists")
  const InvalidRole := Refusal(400, "Invalid role")

  predicate StaffRole(role: string) {
    role == "manager" || role == "supervisor" || role == "assistant"
  }

  /** Fields, then the email, then the role; `branchId` 0 is absent. */
  function RegisterRefusal(users: Table<User>, name: string, email: string, password: string, role: string, branchId: int): (e: Option<Refusal>)
    requires users.Valid()
    ensures e.None? <==>
      && name != "" && email != "" && password != "" && role != "" && branchId != 0
      && UserWithEmail(users, email).None?
      && (role == "client" || StaffRole(role))
    ensures e == Some(InvalidRole) ==> role == "owner" || ParseRole(role).None?
  {
    if name == "" || email == "" || password == "" || role == "" || branchId == 0 then Some(MissingFields)
    else if UserWithEmail(users, email).Some? then Some(EmailExists)
    else if role == "client" || StaffRole(role) then None
    else Some(InvalidRole)
  }

  method Register(db: Db, name: string, email: string, password: string, role: string, branchId: int)
    returns (r: Reply<int>)
    requires db.Valid()
    modifies db`users, db`applications
    ensures db.Valid()
    ensures r.Fail? <==> RegisterRefusal(old(db.users), name, email, password, role, branchId).Some?
    ensures r.Fail? ==> r.refusal == RegisterRefusal(old(db.users), name, email, password, role, branchId).value
    ensures r.Fail? ==> db.users == old(db.users) && db.applications == old(db.applications)
    ensures r.Done? && role == "client" ==>
      && r == Done(201, old(db.users.next))
      && db.users == old(db.users).Insert(User(name, email, Some(password), Client, Some(branchId), None))
      && db.applications == old(db.applications)
    ensures r.Done? && role != "client" ==>
      && r == Done(201, old(db.applications.next))
      && db.applications == old(db.applications).Insert(
           StaffApplication(name, email, password, ParseRole(role).value, branchId, StatusPending))
      && db.users == old(db.users)
  {
    if name == "" || email == "" || password == "" || role == "" || branchId == 0 {
      return Fail(MissingFields);
    }
    if UserWithEmail(db.users, email).Some? {
      return Fail(EmailExists);
    }
    if role == "client" {
      var id := db.users.next;
      db.users := db.users.Insert(User(name, email, Some(password), Client, Some(branchId), None));
      return Done(201, id);
    } else if StaffRole(role) {
      var id := db.applications.next;
      db.applications := db.applications.Insert(
        StaffApplication(name, email, password, ParseRole(role).value, branchId, StatusPending));
      return Done(201, id);
    }
    return Fail(InvalidRole);
  }

  /** A taken email is refused whatever the role, even an invalid one. */
  lemma EmailCheckedBeforeRole(users: Table<User>, name: string, email: string, password: string, r1: string, r2: string, branchId: int)
    requires users.Valid() && UserWithEmail(users, email).Some?
    requires name != "" && email != "" && password != "" && r1 != "" && r2 != "" && branchId != 0
    ensures RegisterRefusal(users, name, email, password, r1, branchId) == RegisterRefusal(users, name, email, password, r2, branchId) == Some(EmailExists)
  {
  }

  /** Owner accounts cannot be self-registered. */
  lemma OwnerRefused(users: Table<User>, name: string, email: string, password: string, branchId: int)
    requires users.Valid()
    ensures RegisterRefusal(users, name, email, password, "owner", branchId).Some?
  {
  }
}
