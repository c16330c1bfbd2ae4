/** POST /api/auth/manual/create-owner: create an owner account, marked as
    verified at once. */
module CreateOwnerRoute {
  import opened Wrappers
  import opened Tables
  import opened Domain
  import opened Store

  const MissingFields := Refusal(400, "Email, name, and password are required")
  const UserExists := Refusal(409, "A user already exists with this email")

  function OwnerRefusal(users: Table<User>, email: string, name: string, password: string): (e: Option<Refusal>)
    requires users.Valid()
    ensures e.None? <==> email != "" && name != "" && password != "" && UserWithEmail(users, email).None?
  {
    if email == "" || name == "" || password == "" then Some(MissingFields)
    else if UserWithEmail(users, email).Some? then Some(UserExists)
    else None
  }

  /** The owner row; the branch id is taken as given, without a lookup. */
  function NewOwner(email: string, name: string, password: string, branchId: int, now: int): (u: User)
    ensures u.email == email && u.name == name
    ensures u.role == Owner && u.emailVerified == Some(now) && u.password == Some(password)
    ensures u.branchId == if branchId == 0 then None else Some(branchId)
  {
    User(name, email, Some(password), Owner, if branchId == 0 then None else Some(branchId), Some(now))
  }

  method CreateOwner(db: Db, email: string, name: string, password: string, branchId: int, now: int)
    returns (r: Reply<int>)
    requires db.Valid()
    modifies db`users
    ensures db.Valid()
    ensures r == ReplyOf(OwnerRefusal(old(db.users), email, name, password), 201, old(db.users.next))
    ensures r.Fail? ==> db.users == old(db.users)
    ensures r.Done? ==> db.users == old(db.users).Insert(NewOwner(email, name, password, branchId, now))
  {
    if email == "" || name == "" || password == "" {
      return Fail(MissingFields);
    }
    if UserWithEmail(db.users, email).Some? {
      return Fail(UserExists);
    }
    var id := db.users.next;
    db.users := db.users.Insert(NewOwner(email, name, password, branchId, now));
    return Done(201, id);
  }
}
