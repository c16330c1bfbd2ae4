/** POST /api/auth/manual/login: plain-text password check against the user
    table. Token and cookie issuing are not modelled. */
module ManualLoginRoute {
  import opened Wrappers
  import opened Tables
  import opened Domain
  import opened Store

  const FieldsRequired := Refusal(400, "Email and password are required")
  const InvalidCredentials := Refusal(401, "Invalid credentials")

  /** What the success response reports about the account. */
  datatype Session = Session(id: int, role: Role, branchId: Option<int>)

  function Login(users: Table<User>, email: string, password: string): (r: Reply<Session>)
    requires users.Valid() && UniqueUserEmails(users)
    ensures (email == "" || password == "") ==> r == Fail(FieldsRequired)
    ensures r.Done? <==>
      && email != "" && password != ""
      && exists k :: k in users.rows && users.rows[k].email == email && users.rows[k].password == Some(password)
    ensures r.Done? ==>
      && r.code == 200 && r.value.id in users.rows
      && users.rows[r.value.id].email == email
      && r.value.role == users.rows[r.value.id].role && r.value.branchId == users.rows[r.value.id].branchId
    ensures r.Fail? && email != "" && password != "" ==> r == Fail(InvalidCredentials)
  {
    if email == "" || password == "" then Fail(FieldsRequired)
    else match UserWithEmail(users, email)
      case None => Fail(InvalidCredentials)
      case Some(k) =>
        var u := users.rows[k];
        if u.password.None? || u.password.value == "" then Fail(InvalidCredentials)
        else if password != u.password.value then Fail(InvalidCredentials)
        else Done(200, Session(k, u.role, u.branchId))
  }

  /** An account made through a third-party sign-in has no password and cannot
      log in here, whatever is typed. */
  lemma PasswordlessAccountsRefused(users: Table<User>, k: int, password: string)
    requires users.Valid() && UniqueUserEmails(users)
    requires k in users.rows && users.rows[k].password.None?
    ensures Login(users, users.rows[k].email, password).Fail?
  {
  }
}
