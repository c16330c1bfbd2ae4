/** POST /api/auth/login: the older login over separate client and staff
    account tables. Token issuing is not modelled. */
module LegacyLoginRoute {
  import opened Wrappers
  import opened Domain

  const MissingFields := Refusal(400, "Missing required fields")
  const InvalidCredentials := Refusal(401, "Invalid credentials")

  /** A row of either account table. */
  datatype Account = Account(id: int, email: string, password: string, role: string)

  /** The first account with this email, in table order. */
  function FirstWithEmail(accounts: seq<Account>, email: string): (o: Option<Account>)
    ensures o.None? <==> forall i :: 0 <= i < |accounts| ==> accounts[i].email != email
    ensures o.Some? ==> exists i ::
      && 0 <= i < |accounts| && accounts[i] == o.value
      && (forall j :: 0 <= j < i ==> accounts[j].email != email)
    ensures o.Some? ==> o.value.email == email
    decreases |accounts|
  {
    if |accounts| == 0 then None
    else if accounts[0].email == email then Some(accounts[0])
    else
      var rest := FirstWithEmail(accounts[1..], email);
      assert forall i :: 1 <= i < |accounts| ==> accounts[i] == accounts[1..][i - 1];
      if rest.Some? then
        var i :| 0 <= i < |accounts[1..]| && accounts[1..][i] == rest.value
          && (forall j :: 0 <= j < i ==> accounts[1..][j].email != email);
        assert accounts[i + 1] == rest.value;
        rest
      else rest
  }

  /** The account found: clients first, staff only when no client has the
      email. */
  function Lookup(clients: seq<Account>, staff: seq<Account>, email: string): (o: Option<Account>)
    ensures FirstWithEmail(clients, email).Some? ==> o == FirstWithEmail(clients, email)
    ensures FirstWithEmail(clients, email).None? ==> o == FirstWithEmail(staff, email)
  {
    var c := FirstWithEmail(clients, email);
    if c.Some? then c else FirstWithEmail(staff, email)
  }

  function Login(clients: seq<Account>, staff: seq<Account>, email: string, password: string): (r: Reply<Account>)
    ensures (email == "" || password == "") ==> r == Fail(MissingFields)
    ensures r.Done? <==>
      && email != "" && password != "" && Lookup(clients, staff, email).Some?
      && Lookup(clients, staff, email).value.password == password
    ensures r.Done? ==> r.code == 200 && r.value == Lookup(clients, staff, email).value
    ensures r.Fail? && email != "" && password != "" ==> r == Fail(InvalidCredentials)
  {
    if email == "" || password == "" then Fail(MissingFields)
    else match Lookup(clients, staff, email)
      case None => Fail(InvalidCredentials)
      case Some(a) => if password == a.password then Done(200, a) else Fail(InvalidCredentials)
  }

  /** A staff account that shares its email with a client account cannot log
      in with its own password unless the two passwords are equal. */
  lemma {:induction false} StaffShadowedByClient(clients: seq<Account>, staff: seq<Account>, i: int, password: string)
    requires 0 <= i < |clients| && clients[i].email != ""
    requires forall j :: 0 <= j < |clients| ==> clients[j].email == clients[i].email ==> clients[j].password != password
    ensures Login(clients, staff, clients[i].email, password).Fail?
  {
    var email := clients[i].email;
    var found := FirstWithEmail(clients, email);
    assert found.Some?;
    var j :| 0 <= j < |clients| && clients[j] == found.value;
    assert clients[j].password != password;
  }
}
