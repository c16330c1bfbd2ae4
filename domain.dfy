/** The entities of the rental marketplace as stored rows, the authenticated
    principal, and the reply a route handler gives. */
module Domain {
  import opened Wrappers
  import opened Json

  /** The five account roles. */
  datatype Role = Client | Owner | Manager | Assistant | Supervisor

  function RoleName(r: Role): string {
    match r
    case Client => "client"
    case Owner => "owner"
    case Manager => "manager"
    case Assistant => "assistant"
    case Supervisor => "supervisor"
  }

  /** The role a role string names, if any. */
  function ParseRole(s: string): (r: Option<Role>)
    ensures r.Some? <==> s in {"client", "owner", "manager", "assistant", "supervisor"}
    ensures r.Some? ==> RoleName(r.value) == s
  {
    if s == "client" then Some(Client)
    else if s == "owner" then Some(Owner)
    else if s == "manager" then Some(Manager)
    else if s == "assistant" then Some(Assistant)
    else if s == "supervisor" then Some(Supervisor)
    else None
  }

  /** The request's authenticated principal. Its role is the string the token
      carries, which need not name one of the five roles. */
  datatype Principal = Principal(id: int, role: string, branchId: Option<int>)

  /** Listing statuses. */
  datatype PropertyStatus = Pending | Approved | Rejected | Sold | Rented

  /** Lease-draft status strings the routes write or filter on. */
  const StatusDraft: string := "draft"
  const StatusClientReview: string := "client_review"
  const StatusManagerReview: string := "manager_review"
  const StatusSigned: string := "signed"
  /** Status of a new negotiation, view request or staff application. */
  const StatusPending: string := "pending"

  datatype Property = Property(
    title: string, description: string, address: string, city: string,
    price: int, bedrooms: int, bathrooms: int, sqft: int, yearBuilt: int,
    latitude: Option<int>, longitude: Option<int>,
    status: PropertyStatus, branchId: Option<int>, agentId: Option<int>)

  datatype LeaseDraft = LeaseDraft(
    propertyId: int, clientId: int, currentTerms: Json, status: string, version: int)

  /** `activeFrom`: the date read from the terms, or the moment of finalization. */
  datatype ActiveFrom = StartDate(start: Json) | Instant(ms: int)

  datatype Lease = Lease(
    draftId: int, finalTerms: Json, activeFrom: ActiveFrom,
    signedByClient: bool, signedByAgent: bool)

  datatype Negotiation = Negotiation(
    draftId: int, proposedTerms: Json, clientId: int, staffId: int,
    message: Option<string>, status: string)

  datatype ViewRequest = ViewRequest(
    clientId: int, propertyId: int, assistantId: int, status: string,
    scheduledTime: string, message: string)

  /** `password` is absent for accounts created through a third-party sign-in;
      `emailVerified` is the moment the email was verified. */
  datatype User = User(
    name: string, email: string, password: Option<string>, role: Role,
    branchId: Option<int>, emailVerified: Option<int>)

  datatype StaffApplication = StaffApplication(
    name: string, email: string, tempPassword: string, role: Role, branchId: int, status: string)

  /** A pending sign-up code; `expireAt` is in milliseconds. */
  datatype Verification = Verification(email: string, code: string, expireAt: int)

  datatype Branch = Branch(name: string, location: string)

  /** An error response: HTTP status and message. */
  datatype Refusal = Refusal(code: int, message: string)

  /** A route's response: success with a status and a payload, or an error. */
  datatype Reply<T> = Done(code: int, value: T) | Fail(refusal: Refusal)

  /** The reply for the first failing guard, or success. */
  function ReplyOf<T>(guard: Option<Refusal>, code: int, value: T): (r: Reply<T>)
    ensures guard.Some? ==> r == Fail(guard.value)
    ensures guard.None? ==> r == Done(code, value)
  {
    if guard.Some? then Fail(guard.value) else Done(code, value)
  }
}
