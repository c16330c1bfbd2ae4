/** /api/leases/schedule: clients ask for a viewing (POST, with every
    validation error reported together); managers set a request's status (PUT). */
module ScheduleRoute {
  import opened Wrappers
  import opened Json
  import opened Tables
  import opened Domain
  import opened Store
  import Text

  const InvalidPropertyId: string := "Invalid property ID"
  const MessageTooShort: string := "Message must be at least 10 characters"
  const InvalidDate: string := "Invalid date format"

  const ValidationFailed := Refusal(400, "Validation failed")
  const NoAgent := Refusal(404, "Property not found or missing agent")
  const ManagerRequired := Refusal(403, "Unauthorized - Manager access required")
  const IdAndStatusRequired := Refusal(400, "Request ID and status are required")
  const InternalError := Refusal(500, "Internal server error")
  const MinMessageLength := 10

  /** A truthy number of at least 1. */
  predicate PropertyIdOk(v: Option<Json>) {
    v.Some? && v.value.JNum? && v.value.n >= 1
  }

  /** A string whose JavaScript `length` (in UTF-16 code units) is at least ten. */
  predicate MessageOk(v: Option<Json>) {
    v.Some? && v.value.JStr? && Text.Utf16Length(v.value.s) >= MinMessageLength
  }

  /** A non-empty string that `Date.parse` accepts (`dateParses`). */
  predicate ScheduledTimeOk(v: Option<Json>, dateParses: string -> bool) {
    v.Some? && v.value.JStr? && v.value.s != "" && dateParses(v.value.s)
  }

  /** Position of each message in the report. */
  function Rank(m: string): int {
    if m == InvalidPropertyId then 0 else if m == MessageTooShort then 1 else 2
  }

  /** The validation report: all three checks run, and each failure adds its
      message, in the order the checks are written. */
  function Errors(propertyId: Option<Json>, message: Option<Json>, scheduledTime: Option<Json>, dateParses: string -> bool)
    : (errors: seq<string>)
    ensures InvalidPropertyId in errors <==> !PropertyIdOk(propertyId)
    ensures MessageTooShort in errors <==> !MessageOk(message)
    ensures InvalidDate in errors <==> !ScheduledTimeOk(scheduledTime, dateParses)
    ensures forall m :: m in errors ==> m in {InvalidPropertyId, MessageTooShort, InvalidDate}
    ensures forall i, j :: 0 <= i < j < |errors| ==> Rank(errors[i]) < Rank(errors[j])
    ensures |errors| == 0 <==>
      PropertyIdOk(propertyId) && MessageOk(message) && ScheduledTimeOk(scheduledTime, dateParses)
  {
    (if PropertyIdOk(propertyId) then [] else [InvalidPropertyId])
    + (if MessageOk(message) then [] else [MessageTooShort])
    + (if ScheduledTimeOk(scheduledTime, dateParses) then [] else [InvalidDate])
  }

  /** The `errors.push` sequence of the handler. */
  method CollectErrors(propertyId: Option<Json>, message: Option<Json>, scheduledTime: Option<Json>, dateParses: string -> bool)
    returns (errors: seq<string>)
    ensures errors == Errors(propertyId, message, scheduledTime, dateParses)
  {
    var first: seq<string> := if PropertyIdOk(propertyId) then [] else [InvalidPropertyId];
    var second: seq<string> := if MessageOk(message) then [] else [MessageTooShort];
    var third: seq<string> := if ScheduledTimeOk(scheduledTime, dateParses) then [] else [InvalidDate];
    errors := [];
    if !PropertyIdOk(propertyId) {
      errors := errors + [InvalidPropertyId];
    }
    assert errors == first;
    if !MessageOk(message) {
      errors := errors + [MessageTooShort];
    }
    assert errors == first + second;
    if !ScheduledTimeOk(scheduledTime, dateParses) {
      errors := errors + [InvalidDate];
    }
    assert errors == first + second + third;
  }

  /** Length is counted in UTF-16 code units: five emoji make a long enough
      message, although they are only five characters. */
  lemma AstralCharactersCountTwice()
    ensures MessageOk(Some(JStr("\U{1F600}\U{1F600}\U{1F600}\U{1F600}\U{1F600}")))
  {
    var s := "\U{1F600}\U{1F600}\U{1F600}\U{1F600}\U{1F600}";
    assert |s| == 5;
    assert Text.Utf16Length(s) == 10;
  }

  /** The property's agent when it is truthy. */
  function AgentOf(properties: Table<Property>, id: int): (a: Option<int>)
    ensures a.Some? <==> id in properties.rows && properties.rows[id].agentId.Some? && properties.rows[id].agentId.value != 0
    ensures a.Some? ==> properties.rows[id].agentId == Some(a.value)
  {
    if id in properties.rows && properties.rows[id].agentId.Some? && properties.rows[id].agentId.value != 0
    then properties.rows[id].agentId else None
  }

  /** POST. `details` is the list of validation errors reported with a 400. */
  method RequestViewing(db: Db, auth: Principal, propertyId: Option<Json>, message: Option<Json>,
                        scheduledTime: Option<Json>, dateParses: string -> bool)
    returns (r: Reply<int>, details: seq<string>)
    requires db.Valid()
    modifies db`viewRequests
    ensures db.Valid()
    ensures details == Errors(propertyId, message, scheduledTime, dateParses)
    ensures r == Fail(ValidationFailed) <==> |details| > 0
    ensures r.Fail? ==> db.viewRequests == old(db.viewRequests)
    ensures |details| == 0 ==>
      r == (if AgentOf(db.properties, propertyId.value.n).None? then Fail(NoAgent) else Done(201, old(db.viewRequests.next)))
    ensures r.Done? ==> db.viewRequests == old(db.viewRequests).Insert(
      ViewRequest(auth.id, propertyId.value.n, AgentOf(db.properties, propertyId.value.n).value,
                  StatusPending, scheduledTime.value.s, message.value.s))
  {
    details := CollectErrors(propertyId, message, scheduledTime, dateParses);
    if |details| > 0 {
      return Fail(ValidationFailed), details;
    }
    var pid := propertyId.value.n;
    var agent := AgentOf(db.properties, pid);
    if agent.None? {
      return Fail(NoAgent), details;
    }
    var id := db.viewRequests.next;
    db.viewRequests := db.viewRequests.Insert(
      ViewRequest(auth.id, pid, agent.value, StatusPending, scheduledTime.value.s, message.value.s));
    return Done(201, id), details;
  }

  /** PUT. A request id of 0 or an empty status counts as missing; an unknown id
      makes the update throw. The status is stored as given. */
  method UpdateViewing(db: Db, auth: Principal, requestId: int, status: string) returns (r: Reply<()>)
    requires db.Valid()
    modifies db`viewRequests
    ensures db.Valid()
    ensures auth.role != "manager" ==> r == Fail(ManagerRequired)
    ensures auth.role == "manager" && (requestId == 0 || status == "") ==> r == Fail(IdAndStatusRequired)
    ensures auth.role == "manager" && requestId != 0 && status != "" && requestId !in old(db.viewRequests.rows) ==>
      r == Fail(InternalError)
    ensures r.Fail? ==> db.viewRequests == old(db.viewRequests)
    ensures r.Done? <==> auth.role == "manager" && requestId != 0 && status != "" && requestId in old(db.viewRequests.rows)
    ensures r.Done? ==> r.code == 200
    ensures r.Done? ==> db.viewRequests == old(db.viewRequests).Update(requestId, old(db.viewRequests.rows[requestId]).(status := status))
  {
    if auth.role != "manager" {
      return Fail(ManagerRequired);
    }
    if requestId == 0 || status == "" {
      return Fail(IdAndStatusRequired);
    }
    var request := db.viewRequests.Get(requestId);
    if request.None? {
      return Fail(InternalError);
    }
    db.viewRequests := db.viewRequests.Update(requestId, request.value.(status := status));
    return Done(200, ());
  }
}
