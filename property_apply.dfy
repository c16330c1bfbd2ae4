/** POST /api/properties/apply: a client submits a listing, which starts out
    `pending` until staff approve it. */
module ApplyRoute {
  import opened Wrappers
  import opened Json
  import opened Tables
  import opened Domain
  import opened Store
  import DraftRoute

  const InsufficientPermissions := Refusal(403, "Insufficient permissions")
  const MissingFields := Refusal(400, "Missing required fields")

  /** The request body. Strings are "" and numbers 0 when absent (both falsy);
      `latitude` and `longitude` are optional. */
  datatype Application = Application(
    title: string, description: string, address: string, city: string, kind: string,
    price: int, bedrooms: int, bathrooms: int, sqft: int, yearBuilt: int,
    latitude: Option<int>, longitude: Option<int>)

  /** Every required field is truthy. */
  predicate Complete(a: Application) {
    && a.title != "" && a.price != 0 && a.description != "" && a.address != ""
    && a.city != "" && a.bedrooms != 0 && a.bathrooms != 0 && a.sqft != 0
    && a.kind != "" && a.yearBuilt != 0
  }

  function ApplyRefusal(auth: Principal, a: Application): (e: Option<Refusal>)
    ensures e.None? <==> auth.role == "client" && Complete(a)
    ensures auth.role != "client" ==> e == Some(InsufficientPermissions)
  {
    if auth.role != "client" then Some(InsufficientPermissions)
    else if !Complete(a) then Some(MissingFields)
    else None
  }

  /** The stored row: `pending`, in the applicant's branch, with the applicant
      as agent. The listing type is not stored. */
  function NewProperty(auth: Principal, a: Application): (p: Property)
    ensures p.status == Pending && p.branchId == auth.branchId && p.agentId == Some(auth.id)
    ensures p.title == a.title && p.description == a.description
    ensures p.address == a.address && p.city == a.city
    ensures p.price == a.price && p.bedrooms == a.bedrooms && p.bathrooms == a.bathrooms
    ensures p.sqft == a.sqft && p.yearBuilt == a.yearBuilt
    ensures p.latitude == a.latitude && p.longitude == a.longitude
  {
    Property(a.title, a.description, a.address, a.city, a.price, a.bedrooms, a.bathrooms,
      a.sqft, a.yearBuilt, a.latitude, a.longitude, Pending, auth.branchId, Some(auth.id))
  }

  method Apply(db: Db, auth: Principal, a: Application) returns (r: Reply<int>)
    requires db.Valid()
    modifies db`properties
    ensures db.Valid()
    ensures r == ReplyOf(ApplyRefusal(auth, a), 201, old(db.properties.next))
    ensures r.Fail? ==> db.properties == old(db.properties)
    ensures r.Done? ==> db.properties == old(db.properties).Insert(NewProperty(auth, a))
  {
    if auth.role != "client" {
      return Fail(InsufficientPermissions);
    }
    if !Complete(a) {
      return Fail(MissingFields);
    }
    var id := db.properties.next;
    db.properties := db.properties.Insert(NewProperty(auth, a));
    return Done(201, id);
  }

  /** The stored row does not depend on the listing type. */
  lemma TypeNotStored(auth: Principal, a: Application, kind: string)
    ensures NewProperty(auth, a.(kind := kind)) == NewProperty(auth, a)
  {
  }

  /** A price of 0 counts as missing; a negative price does not. */
  lemma ZeroPriceMissingNegativeAccepted(auth: Principal, a: Application)
    requires auth.role == "client" && Complete(a)
    ensures ApplyRefusal(auth, a.(price := 0)) == Some(MissingFields)
    ensures ApplyRefusal(auth, a.(price := -1)).None?
  {
  }

  /** A freshly applied listing cannot be drafted yet: draft creation requires
      an approved property. */
  lemma {:induction false} NewListingNotLeasable(properties: Table<Property>, auth: Principal, a: Application, clientId: int, terms: Json)
    requires properties.Valid() && clientId != 0 && Truthy(Some(terms))
    ensures var after := properties.Insert(NewProperty(auth, a));
      DraftRoute.DraftRefusal(after, properties.next, clientId, Some(terms)) == Some(DraftRoute.NotAvailable)
  {
    var after := properties.Insert(NewProperty(auth, a));
    assert after.rows[properties.next].status == Pending;
  }
}
