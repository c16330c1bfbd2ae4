/** POST /api/leases/draft: create a lease draft for an approved property. */
module DraftRoute {
  import opened Wrappers
  import opened Json
  import opened Tables
  import opened Domain
  import opened Store

  const MissingFields := Refusal(400, "Missing required fields")
  const PropertyNotFound := Refusal(404, "Property not found")
  const NotAvailable := Refusal(400, "Property not available for leasing")
  const InvalidTerms := Refusal(400, "Invalid lease terms structure")

  /** The shape test on the terms: truthy `dates.start`, `dates.end` and
      `financial.rent`. */
  predicate TermsShapeOk(terms: Json) {
    && Truthy(Member(Member(Some(terms), "dates"), "start"))
    && Truthy(Member(Member(Some(terms), "dates"), "end"))
    && Truthy(Member(Member(Some(terms), "financial"), "rent"))
  }

  /** The first failing guard, in the order fields, existence, status, terms.
      Ids are integers with 0 for an absent id; `terms` is `None` when absent. */
  function DraftRefusal(properties: Table<Property>, propertyId: int, clientId: int, terms: Option<Json>): (e: Option<Refusal>)
    ensures e.None? <==>
      && propertyId != 0 && clientId != 0 && Truthy(terms)
      && propertyId in properties.rows && properties.rows[propertyId].status == Approved
      && TermsShapeOk(terms.value)
    ensures e.Some? ==> e.value in {MissingFields, PropertyNotFound, NotAvailable, InvalidTerms}
  {
    if propertyId == 0 || clientId == 0 || !Truthy(terms) then Some(MissingFields)
    else if propertyId !in properties.rows then Some(PropertyNotFound)
    else if properties.rows[propertyId].status != Approved then Some(NotAvailable)
    else if !TermsShapeOk(terms.value) then Some(InvalidTerms)
    else None
  }

  /** The draft a successful request inserts. */
  function NewDraft(propertyId: int, clientId: int, terms: Json): LeaseDraft {
    LeaseDraft(propertyId, clientId, terms, StatusDraft, 1)
  }

  /** The handler: early returns for each guard, then one insert. Property rows
      are never written, so the property stays `approved`. */
  method CreateDraft(db: Db, propertyId: int, clientId: int, terms: Option<Json>) returns (r: Reply<int>)
    requires db.Valid()
    modifies db`drafts
    ensures db.Valid()
    ensures db.properties == old(db.properties)
    ensures r == ReplyOf(DraftRefusal(old(db.properties), propertyId, clientId, terms), 201, old(db.drafts.next))
    ensures r.Fail? ==> db.drafts == old(db.drafts)
    ensures r.Done? ==> db.drafts == old(db.drafts).Insert(NewDraft(propertyId, clientId, terms.value))
  {
    if propertyId == 0 || clientId == 0 || !Truthy(terms) {
      return Fail(MissingFields);
    }
    var property := db.properties.Get(propertyId);
    if property.None? {
      return Fail(PropertyNotFound);
    }
    if property.value.status != Approved {
      return Fail(NotAvailable);
    }
    if !TermsShapeOk(terms.value) {
      return Fail(InvalidTerms);
    }
    var id := db.drafts.next;
    db.drafts := db.drafts.Insert(NewDraft(propertyId, clientId, terms.value));
    return Done(201, id);
  }

  /** A missing field is reported before the property is even looked up. */
  lemma MissingFieldsComeFirst(p1: Table<Property>, p2: Table<Property>, propertyId: int, clientId: int, terms: Option<Json>)
    requires propertyId == 0 || clientId == 0 || !Truthy(terms)
    ensures DraftRefusal(p1, propertyId, clientId, terms) == DraftRefusal(p2, propertyId, clientId, terms) == Some(MissingFields)
  {
  }

  /** Whatever the terms, a present property that is not approved is refused
      as unavailable. */
  lemma UnapprovedPropertyRefused(properties: Table<Property>, propertyId: int, clientId: int, terms: Json)
    requires propertyId != 0 && clientId != 0 && Truthy(Some(terms))
    requires propertyId in properties.rows && properties.rows[propertyId].status != Approved
    ensures DraftRefusal(properties, propertyId, clientId, Some(terms)) == Some(NotAvailable)
  {
  }

  /** A rent of 0 is falsy, so terms with it are refused even on an approved
      property. */
  lemma ZeroRentRefused(properties: Table<Property>, propertyId: int, clientId: int, start: string, end: string)
    requires propertyId != 0 && clientId != 0
    requires propertyId in properties.rows && properties.rows[propertyId].status == Approved
    ensures DraftRefusal(properties, propertyId, clientId,
      Some(JObj(map["dates" := JObj(map["start" := JStr(start), "end" := JStr(end)]),
                    "financial" := JObj(map["rent" := JNum(0)])])))
      == Some(InvalidTerms)
  {
  }
}
