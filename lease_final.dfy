/** POST /api/leases/final: turn a draft into a lease. Three plain writes in a
    row: the lease insert, the property update and the draft update. */
module FinalRoute {
  import opened Wrappers
  import opened Json
  import opened Tables
  import opened Domain
  import opened Store
  import DraftRoute

  const DraftNotFound := Refusal(404, "Draft not found")
  const FinalizeFailed := Refusal(500, "Failed to finalize lease")

  /** The terms' `dates.start`, read through optional chaining. */
  function StartOf(terms: Json): Option<Json> {
    Member(Member(Some(terms), "dates"), "start")
  }

  /** The lease insert accepts the terms' start: it is falsy, so the current
      time is used, or `new Date` makes a valid date of it (`dateValid`). An
      Invalid Date makes the insert throw. */
  predicate StartAccepted(terms: Json, dateValid: Json -> bool) {
    !Truthy(StartOf(terms)) || dateValid(StartOf(terms).value)
  }

  /** The failure of finalizing `draftId`, if any: an unknown draft, then a
      start date the lease insert refuses, which the catch turns into 500. */
  function FinalizeRefusal(drafts: Table<LeaseDraft>, draftId: int, dateValid: Json -> bool): (e: Option<Refusal>)
    ensures e.None? <==> draftId in drafts.rows && StartAccepted(drafts.rows[draftId].currentTerms, dateValid)
    ensures e == Some(DraftNotFound) <==> draftId !in drafts.rows
    ensures e == Some(FinalizeFailed) <==>
      draftId in drafts.rows && !StartAccepted(drafts.rows[draftId].currentTerms, dateValid)
  {
    if draftId !in drafts.rows then Some(DraftNotFound)
    else if !StartAccepted(drafts.rows[draftId].currentTerms, dateValid) then Some(FinalizeFailed)
    else None
  }

  /** `dates.start` of the terms when it is truthy, else the current time. */
  function ActiveFromOf(terms: Json, now: int): (a: ActiveFrom)
    ensures Truthy(Member(Member(Some(terms), "dates"), "start")) ==>
      a == StartDate(Member(Member(Some(terms), "dates"), "start").value)
    ensures !Truthy(Member(Member(Some(terms), "dates"), "start")) ==> a == Instant(now)
  {
    var start := Member(Member(Some(terms), "dates"), "start");
    if Truthy(start) then StartDate(start.value) else Instant(now)
  }

  /** The lease finalizing draft `d` inserts: the draft's current terms, and no
      signatures. */
  function LeaseFor(draftId: int, d: LeaseDraft, now: int): (l: Lease)
    ensures l.draftId == draftId && l.finalTerms == d.currentTerms
    ensures !l.signedByClient && !l.signedByAgent
  {
    Lease(draftId, d.currentTerms, ActiveFromOf(d.currentTerms, now), false, false)
  }

  /** The handler. Only the draft's existence and its start date are
      checked: its status is not consulted, so any draft, in any status, can
      be finalized (again). `now` is the current time in milliseconds. The
      lease insert is the first write, so a refused start date leaves every
      table as it was. */
  method FinalizeLease(db: Db, draftId: int, now: int, dateValid: Json -> bool) returns (r: Reply<int>)
    requires db.Valid()
    modifies db`leases, db`properties, db`drafts
    ensures db.Valid()
    ensures r == ReplyOf(FinalizeRefusal(old(db.drafts), draftId, dateValid), 201, old(db.leases.next))
    ensures r.Fail? ==>
      db.leases == old(db.leases) && db.properties == old(db.properties) && db.drafts == old(db.drafts)
    ensures r.Done? ==>
      var d := old(db.drafts.rows[draftId]);
      && db.leases == old(db.leases).Insert(LeaseFor(draftId, d, now))
      && d.propertyId in old(db.properties.rows)
      && db.properties == old(db.properties).Update(d.propertyId, old(db.properties.rows[d.propertyId]).(status := Rented))
      && db.drafts == old(db.drafts).Update(draftId, d.(status := StatusSigned))
  {
    var found := db.drafts.Get(draftId);
    if found.None? {
      return Fail(DraftNotFound);
    }
    var d := found.value;
    if !StartAccepted(d.currentTerms, dateValid) {
      return Fail(FinalizeFailed);
    }
    var leaseId := db.leases.next;
    db.leases := db.leases.Insert(LeaseFor(draftId, d, now));
    var property := db.properties.rows[d.propertyId];
    db.properties := db.properties.Update(d.propertyId, property.(status := Rented));
    db.drafts := db.drafts.Update(draftId, d.(status := StatusSigned));
    return Done(201, leaseId);
  }

  /** Once finalized, the property refuses every new draft as unavailable. */
  lemma RentedPropertyTakesNoDraft(properties: Table<Property>, propertyId: int, clientId: int, terms: Json)
    requires propertyId in properties.rows
    requires propertyId != 0 && clientId != 0 && Truthy(Some(terms))
    ensures var after := properties.Update(propertyId, properties.rows[propertyId].(status := Rented));
      DraftRoute.DraftRefusal(after, propertyId, clientId, Some(terms)) == Some(DraftRoute.NotAvailable)
  {
  }

  /** The terms a successful draft creation stores carry a truthy start date,
      so a lease finalized from that draft is active from that date, not from
      the moment of finalization; and finalization succeeds exactly when
      `new Date` accepts that date. */
  lemma DraftTermsGiveStartDate(terms: Json, now: int, dateValid: Json -> bool)
    requires DraftRoute.TermsShapeOk(terms)
    ensures ActiveFromOf(terms, now) == StartDate(StartOf(terms).value)
    ensures StartAccepted(terms, dateValid) <==> dateValid(StartOf(terms).value)
  {
  }
}
