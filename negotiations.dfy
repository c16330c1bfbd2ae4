/** /api/negotiations: the terms validator, client submission of proposed
    terms (POST) and the role-filtered listing (GET). */
module NegotiationsRoute {
  import opened Wrappers
  import opened Json
  import opened Tables
  import opened Domain
  import opened Text
  import opened Store
  import DraftRoute

  const OnlyClients := Refusal(403, "Only clients can initiate negotiations")
  const InvalidTerms := Refusal(400, "Invalid lease terms structure")
  const NotNegotiable := Refusal(400, "Draft not found or not in negotiable state")
  const DraftIdRequired := Refusal(400, "draft_id query parameter is required")
  const FetchFailed := Refusal(500, "Failed to fetch negotiations")

  /** `isLeaseTerms`: a non-null object whose `financial` is a non-null object
      with numeric `rent` and `deposit`, and whose `dates` is a non-null object
      with string `start` and `end`. Nothing else is inspected. */
  predicate IsLeaseTerms(data: Option<Json>) {
    && IsObject(data)
    && IsObject(Member(data, "financial"))
    && IsNumber(Member(Member(data, "financial"), "rent"))
    && IsNumber(Member(Member(data, "financial"), "deposit"))
    && IsObject(Member(data, "dates"))
    && IsString(Member(Member(data, "dates"), "start"))
    && IsString(Member(Member(data, "dates"), "end"))
  }

  /** Terms built from a rent, a deposit and two date strings. */
  function TermsOf(rent: int, deposit: int, start: string, end: string): Json {
    JObj(map[
      "financial" := JObj(map["rent" := JNum(rent), "deposit" := JNum(deposit)]),
      "dates" := JObj(map["start" := JStr(start), "end" := JStr(end)])])
  }

  /** Any numbers and any strings pass: signs, zero rent, empty or unordered
      dates are not checked. */
  lemma AnyTypedTermsAccepted(rent: int, deposit: int, start: string, end: string)
    ensures IsLeaseTerms(Some(TermsOf(rent, deposit, start, end)))
  {
  }

  /** Nothing else than an object passes: absent, null, booleans, numbers,
      strings, and arrays (which have no `financial` member). */
  lemma NonObjectsRejected(data: Option<Json>)
    requires data.None? || !data.value.JObj?
    ensures !IsLeaseTerms(data)
  {
  }

  /** Extra fields are ignored: adding a member other than `financial` and
      `dates` does not change the verdict. */
  lemma ExtraFieldsIgnored(fields: map<string, Json>, key: string, v: Json)
    requires key != "financial" && key != "dates"
    ensures IsLeaseTerms(Some(JObj(fields[key := v]))) == IsLeaseTerms(Some(JObj(fields)))
  {
    assert Member(Some(JObj(fields[key := v])), "financial") == Member(Some(JObj(fields)), "financial");
    assert Member(Some(JObj(fields[key := v])), "dates") == Member(Some(JObj(fields)), "dates");
  }

  /** This validator and the shape test of draft creation disagree in both
      directions: a zero rent passes here only, a non-numeric rent only there. */
  lemma ValidatorsDiffer()
    ensures IsLeaseTerms(Some(TermsOf(0, 0, "2025-01-01", "2025-12-31")))
    ensures !DraftRoute.TermsShapeOk(TermsOf(0, 0, "2025-01-01", "2025-12-31"))
    ensures var t := JObj(map[
      "financial" := JObj(map["rent" := JStr("1000")]),
      "dates" := JObj(map["start" := JStr("2025-01-01"), "end" := JStr("2025-12-31")])]);
      DraftRoute.TermsShapeOk(t) && !IsLeaseTerms(Some(t))
  {
  }

  /** Draft statuses from which a client may submit terms. */
  predicate Negotiable(status: string) {
    status == StatusDraft || status == StatusClientReview
  }

  /** The first failing guard of POST: role, then terms, then the draft. */
  function SubmitRefusal(drafts: Table<LeaseDraft>, auth: Principal, draftId: int, proposedTerms: Option<Json>): (e: Option<Refusal>)
    ensures e.None? <==>
      auth.role == "client" && IsLeaseTerms(proposedTerms)
      && draftId in drafts.rows && Negotiable(drafts.rows[draftId].status)
  {
    if auth.role != "client" then Some(OnlyClients)
    else if !IsLeaseTerms(proposedTerms) then Some(InvalidTerms)
    else if draftId !in drafts.rows || !Negotiable(drafts.rows[draftId].status) then Some(NotNegotiable)
    else None
  }

  /** A non-client is refused without the draft table being consulted. */
  lemma NonClientRefusedFirst(d1: Table<LeaseDraft>, d2: Table<LeaseDraft>, auth: Principal, draftId: int, t: Option<Json>)
    requires auth.role != "client"
    ensures SubmitRefusal(d1, auth, draftId, t) == SubmitRefusal(d2, auth, draftId, t) == Some(OnlyClients)
  {
  }

  /** Malformed terms are refused before the draft is looked up. */
  lemma InvalidTermsRefusedBeforeLookup(d1: Table<LeaseDraft>, d2: Table<LeaseDraft>, auth: Principal, draftId: int, t: Option<Json>)
    requires auth.role == "client" && !IsLeaseTerms(t)
    ensures SubmitRefusal(d1, auth, draftId, t) == SubmitRefusal(d2, auth, draftId, t) == Some(InvalidTerms)
  {
  }

  /** The negotiation a successful submission records: the client stands in
      for the staff member too, and an empty message is stored as null. */
  function NewNegotiation(draftId: int, terms: Json, auth: Principal, message: string): Negotiation {
    Negotiation(draftId, terms, auth.id, auth.id, if message == "" then None else Some(message), StatusPending)
  }

  /** POST: insert a pending negotiation and move the draft to `client_review`.
      The proposed terms are recorded on the negotiation only; the draft's
      terms and version are untouched. Returns the negotiation id. */
  method SubmitNegotiation(db: Db, auth: Principal, draftId: int, proposedTerms: Option<Json>, message: string)
    returns (r: Reply<int>)
    requires db.Valid()
    modifies db`negotiations, db`drafts
    ensures db.Valid()
    ensures r == ReplyOf(SubmitRefusal(old(db.drafts), auth, draftId, proposedTerms), 201, old(db.negotiations.next))
    ensures r.Fail? ==> db.negotiations == old(db.negotiations) && db.drafts == old(db.drafts)
    ensures r.Done? ==>
      && db.negotiations == old(db.negotiations).Insert(NewNegotiation(draftId, proposedTerms.value, auth, message))
      && db.drafts == old(db.drafts).Update(draftId, old(db.drafts.rows[draftId]).(status := StatusClientReview))
  {
    if auth.role != "client" {
      return Fail(OnlyClients);
    }
    if !IsLeaseTerms(proposedTerms) {
      return Fail(InvalidTerms);
    }
    var draft := db.drafts.Get(draftId);
    if draft.None? || !Negotiable(draft.value.status) {
      return Fail(NotNegotiable);
    }
    var id := db.negotiations.next;
    db.negotiations := db.negotiations.Insert(NewNegotiation(draftId, proposedTerms.value, auth, message));
    db.drafts := db.drafts.Update(draftId, draft.value.(status := StatusClientReview));
    return Done(201, id);
  }

  /** After a submission the draft is in `client_review`, from which the client
      may submit again. */
  lemma ResubmissionAllowed(drafts: Table<LeaseDraft>, auth: Principal, draftId: int, t: Option<Json>, t2: Option<Json>)
    requires SubmitRefusal(drafts, auth, draftId, t).None? && IsLeaseTerms(t2)
    ensures SubmitRefusal(drafts.Update(draftId, drafts.rows[draftId].(status := StatusClientReview)), auth, draftId, t2).None?
  {
  }

  /** The query GET builds: the draft, and for a client also the client. */
  datatype Where = Where(draftId: int, clientId: Option<int>)

  predicate Matches(w: Where, n: Negotiation) {
    n.draftId == w.draftId && (w.clientId.Some? ==> n.clientId == w.clientId.value)
  }

  /** GET: the ids of the negotiations of one draft; a client sees only its
      own. A `draft_id` that `parseInt` cannot read is rejected by the
      persistence layer. */
  method ListNegotiations(db: Db, auth: Principal, draftIdParam: string) returns (r: Reply<set<int>>)
    requires db.Valid()
    ensures draftIdParam == "" ==> r == Fail(DraftIdRequired)
    ensures draftIdParam != "" && ParseInt(draftIdParam).None? ==> r == Fail(FetchFailed)
    ensures draftIdParam != "" && ParseInt(draftIdParam).Some? ==> r.Done? && r.code == 200
    ensures r.Done? ==> forall k :: k in r.value <==>
      && k in db.negotiations.rows
      && db.negotiations.rows[k].draftId == ParseInt(draftIdParam).value
      && (auth.role == "client" ==> db.negotiations.rows[k].clientId == auth.id)
  {
    if draftIdParam == "" {
      return Fail(DraftIdRequired);
    }
    var parsed := ParseInt(draftIdParam);
    if parsed.None? {
      return Fail(FetchFailed);
    }
    var w := Where(parsed.value, None);
    if auth.role == "client" {
      w := w.(clientId := Some(auth.id));
    }
    var rows := db.negotiations.rows;
    var found := set k | k in rows && Matches(w, rows[k]);
    return Done(200, found);
  }
}
