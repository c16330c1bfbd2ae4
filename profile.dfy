/** GET /api/profile: a read-only, role-dependent view of the tables. Rows are
    reported by id; the projections onto display fields are left out. */
module ProfileRoute {
  import opened Wrappers
  import opened Tables
  import opened Domain

  const AuthRequired := Refusal(401, "Authentication required")
  const UserNotFound := Refusal(404, "User not found")
  const InvalidRole := Refusal(401, "Unauthorized - Invalid role")

  /** The tables the view reads. */
  datatype Snapshot = Snapshot(
    users: Table<User>, properties: Table<Property>, drafts: Table<LeaseDraft>,
    leases: Table<Lease>, applications: Table<StaffApplication>, viewRequests: Table<ViewRequest>)

  /** The response body; None is a field left undefined. */
  datatype ProfileView = ProfileView(
    user: int,
    leases: Option<set<int>>, leaseDrafts: Option<set<int>>, properties: Option<set<int>>,
    staffApplications: Option<set<int>>, pendingProperties: Option<set<int>>,
    assistants: Option<set<int>>, viewRequests: Option<set<int>>)

  /** Drafts of a client. */
  function ClientDrafts(drafts: Table<LeaseDraft>, client: int): set<int> {
    set k | k in drafts.rows && drafts.rows[k].clientId == client
  }

  /** Leases whose draft belongs to a client. */
  function ClientLeases(leases: Table<Lease>, drafts: Table<LeaseDraft>, client: int): set<int> {
    set k | k in leases.rows && leases.rows[k].draftId in drafts.rows
      && drafts.rows[leases.rows[k].draftId].clientId == client
  }

  /** Properties of a branch with a given listing status. */
  function BranchProperties(properties: Table<Property>, branch: Option<int>, status: PropertyStatus): set<int> {
    set k | k in properties.rows && properties.rows[k].branchId == branch && properties.rows[k].status == status
  }

  predicate InBranch(properties: Table<Property>, propertyId: int, branch: Option<int>) {
    propertyId in properties.rows && properties.rows[propertyId].branchId == branch
  }

  /** The draft statuses staff are shown. */
  predicate StaffVisibleStatus(status: string) {
    status == StatusDraft || status == StatusClientReview || status == StatusManagerReview
  }

  /** Open drafts on properties of a branch. */
  function BranchDrafts(drafts: Table<LeaseDraft>, properties: Table<Property>, branch: Option<int>): set<int> {
    set k | k in drafts.rows && InBranch(properties, drafts.rows[k].propertyId, branch)
      && StaffVisibleStatus(drafts.rows[k].status)
  }

  /** Leases whose draft's property is in a branch. */
  function BranchLeases(leases: Table<Lease>, drafts: Table<LeaseDraft>, properties: Table<Property>, branch: Option<int>): set<int> {
    set k | k in leases.rows && leases.rows[k].draftId in drafts.rows
      && InBranch(properties, drafts.rows[leases.rows[k].draftId].propertyId, branch)
  }

  function PendingApplications(apps: Table<StaffApplication>, branch: Option<int>): set<int> {
    set k | k in apps.rows && Some(apps.rows[k].branchId) == branch && apps.rows[k].status == StatusPending
  }

  function BranchAssistants(users: Table<User>, branch: Option<int>): set<int> {
    set k | k in users.rows && users.rows[k].role == Assistant && users.rows[k].branchId == branch
  }

  function PendingViewRequests(requests: Table<ViewRequest>, properties: Table<Property>, branch: Option<int>): set<int> {
    set k | k in requests.rows && InBranch(properties, requests.rows[k].propertyId, branch)
      && requests.rows[k].status == StatusPending
  }

  function IfManager(role: string, s: set<int>): Option<set<int>> {
    if role == "manager" then Some(s) else None
  }

  /** The role switch. A null principal is refused first; every known role then
      needs its own user row. */
  function Profile(db: Snapshot, auth: Option<Principal>): (r: Reply<ProfileView>)
    ensures auth.None? ==> r == Fail(AuthRequired)
    ensures auth.Some? && auth.value.role !in {"client", "manager", "supervisor", "assistant", "owner"} ==>
      r == Fail(InvalidRole)
    ensures auth.Some? && ParseRole(auth.value.role).Some? ==>
      (r == Fail(UserNotFound) <==> auth.value.id !in db.users.rows)
    ensures r.Done? ==> r.code == 200 && r.value.user == auth.value.id
    ensures r.Done? ==> (auth.value.role != "client" <==> r.value.properties.Some?)
    // The four manager-only fields.
    ensures r.Done? ==>
      (auth.value.role == "manager" <==> r.value.staffApplications.Some?) &&
      (auth.value.role == "manager" <==> r.value.pendingProperties.Some?) &&
      (auth.value.role == "manager" <==> r.value.assistants.Some?) &&
      (auth.value.role == "manager" <==> r.value.viewRequests.Some?)
    // Supervisors and owners see neither drafts nor leases.
    ensures r.Done? ==>
      (auth.value.role in {"client", "manager", "assistant"} <==> r.value.leaseDrafts.Some?) &&
      (auth.value.role in {"client", "manager", "assistant"} <==> r.value.leases.Some?)
  {
    if auth.None? then Fail(AuthRequired)
    else
      var p := auth.value;
      if p.role == "client" then
        if p.id !in db.users.rows then Fail(UserNotFound)
        else Done(200, ProfileView(p.id,
          Some(ClientLeases(db.leases, db.drafts, p.id)), Some(ClientDrafts(db.drafts, p.id)),
          None, None, None, None, None))
      else if p.role == "manager" || p.role == "supervisor" || p.role == "assistant" then
        if p.id !in db.users.rows then Fail(UserNotFound)
        else
          var seesLeases := p.role == "assistant" || p.role == "manager";
          Done(200, ProfileView(p.id,
            if seesLeases then Some(BranchLeases(db.leases, db.drafts, db.properties, p.branchId)) else None,
            if seesLeases then Some(BranchDrafts(db.drafts, db.properties, p.branchId)) else None,
            Some(BranchProperties(db.properties, p.branchId, Approved)),
            IfManager(p.role, PendingApplications(db.applications, p.branchId)),
            IfManager(p.role, BranchProperties(db.properties, p.branchId, Pending)),
            IfManager(p.role, BranchAssistants(db.users, p.branchId)),
            IfManager(p.role, PendingViewRequests(db.viewRequests, db.properties, p.branchId))))
      else if p.role == "owner" then
        if p.id !in db.users.rows then Fail(UserNotFound)
        else Done(200, ProfileView(p.id, None, None,
          Some(set k | k in db.properties.rows && db.properties.rows[k].agentId == Some(p.id)),
          None, None, None, None))
      else Fail(InvalidRole)
  }

  /** What a client sees is exactly its own drafts, and the leases made from
      them. */
  lemma ClientSeesOwnRows(db: Snapshot, p: Principal)
    requires p.role == "client" && p.id in db.users.rows
    ensures var v := Profile(db, Some(p)).value;
      && (forall k :: k in v.leaseDrafts.value <==> k in db.drafts.rows && db.drafts.rows[k].clientId == p.id)
      && (forall k :: k in v.leases.value <==>
            k in db.leases.rows && db.leases.rows[k].draftId in db.drafts.rows
            && db.drafts.rows[db.leases.rows[k].draftId].clientId == p.id)
  {
  }

  /** Staff property lists hold only approved properties of their own branch. */
  lemma StaffSeeApprovedBranchProperties(db: Snapshot, p: Principal, k: int)
    requires p.role in {"manager", "supervisor", "assistant"} && p.id in db.users.rows
    ensures k in Profile(db, Some(p)).value.properties.value <==>
      k in db.properties.rows && db.properties.rows[k].status == Approved && db.properties.rows[k].branchId == p.branchId
  {
  }

  /** Assistants and managers see exactly the drafts on their branch's
      properties that are still open: `draft`, `client_review` or
      `manager_review`. */
  lemma StaffSeeOpenBranchDrafts(db: Snapshot, p: Principal, k: int)
    requires p.role in {"manager", "assistant"} && p.id in db.users.rows
    ensures k in Profile(db, Some(p)).value.leaseDrafts.value <==>
      && k in db.drafts.rows
      && db.drafts.rows[k].propertyId in db.properties.rows
      && db.properties.rows[db.drafts.rows[k].propertyId].branchId == p.branchId
      && db.drafts.rows[k].status in {StatusDraft, StatusClientReview, StatusManagerReview}
  {
  }

  /** Assistants and managers see exactly the leases whose draft is on a
      property of their branch, in any status. */
  lemma StaffSeeBranchLeases(db: Snapshot, p: Principal, k: int)
    requires p.role in {"manager", "assistant"} && p.id in db.users.rows
    ensures k in Profile(db, Some(p)).value.leases.value <==>
      && k in db.leases.rows
      && db.leases.rows[k].draftId in db.drafts.rows
      && db.drafts.rows[db.leases.rows[k].draftId].propertyId in db.properties.rows
      && db.properties.rows[db.drafts.rows[db.leases.rows[k].draftId].propertyId].branchId == p.branchId
  {
  }

  /** A manager's four queues: the branch's pending staff applications, its
      pending listings, its assistants and the pending viewing requests on its
      properties. */
  lemma ManagerSeesBranchQueues(db: Snapshot, p: Principal, k: int)
    requires p.role == "manager" && p.id in db.users.rows
    ensures var v := Profile(db, Some(p)).value;
      && (k in v.staffApplications.value <==>
            k in db.applications.rows && Some(db.applications.rows[k].branchId) == p.branchId
            && db.applications.rows[k].status == "pending")
      && (k in v.pendingProperties.value <==>
            k in db.properties.rows && db.properties.rows[k].branchId == p.branchId
            && db.properties.rows[k].status == Pending)
      && (k in v.assistants.value <==>
            k in db.users.rows && db.users.rows[k].role == Assistant && db.users.rows[k].branchId == p.branchId)
      && (k in v.viewRequests.value <==>
            && k in db.viewRequests.rows
            && db.viewRequests.rows[k].propertyId in db.properties.rows
            && db.properties.rows[db.viewRequests.rows[k].propertyId].branchId == p.branchId
            && db.viewRequests.rows[k].status == "pending")
  {
  }

  /** An owner's list is exactly the properties it is the agent of, in any
      branch and any status. */
  lemma OwnerSeesOwnProperties(db: Snapshot, p: Principal, k: int)
    requires p.role == "owner" && p.id in db.users.rows
    ensures k in Profile(db, Some(p)).value.properties.value <==>
      k in db.properties.rows && db.properties.rows[k].agentId == Some(p.id)
  {
  }

  /** A new draft shows up on its client's profile and on nobody else's. */
  lemma {:induction false} NewDraftVisibleToItsClient(drafts: Table<LeaseDraft>, d: LeaseDraft, client: int)
    requires drafts.Valid()
    ensures ClientDrafts(drafts.Insert(d), client) ==
      if d.clientId == client then ClientDrafts(drafts, client) + {drafts.next} else ClientDrafts(drafts, client)
  {
    var after := drafts.Insert(d);
    if d.clientId == client {
      forall k | k in ClientDrafts(after, client)
        ensures k in ClientDrafts(drafts, client) + {drafts.next}
      {
      }
    }
  }

  /** Moving a draft to `signed` takes it off the staff draft list... */
  lemma SignedDraftLeavesStaffList(drafts: Table<LeaseDraft>, properties: Table<Property>, branch: Option<int>, id: int)
    requires id in drafts.rows
    ensures var after := drafts.Update(id, drafts.rows[id].(status := StatusSigned));
      BranchDrafts(after, properties, branch) == BranchDrafts(drafts, properties, branch) - {id}
  {
    var after := drafts.Update(id, drafts.rows[id].(status := StatusSigned));
    assert !StaffVisibleStatus(StatusSigned);
    assert id !in BranchDrafts(after, properties, branch);
  }

  /** ... and renting the property takes it off the staff property list. */
  lemma RentedPropertyLeavesStaffList(properties: Table<Property>, branch: Option<int>, id: int)
    requires id in properties.rows
    ensures var after := properties.Update(id, properties.rows[id].(status := Rented));
      BranchProperties(after, branch, Approved) == BranchProperties(properties, branch, Approved) - {id}
  {
    var after := properties.Update(id, properties.rows[id].(status := Rented));
    assert id !in BranchProperties(after, branch, Approved);
  }

  /** A lease made from a client's draft is on that client's lease list. */
  lemma NewLeaseVisibleToClient(leases: Table<Lease>, drafts: Table<LeaseDraft>, l: Lease)
    requires l.draftId in drafts.rows
    ensures leases.next in ClientLeases(leases.Insert(l), drafts, drafts.rows[l.draftId].clientId)
  {
  }
}
