/** The persistence layer as one object whose fields are the tables the route
    handlers read and write. */
module Store {
  import opened Wrappers
  import opened Tables
  import opened Domain

  /** Emails are unique among users (the persistence schema looks users up by
      email with `findUnique`). */
  ghost predicate UniqueUserEmails(users: Table<User>) {
    forall j, k :: j in users.rows && k in users.rows && users.rows[j].email == users.rows[k].email ==> j == k
  }

  /** At most one verification record per email. */
  ghost predicate UniqueVerificationEmails(codes: Table<Verification>) {
    forall j, k :: j in codes.rows && k in codes.rows && codes.rows[j].email == codes.rows[k].email ==> j == k
  }

  /** Branch names are unique. */
  ghost predicate UniqueBranchNames(branches: Table<Branch>) {
    forall j, k :: j in branches.rows && k in branches.rows && branches.rows[j].name == branches.rows[k].name ==> j == k
  }

  /** Every draft refers to a stored property. */
  ghost predicate DraftsReferToProperties(drafts: Table<LeaseDraft>, properties: Table<Property>) {
    forall d :: d in drafts.rows ==> drafts.rows[d].propertyId in properties.rows
  }

  /** Every lease refers to a stored draft. */
  ghost predicate LeasesReferToDrafts(leases: Table<Lease>, drafts: Table<LeaseDraft>) {
    forall l :: l in leases.rows ==> leases.rows[l].draftId in drafts.rows
  }

  class Db {
    var properties: Table<Property>
    var drafts: Table<LeaseDraft>
    var leases: Table<Lease>
    var negotiations: Table<Negotiation>
    var viewRequests: Table<ViewRequest>
    var users: Table<User>
    var applications: Table<StaffApplication>
    var verifications: Table<Verification>
    var branches: Table<Branch>

    ghost predicate Valid()
      reads this
    {
      && properties.Valid() && drafts.Valid() && leases.Valid() && negotiations.Valid()
      && viewRequests.Valid() && users.Valid() && applications.Valid()
      && verifications.Valid() && branches.Valid()
      && DraftsReferToProperties(drafts, properties)
      && LeasesReferToDrafts(leases, drafts)
      && UniqueUserEmails(users)
      && UniqueVerificationEmails(verifications)
      && UniqueBranchNames(branches)
    }

    /** An empty database. */
    constructor ()
      ensures Valid()
      ensures properties.rows == map[] && drafts.rows == map[] && leases.rows == map[]
      ensures negotiations.rows == map[] && viewRequests.rows == map[] && users.rows == map[]
      ensures applications.rows == map[] && verifications.rows == map[] && branches.rows == map[]
    {
      properties := EmptyTable();
      drafts := EmptyTable();
      leases := EmptyTable();
      negotiations := EmptyTable();
      viewRequests := EmptyTable();
      users := EmptyTable();
      applications := EmptyTable();
      verifications := EmptyTable();
      branches := EmptyTable();
    }
  }

  /** The id of the user with this email, if any. */
  function UserWithEmail(users: Table<User>, email: string): (o: Option<int>)
    requires users.Valid()
    ensures o.Some? ==> o.value in users.rows && users.rows[o.value].email == email
    ensures o.None? <==> forall k :: k in users.rows ==> users.rows[k].email != email
  {
    users.FindFirst((u: User) => u.email == email)
  }

  /** The id of the verification record for this email, if any. */
  function VerificationWithEmail(codes: Table<Verification>, email: string): (o: Option<int>)
    requires codes.Valid()
    ensures o.Some? ==> o.value in codes.rows && codes.rows[o.value].email == email
    ensures o.None? <==> forall k :: k in codes.rows ==> codes.rows[k].email != email
  {
    codes.FindFirst((v: Verification) => v.email == email)
  }

  /** The id of the branch with this name, if any. */
  function BranchWithName(branches: Table<Branch>, name: string): (o: Option<int>)
    requires branches.Valid()
    ensures o.Some? ==> o.value in branches.rows && branches.rows[o.value].name == name
    ensures o.None? <==> forall k :: k in branches.rows ==> branches.rows[k].name != name
  {
    branches.FindFirst((b: Branch) => b.name == name)
  }
}
