/** POST /api/auth/manual/send-code: store a sign-up code for an email that
    has no account yet. The code is generated elsewhere and passed in; the
    mail itself is not modelled. */
module SendCodeRoute {
  import opened Wrappers
  import opened Tables
  import opened Domain
  import opened Store

  const NoEmail := Refusal(400, "No email provided")
  const UserExists := Refusal(409, "A user already exists with this email")

  /** Ten minutes. */
  const CodeLifetimeMs: int := 1000 * 60 * 10

  function SendRefusal(users: Table<User>, email: string): (e: Option<Refusal>)
    requires users.Valid()
    ensures e.None? <==> email != "" && forall k :: k in users.rows ==> users.rows[k].email != email
    ensures email == "" ==> e == Some(NoEmail)
  {
    if email == "" then Some(NoEmail)
    else if UserWithEmail(users, email).Some? then Some(UserExists)
    else None
  }

  /** The store after an upsert: the email's record now holds the new code and
      expiry; every other record is as it was; still one record per email. */
  function AfterSend(codes: Table<Verification>, email: string, code: string, now: int): (r: Table<Verification>)
    requires codes.Valid() && UniqueVerificationEmails(codes)
    ensures r.Valid() && UniqueVerificationEmails(r)
    ensures VerificationWithEmail(r, email).Some?
    ensures r.rows[VerificationWithEmail(r, email).value] == Verification(email, code, now + CodeLifetimeMs)
    ensures forall j :: j in codes.rows && codes.rows[j].email != email ==> j in r.rows && r.rows[j] == codes.rows[j]
    ensures forall j :: j in r.rows && r.rows[j].email != email ==> j in codes.rows
  {
    match VerificationWithEmail(codes, email)
    case Some(k) => codes.Update(k, codes.rows[k].(code := code, expireAt := now + CodeLifetimeMs))
    case None =>
      var r := codes.Insert(Verification(email, code, now + CodeLifetimeMs));
      assert r.rows[codes.next].email == email;
      r
  }

  method SendCode(db: Db, email: string, code: string, now: int) returns (r: Reply<()>)
    requires db.Valid()
    modifies db`verifications
    ensures db.Valid()
    ensures r == ReplyOf(SendRefusal(db.users, email), 200, ())
    ensures r.Fail? ==> db.verifications == old(db.verifications)
    ensures r.Done? ==> db.verifications == AfterSend(old(db.verifications), email, code, now)
  {
    if email == "" {
      return Fail(NoEmail);
    }
    if UserWithEmail(db.users, email).Some? {
      return Fail(UserExists);
    }
    var expireAt := now + CodeLifetimeMs;
    var existing := VerificationWithEmail(db.verifications, email);
    if existing.Some? {
      var k := existing.value;
      db.verifications := db.verifications.Update(k, db.verifications.rows[k].(code := code, expireAt := expireAt));
    } else {
      db.verifications := db.verifications.Insert(Verification(email, code, expireAt));
    }
    return Done(200, ());
  }

  /** Re-sending keeps the record's id: the existing record is updated, not
      duplicated. */
  lemma ResendKeepsRecord(codes: Table<Verification>, email: string, c1: string, c2: string, t1: int, t2: int)
    requires codes.Valid() && UniqueVerificationEmails(codes)
    ensures var once := AfterSend(codes, email, c1, t1);
      var twice := AfterSend(once, email, c2, t2);
      && VerificationWithEmail(twice, email) == VerificationWithEmail(once, email)
      && twice.rows.Keys == once.rows.Keys
  {
  }
}
