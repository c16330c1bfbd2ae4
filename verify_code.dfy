/** POST /api/auth/manual/verify-code: check a sign-up code, create the client
    account and consume the code. Token issuing is not modelled. */
module VerifyCodeRoute {
  import opened Wrappers
  import opened Tables
  import opened Domain
  import opened Store
  import SendCodeRoute

  const AllRequired := Refusal(400, "All fields are required")
  const NotFound := Refusal(404, "Email verification not found")
  const InvalidCode := Refusal(400, "Invalid verification code")
  const Expired := Refusal(400, "Verification code expired. Please request a new one.")
  /** The user insert fails on a taken email (the account may have been made
      after the code was sent). */
  const InternalError := Refusal(500, "Internal server error")

  /** The first failing check: fields, record, code, expiry (strict), then the
      unique-email constraint of the insert. */
  function VerifyRefusal(codes: Table<Verification>, users: Table<User>, email: string, code: string,
                         password: string, name: string, now: int): (e: Option<Refusal>)
    requires codes.Valid() && users.Valid()
    ensures e.None? <==>
      && email != "" && code != "" && password != "" && name != ""
      && VerificationWithEmail(codes, email).Some?
      && codes.rows[VerificationWithEmail(codes, email).value].code == code
      && codes.rows[VerificationWithEmail(codes, email).value].expireAt >= now
      && UserWithEmail(users, email).None?
  {
    if email == "" || code == "" || password == "" || name == "" then Some(AllRequired)
    else match VerificationWithEmail(codes, email)
      case None => Some(NotFound)
      case Some(k) =>
        if codes.rows[k].code != code then Some(InvalidCode)
        else if codes.rows[k].expireAt < now then Some(Expired)
        else if UserWithEmail(users, email).Some? then Some(InternalError)
        else None
  }

  /** The account a successful verification creates. */
  function NewClient(name: string, email: string, password: string, now: int): User {
    User(name, email, Some(password), Client, None, Some(now))
  }

  method VerifyCode(db: Db, email: string, code: string, password: string, name: string, now: int)
    returns (r: Reply<int>)
    requires db.Valid()
    modifies db`users, db`verifications
    ensures db.Valid()
    ensures r == ReplyOf(VerifyRefusal(old(db.verifications), old(db.users), email, code, password, name, now), 201, old(db.users.next))
    ensures r.Fail? ==> db.users == old(db.users) && db.verifications == old(db.verifications)
    ensures r.Done? ==>
      && db.users == old(db.users).Insert(NewClient(name, email, password, now))
      && db.verifications == old(db.verifications).Delete(VerificationWithEmail(old(db.verifications), email).value)
    ensures r.Done? ==> VerificationWithEmail(db.verifications, email).None?
  {
    if email == "" || code == "" || password == "" || name == "" {
      return Fail(AllRequired);
    }
    var found := VerificationWithEmail(db.verifications, email);
    if found.None? {
      return Fail(NotFound);
    }
    var record := db.verifications.rows[found.value];
    if record.code != code {
      return Fail(InvalidCode);
    }
    if record.expireAt < now {
      return Fail(Expired);
    }
    if UserWithEmail(db.users, email).Some? {
      return Fail(InternalError);
    }
    var id := db.users.next;
    db.users := db.users.Insert(NewClient(name, email, password, now));
    db.verifications := db.verifications.Delete(found.value);
    return Done(201, id);
  }

  /** A code sent at `sent` verifies up to and including `sent` plus ten
      minutes, and is expired one millisecond later; any other code is invalid. */
  lemma SentCodeVerifiesUntilExpiry(codes: Table<Verification>, users: Table<User>, email: string, code: string,
                                    password: string, name: string, sent: int, now: int, other: string)
    requires codes.Valid() && UniqueVerificationEmails(codes) && users.Valid()
    requires SendCodeRoute.SendRefusal(users, email).None? && code != "" && password != "" && name != ""
    requires other != code && other != ""
    ensures var after := SendCodeRoute.AfterSend(codes, email, code, sent);
      && (now <= sent + SendCodeRoute.CodeLifetimeMs ==> VerifyRefusal(after, users, email, code, password, name, now).None?)
      && (now > sent + SendCodeRoute.CodeLifetimeMs ==> VerifyRefusal(after, users, email, code, password, name, now) == Some(Expired))
      && VerifyRefusal(after, users, email, other, password, name, now) == Some(InvalidCode)
  {
  }

  /** Re-sending replaces the code: the earlier one no longer verifies. */
  lemma ResendInvalidatesEarlierCode(codes: Table<Verification>, users: Table<User>, email: string,
                                     c1: string, c2: string, t1: int, t2: int, password: string, name: string, now: int)
    requires codes.Valid() && UniqueVerificationEmails(codes) && users.Valid()
    requires email != "" && c1 != "" && c1 != c2 && password != "" && name != ""
    ensures var twice := SendCodeRoute.AfterSend(SendCodeRoute.AfterSend(codes, email, c1, t1), email, c2, t2);
      VerifyRefusal(twice, users, email, c1, password, name, now) == Some(InvalidCode)
  {
  }

  /** After a successful verification the same request gets 404: a code
      verifies once. */
  lemma VerifiesOnce(codes: Table<Verification>, users: Table<User>, email: string, code: string,
                     password: string, name: string, now: int, later: int)
    requires codes.Valid() && UniqueVerificationEmails(codes) && users.Valid()
    requires VerifyRefusal(codes, users, email, code, password, name, now).None?
    ensures var after := codes.Delete(VerificationWithEmail(codes, email).value);
      VerifyRefusal(after, users.Insert(NewClient(name, email, password, now)), email, code, password, name, later) == Some(NotFound)
  {
  }
}
