# DreamHome rental marketplace — verified model of the leasing and account core

DreamHome is a property-rental marketplace. Owners and clients list properties.
Staff belong to a branch:
- assistants prepare lease drafts;
- managers approve listings and drafts;
- supervisors only oversee.

Clients browse approved listings, ask for viewings, negotiate lease terms and
end up with a lease. This project models the server-side core of that system
in Dafny:

- **The persistence layer.** It is one object, `Store.Db`, with one
  autoincrement table per entity: properties, lease drafts, leases,
  negotiations, viewing requests, users, staff applications, sign-up codes and
  branches. Its invariant covers:
  - unique user emails;
  - one sign-up code per email;
  - unique branch names;
  - drafts refer to properties, and leases refer to drafts.
- **The route handlers that change tables.** Each one is a method whose frame
  names exactly the tables it may write. The methods are:
  - draft creation, lease finalization and negotiation submission;
  - property application, and viewing request and update;
  - sign-up code sending and verification;
  - registration, profile completion, and staff and owner creation;
  - branch creation.

  Each method's contract gives its reply and the exact new contents of every
  table it may write. For most routes the reply comes from a pure guard
  function that returns the first failing check, as status code and message.
  Finalization and the two viewing routes state their checks directly in
  their contracts.
- **The read-only views.** These are the role-dependent profile, the
  negotiation listing, the name-ordered branch list, the two password checks
  and the browse-page filters.
- **The request gate and the limiters.**
  - The route gate decides public paths and token sources.
  - The fixed-window rate limiter is a keyed counter map. A rejection is the
    429 Too Many Requests response (section 4 of RFC 6585), carrying the wait
    in the body and in a `Retry-After` header in delay-seconds (section 10.2.3
    of RFC 9110).
  - The body-size guard answers 413 Content Too Large (section 15.5.14 of
    RFC 9110).
- **The lease lifecycle of the "How it works" page.** It has six states and
  six role-gated actions, with lemmas over arbitrary runs.

## Conventions

- **Inputs.**
  - Request strings are `string`, with `""` standing for an absent field. Both
    are falsy in JavaScript, and every guard tests falsiness.
  - Integer ids are `int`, with `0` standing for absent.
  - Free-form JSON bodies (lease terms, viewing fields) are the `Json.Json`
    datatype, with JavaScript truthiness and `typeof`.
  - A string's JavaScript `length` is its number of UTF-16 code units,
    `Text.Utf16Length`. Characters above U+FFFF count twice.
- **Tables.** Ids come from a per-table counter. A `findFirst` without ordering
  returns the lowest id that matches.
- **External inputs passed as parameters.**
  - The current time is an integer `now` in milliseconds.
  - Generated codes are parameters.
  - `Date.parse` and the validity of `new Date(v)` are predicate parameters,
    and `JSON.parse` a function parameter.
- **Replies.** A reply is `Done(status, payload)` or `Fail(Refusal(status,
  message))`. Payloads are row ids.
- **Source disagreements.** The lifecycle page, the negotiation route and the
  profile route use three different draft-status vocabularies. Each is modelled
  as written:
  - the page: `client_accepted`, `approved`, `canceled` and so on;
  - the negotiation route: `draft` and `client_review`;
  - the profile route: `draft`, `client_review` and `manager_review`.

  On the page, the assistant may cancel a draft in `draft`, `client_accepted`
  or `client_rejected`. Step 5 of the page mentions cancelling only after a
  rejection. The lifecycle list, however, allows cancelling "before approval",
  and the model follows that wider reading.

  In particular, the finalization route accepts a draft in any status, so it
  can finalize the same draft twice. The page, by contrast, calls `signed`
  final (`Lifecycle.OneLeasePerSignedRun` holds for the documented table, not
  for the route).

## Model

| member | source | states |
|---|---|---|
| `Domain.ParseRole` | src/types.ts:6 | a role string names a role exactly when it is one of the five role names, and naming it back gives the same string |
| `Tables.Table.FindFirst` | src/app/api/auth/manual/send-code/route.ts:18-20 | `findFirst`: the id found matches and no lower id matches; nothing is found exactly when no row matches |
| `Tables.Table.AllRowsExactly` | src/app/api/branches/route.ts:7-11 | a `findMany` lists exactly the stored rows |
| `Tables.Table.Insert` | src/app/api/leases/draft/route.ts:43-51 | `create` stores the row under the next id, which was not in use, and keeps the table valid |
| `Tables.Table.Update` | src/app/api/leases/final/route.ts:47-50 | `update` replaces the row under an existing id, and the ids stay the same |
| `Tables.Table.Delete` | src/app/api/auth/manual/verify-code/route.ts:57-59 | `delete` removes exactly the row under the id |
| `Security.RateLimiter.constructor` | src/lib/security.ts:4 | the limiter's store starts empty |
| `Json.Member` | src/app/api/leases/draft/route.ts:36 | `v?.key` yields a value exactly when `v` is an object that has the key, and then it yields that key's value |
| `Store.UserWithEmail` | src/app/api/auth/register/route.ts:14-16 | the user looked up by email has that email; none is found exactly when no user has it |
| `Store.VerificationWithEmail` | src/app/api/auth/manual/verify-code/route.ts:18-20 | the sign-up record looked up by email has that email; none is found exactly when no record has it |
| `Store.BranchWithName` | src/app/api/branches/route.ts:62-64 | the branch looked up by name has that name; none is found exactly when no branch has it |
| `Text.ContainsAt` | src/app/properties/page.tsx:174-175 | `includes` holds exactly when the needle occurs at some position of the text |
| `Text.Contains` | src/app/properties/page.tsx:174-175 | `includes`: the needle is a prefix of the text or of one of its suffixes |
| `Text.Lower` | src/app/properties/page.tsx:174-175 | `toLowerCase` keeps the length and lower-cases each ASCII letter in place |
| `Text.Utf16Length` | src/app/api/leases/schedule/route.ts:28 | `length` lies between the number of characters and twice that, and equals the number of characters exactly when none is astral |
| `Text.ParseInt` | src/app/api/negotiations/route.ts:118 | `parseInt(s, 10)`: an optional sign and the leading decimal digits; no digits is NaN |
| `Text.Split` | src/middleware-original.ts:46 | `split(' ')`: at least one piece; no separator gives the whole string; otherwise the first piece is the text before the first separator, followed by the pieces of the rest |
| `Text.SecondPieceOf` | src/middleware-original.ts:46 | the second piece of `prefix + t + rest` is `t` when the prefix ends at the first separator and `t` has none |
| `Text.ParseIntToString` | src/lib/security.ts:31-37 | `parseInt` reads back exactly the integer that `toString` wrote |
| `Text.LexLeTotal` | src/app/api/branches/route.ts:7-11 | the name order compares any two names |
| `Text.LexLeTransitive` | src/app/api/branches/route.ts:7-11 | the name order is transitive |
| `DraftRoute.DraftRefusal` | src/app/api/leases/draft/route.ts:9-41 | a draft request passes exactly when the ids and terms are present, the property exists and is approved, and the terms have truthy `dates.start`, `dates.end` and `financial.rent`; any refusal is one of the four messages |
| `DraftRoute.TermsShapeOk` | src/app/api/leases/draft/route.ts:36 | the terms have truthy `dates.start`, `dates.end` and `financial.rent` |
| `DraftRoute.CreateDraft` | src/app/api/leases/draft/route.ts:9-66 | the reply is the first failing check or 201 with the new id; a refusal writes nothing; success inserts exactly one draft (status `draft`, version 1, the given terms and ids); the property table is never written |
| `DraftRoute.MissingFieldsComeFirst` | src/app/api/leases/draft/route.ts:9-14 | a missing field is refused before, and independently of, the property lookup |
| `DraftRoute.UnapprovedPropertyRefused` | src/app/api/leases/draft/route.ts:28-33 | any property not in status `approved` is refused as not available |
| `DraftRoute.ZeroRentRefused` | src/app/api/leases/draft/route.ts:36-41 | a rent of 0 is falsy, so such terms are refused even on an approved property |
| `FinalRoute.ActiveFromOf` | src/app/api/leases/final/route.ts:26-34 | the lease is active from the terms' `dates.start` when it is truthy, otherwise from now |
| `FinalRoute.LeaseFor` | src/app/api/leases/final/route.ts:30-37 | the new lease snapshots the draft's current terms and is signed by neither side |
| `FinalRoute.FinalizeRefusal` | src/app/api/leases/final/route.ts:9-68 | finalization fails exactly when the draft is unknown (404) or its truthy start date is one `new Date` turns into an Invalid Date, which the lease insert rejects and the catch answers with 500 |
| `FinalRoute.FinalizeLease` | src/app/api/leases/final/route.ts:9-68 | an unknown draft gives 404 and a rejected start date gives 500, both changing nothing; otherwise, whatever the draft's status, one lease is inserted and its id returned with 201, the draft's property becomes `rented`, and the draft becomes `signed` |
| `FinalRoute.RentedPropertyTakesNoDraft` | src/app/api/leases/final/route.ts:40-44 | once a property is rented, every new draft request for it is refused as not available |
| `FinalRoute.DraftTermsGiveStartDate` | src/app/api/leases/final/route.ts:26-34 | terms that passed draft creation always carry a start date: a lease made from them is active from that date, and finalization succeeds exactly when `new Date` accepts it |
| `NegotiationsRoute.AnyTypedTermsAccepted` | src/app/api/negotiations/route.ts:8-25 | any numbers for rent and deposit and any strings for the dates pass the validator, including zero, negative or empty values |
| `NegotiationsRoute.NonObjectsRejected` | src/app/api/negotiations/route.ts:9 | absent values, `null`, scalars and arrays fail the validator |
| `NegotiationsRoute.ExtraFieldsIgnored` | src/app/api/negotiations/route.ts:8-25 | only `financial` and `dates` are inspected |
| `NegotiationsRoute.IsLeaseTerms` | src/app/api/negotiations/route.ts:8-26 | `isLeaseTerms`: an object whose `financial` is an object with numeric `rent` and `deposit`, and whose `dates` is an object with string `start` and `end` |
| `NegotiationsRoute.ValidatorsDiffer` | src/app/api/negotiations/route.ts:14-17 | this validator and the draft route's shape test disagree in both directions: a zero rent passes here only, a string rent only there |
| `NegotiationsRoute.SubmitRefusal` | src/app/api/negotiations/route.ts:34-63 | a submission passes exactly when the principal is a client, the terms validate, and the draft exists in `draft` or `client_review` |
| `NegotiationsRoute.NonClientRefusedFirst` | src/app/api/negotiations/route.ts:34-39 | a non-client gets 403 whatever the drafts table holds |
| `NegotiationsRoute.InvalidTermsRefusedBeforeLookup` | src/app/api/negotiations/route.ts:45-50 | invalid terms get 400 whatever the drafts table holds |
| `NegotiationsRoute.SubmitNegotiation` | src/app/api/negotiations/route.ts:28-90 | a refusal writes nothing; success inserts one `pending` negotiation (empty message as null, the client as both parties) and moves only the draft's status to `client_review` |
| `NegotiationsRoute.ResubmissionAllowed` | src/app/api/negotiations/route.ts:58-80 | after a submission the draft can take another one |
| `NegotiationsRoute.ListNegotiations` | src/app/api/negotiations/route.ts:101-168 | an empty `draft_id` gives 400 and an unparsable one 500; otherwise the result is exactly the negotiations of that draft, restricted to the client's own for a client |
| `Lifecycle.Performer` | src/app/how-it-works/page.tsx:35-56 | every action belongs to a client, an assistant or a manager, never to an owner or a supervisor |
| `Lifecycle.Step` | src/app/how-it-works/page.tsx:89-96 | an allowed step is made by the action's role; nothing leaves `canceled` or `signed`; nothing enters `approved`; creation yields `draft`; `signed` is reached only by manager approval from `client_accepted`; `canceled` only by an assistant cancel |
| `Lifecycle.EffectsOf` | src/app/how-it-works/page.tsx:27-31 | exactly manager approval creates the final lease and rents the property; the lease and rental counts of a run are taken from it |
| `Lifecycle.TableAsDocumented` | src/app/how-it-works/page.tsx:15-27 | the transitions the page lists are all allowed |
| `Lifecycle.ApproveOnlyFromAccepted` | src/app/how-it-works/page.tsx:94 | approval is possible exactly from `client_accepted` and by a manager |
| `Lifecycle.OwnersAndSupervisorsInert` | src/app/how-it-works/page.tsx:48-55 | owners and supervisors can take no step |
| `Lifecycle.TerminalIsFinal` | src/app/how-it-works/page.tsx:89-96 | from `canceled` or `signed` no further move is allowed |
| `Lifecycle.ApprovedNeverReached` | src/app/how-it-works/page.tsx:94 | no run ends in `approved` |
| `Lifecycle.OneLeasePerSignedRun` | src/app/how-it-works/page.tsx:94 | a run creates exactly one lease if it reaches `signed` and none otherwise, and rents the property exactly as many times |
| `Lifecycle.AcceptancePrecedes` | src/app/how-it-works/page.tsx:92-94 | a run that reaches `client_accepted` or `signed` contains the client's acceptance |
| `Lifecycle.RunIsRoleGated` | src/app/how-it-works/page.tsx:35-47 | every move of an allowed run is made by the role the action belongs to |
| `Lifecycle.ApproverIsManager` | src/app/how-it-works/page.tsx:45-46 | a role-gated run that creates a lease contains a manager approval |
| `Lifecycle.SignedNeedsClientAndManager` | src/app/how-it-works/page.tsx:19-27 | a signed draft was accepted by its client, approved by a manager, and approved exactly once |
| `ProfileRoute.Profile` | src/app/api/profile/route.ts:26-326 | null principal gives 401 and an unknown role 401; a known role without a user row gives 404; the four manager-only fields are present exactly for managers; drafts and leases are present exactly for clients, managers and assistants; a property list is present for every role except client |
| `ProfileRoute.ClientSeesOwnRows` | src/app/api/profile/route.ts:58-76 | a client sees exactly its own drafts, and the leases made from them |
| `ProfileRoute.StaffSeeApprovedBranchProperties` | src/app/api/profile/route.ts:117-122 | staff see exactly the approved properties of their branch |
| `ProfileRoute.StaffSeeOpenBranchDrafts` | src/app/api/profile/route.ts:176-195 | assistants and managers see exactly the drafts on their branch's properties in status `draft`, `client_review` or `manager_review` |
| `ProfileRoute.StaffSeeBranchLeases` | src/app/api/profile/route.ts:198-221 | assistants and managers see exactly the leases whose draft is on a property of their branch |
| `ProfileRoute.ManagerSeesBranchQueues` | src/app/api/profile/route.ts:124-172 | a manager sees exactly the branch's pending applications, pending listings, assistants, and pending viewing requests on its properties |
| `ProfileRoute.OwnerSeesOwnProperties` | src/app/api/profile/route.ts:290-297 | an owner sees exactly the properties it is the agent of |
| `ProfileRoute.NewDraftVisibleToItsClient` | src/app/api/profile/route.ts:73-76 | a newly inserted draft is added to its client's list and to nobody else's |
| `ProfileRoute.SignedDraftLeavesStaffList` | src/app/api/profile/route.ts:177-194 | a draft moved to `signed` leaves the staff draft list |
| `ProfileRoute.RentedPropertyLeavesStaffList` | src/app/api/profile/route.ts:117-122 | a rented property leaves the staff property list |
| `ProfileRoute.NewLeaseVisibleToClient` | src/app/api/profile/route.ts:58-71 | a lease made from a client's draft is on that client's lease list |
| `ApplyRoute.ApplyRefusal` | src/app/api/properties/apply/route.ts:15-29 | an application passes exactly when the principal is a client and every required field is truthy |
| `ApplyRoute.NewProperty` | src/app/api/properties/apply/route.ts:32-49 | the stored listing is `pending`, in the applicant's branch, with the applicant as agent, and has the submitted fields |
| `ApplyRoute.Apply` | src/app/api/properties/apply/route.ts:15-54 | a refusal writes nothing; success inserts exactly that listing and returns its id with 201 |
| `ApplyRoute.TypeNotStored` | src/app/api/properties/apply/route.ts:22-49 | the listing type is required but does not affect the stored row |
| `ApplyRoute.ZeroPriceMissingNegativeAccepted` | src/app/api/properties/apply/route.ts:24 | a zero price counts as missing; a negative one passes |
| `ApplyRoute.NewListingNotLeasable` | src/app/api/properties/apply/route.ts:45 | a just-applied listing cannot get a lease draft until it is approved |
| `ScheduleRoute.PropertyIdOk` | src/app/api/leases/schedule/route.ts:24 | the property id is a number of at least 1 |
| `ScheduleRoute.MessageOk` | src/app/api/leases/schedule/route.ts:28 | the message is a string of at least ten UTF-16 code units |
| `ScheduleRoute.ScheduledTimeOk` | src/app/api/leases/schedule/route.ts:32 | the time is a non-empty string that `Date.parse` accepts |
| `ScheduleRoute.Errors` | src/app/api/leases/schedule/route.ts:22-34 | each of the three messages is reported exactly when its check fails, every check runs, and the messages keep their order |
| `ScheduleRoute.CollectErrors` | src/app/api/leases/schedule/route.ts:22-34 | the `push` sequence builds exactly that report |
| `ScheduleRoute.AstralCharactersCountTwice` | src/app/api/leases/schedule/route.ts:28 | five emoji make a message long enough, because each counts as two code units |
| `ScheduleRoute.AgentOf` | src/app/api/leases/schedule/route.ts:43-51 | a property's agent is found exactly when the property exists and its agent id is truthy |
| `ScheduleRoute.RequestViewing` | src/app/api/leases/schedule/route.ts:8-69 | any validation error gives 400 with exactly the report of all failed checks, in order, and no write; no agent gives 404; otherwise one `pending` request is inserted for the client, the property and its agent |
| `ScheduleRoute.UpdateViewing` | src/app/api/leases/schedule/route.ts:82-121 | a non-manager gets 403 and a missing id or status 400; an unknown id makes the update fail with 500; success stores the given status unchecked and changes nothing else |
| `Security.CeilDiv` | src/lib/security.ts:31 | `Math.ceil(x / d)` is the least integer whose multiple of `d` reaches `x` |
| `Security.ClientIp` | src/lib/security.ts:13 | the address is `x-forwarded-for`, else `x-real-ip`, else `unknown` |
| `Security.Key` | src/lib/security.ts:15 | the key is the address, a colon, then the path |
| `Security.KeySeparatesPaths` | src/lib/security.ts:15 | for one address, two paths share a key only when they are the same path |
| `Security.Decide` | src/lib/security.ts:17-45 | no record, or an expired window (strictly longer than `windowMs`), resets to count 1 and allows; at the limit within the window it rejects with a non-negative wait rounded up to whole seconds; below the limit it adds exactly one |
| `Security.Rejection` | src/lib/security.ts:27-40 | the rejection has status 429, the error `Too Many Requests`, and the wait in the body and the header |
| `Security.RetryAfterHeaderAgrees` | src/lib/security.ts:31-37 | the `Retry-After` header is a decimal numeral that reads back as the body's `retryAfter` |
| `Security.RateLimiter.Check` | src/lib/security.ts:11-47 | the store is updated as the decision says for the request's key only; a rejection is the 429 response with the wait and leaves the store unchanged; counts stay within any bound of at least 1 and of the limit |
| `Security.WithinWindowBound` | src/lib/security.ts:19-45 | inside one window a key that has used `count` requests is allowed at most `maxRequests - count` more |
| `Security.FirstWindowBound` | src/lib/security.ts:19-45 | a new key gets at least one request allowed within the window its first request opens, and at most `maxRequests` or one, whichever is larger: the first request passes even when `maxRequests` is 0 |
| `Security.ValidateContentLength` | src/lib/security.ts:49-68 | 413 exactly when the header is present and its integer value exceeds the limit, which is 1 MiB when none is given, with a message naming the limit |
| `Security.DeclaredLengthAgainstLimit` | src/lib/security.ts:53 | a declared length is rejected exactly when it is above the limit |
| `Security.DefaultLimitIsOneMebibyte` | src/lib/security.ts:49 | with the default limit, 1048576 bytes pass and 1048577 are refused |
| `Middleware.TokenOf` | src/middleware-original.ts:43-47 | a cookie token wins; without a `Bearer ` prefix there is no token |
| `Middleware.Gate` | src/middleware-original.ts:3-56 | paths under `/api/auth/` and exact public routes pass; any other path is refused with 401 exactly when no token is found |
| `Middleware.MethodNeverMatters` | src/middleware-original.ts:19-38 | the GET exception for `/api/branches` is dead code; the decision never depends on the HTTP method |
| `Middleware.PublicMatchIsExact` | src/middleware-original.ts:29-32 | public routes match exactly, not by prefix |
| `Middleware.BearerTokenExtracted` | src/middleware-original.ts:46 | the token is the word after `Bearer `, up to the next space |
| `Middleware.AnyTokenAccepted` | src/middleware-original.ts:49-55 | any non-empty token passes, unverified |
| `Middleware.DoubleSpaceRefused` | src/middleware-original.ts:46-52 | a double space after `Bearer` yields an empty token, so a protected path is refused |
| `Middleware.CookieTakesPrecedence` | src/middleware-original.ts:43-44 | the header is ignored when the cookie is set |
| `Listings.Keep` | src/app/properties/page.tsx:173-187 | `filter` keeps exactly the elements satisfying the predicate, in order, each as often as it occurs |
| `Listings.MatchesSearch` | src/app/properties/page.tsx:174-175 | the lower-cased query occurs in the lower-cased title or location |
| `Listings.MatchesPrice` | src/app/properties/page.tsx:177-180 | range `all`, or the price lies in the named bucket (under 50000, 50000 to 100000 inclusive, above 100000) |
| `Listings.MatchesType` | src/app/properties/page.tsx:182 | type `all`, or the listing has the requested type |
| `Listings.Filtered` | src/app/properties/page.tsx:173-185 | the listed properties are the order-preserving subsequence matching search, price range and type, each matching listing kept as often as it occurs |
| `Listings.Featured` | src/app/properties/page.tsx:187 | the featured list is the order-preserving subsequence of featured properties, each kept as often as it occurs |
| `Listings.NoCriteriaShowsAll` | src/app/properties/page.tsx:174-182 | an empty search with range and type `all` shows every property |
| `Listings.SearchIgnoresQueryCase` | src/app/properties/page.tsx:174-175 | the search ignores the case of the query |
| `Listings.BucketsPartition` | src/app/properties/page.tsx:177-180 | every price is in exactly one of the three named buckets |
| `Listings.UnknownRangeShowsNothing` | src/app/properties/page.tsx:177-180 | an unrecognised price range matches nothing |
| `SendCodeRoute.SendRefusal` | src/app/api/auth/manual/send-code/route.ts:10-27 | a code is sent exactly when an email is given and no user has it |
| `SendCodeRoute.AfterSend` | src/app/api/auth/manual/send-code/route.ts:31-54 | afterwards the email has exactly one record, holding the new code and expiring ten minutes from now, and all other records are unchanged |
| `SendCodeRoute.SendCode` | src/app/api/auth/manual/send-code/route.ts:6-87 | a refusal writes nothing; success performs that upsert and replies 200 |
| `SendCodeRoute.ResendKeepsRecord` | src/app/api/auth/manual/send-code/route.ts:38-45 | re-sending updates the same record instead of adding one |
| `VerifyCodeRoute.VerifyRefusal` | src/app/api/auth/manual/verify-code/route.ts:10-54 | verification passes exactly when all four fields are present, a record exists, its code matches, it has not expired (strictly), and no user has the email yet |
| `VerifyCodeRoute.VerifyCode` | src/app/api/auth/manual/verify-code/route.ts:7-85 | a refusal writes nothing; success inserts one verified `client` user with the given name, email and password, and deletes the code |
| `VerifyCodeRoute.SentCodeVerifiesUntilExpiry` | src/app/api/auth/manual/send-code/route.ts:31 | a code just sent verifies until exactly ten minutes later, is expired after that, and any other code is invalid |
| `VerifyCodeRoute.ResendInvalidatesEarlierCode` | src/app/api/auth/manual/send-code/route.ts:39-45 | after a re-send the earlier code no longer verifies |
| `VerifyCodeRoute.VerifiesOnce` | src/app/api/auth/manual/verify-code/route.ts:57-59 | a second verification with the same code gets 404 |
| `RegisterRoute.RegisterRefusal` | src/app/api/auth/register/route.ts:9-48 | registration passes exactly when every field is present, the email is free and the role is client or a staff role; an invalid-role refusal means owner or an unknown role |
| `RegisterRoute.Register` | src/app/api/auth/register/route.ts:6-48 | a refusal writes nothing; a client becomes a user with the given branch; a staff role files only a `pending` application |
| `RegisterRoute.EmailCheckedBeforeRole` | src/app/api/auth/register/route.ts:14-22 | a taken email is refused whatever role is asked for |
| `RegisterRoute.OwnerRefused` | src/app/api/auth/register/route.ts:46-48 | owners cannot register here |
| `CompleteRoute.CompleteRefusal` | src/app/api/auth/complete/route.ts:10-37 | completion passes exactly when there is a session user, the role is one of the four allowed, staff name an existing branch, and the user row exists; owner is refused |
| `CompleteRoute.Completed` | src/app/api/auth/complete/route.ts:30-37 | only role and branch change; a client's branch becomes null |
| `CompleteRoute.Complete` | src/app/api/auth/complete/route.ts:7-39 | a refusal writes nothing; success updates only the session user's row |
| `CompleteRoute.ClientBranchIgnored` | src/app/api/auth/complete/route.ts:20-34 | a client's branch id is not checked |
| `CreateStaffRoute.StaffRefusal` | src/app/api/auth/manual/create-staff/route.ts:12-51 | creation passes exactly when all fields are present, the role is a staff role, the email is free, and a supplied branch exists |
| `CreateStaffRoute.NewStaff` | src/app/api/auth/manual/create-staff/route.ts:54-65 | the account has the given email, name and password, is not yet verified, and has the requested staff role and the branch, or null |
| `CreateStaffRoute.CreateStaff` | src/app/api/auth/manual/create-staff/route.ts:7-91 | a refusal writes nothing; success inserts exactly that account |
| `CreateStaffRoute.RoleCheckedBeforeEmail` | src/app/api/auth/manual/create-staff/route.ts:20-37 | owner and client requests are refused as a bad role before the email is looked at |
| `CreateOwnerRoute.OwnerRefusal` | src/app/api/auth/manual/create-owner/route.ts:9-26 | creation passes exactly when all fields are present and the email is free |
| `CreateOwnerRoute.NewOwner` | src/app/api/auth/manual/create-owner/route.ts:29-41 | the account has the given email, name and password, is an owner, verified at creation, with the given branch id unchecked, or null |
| `CreateOwnerRoute.CreateOwner` | src/app/api/auth/manual/create-owner/route.ts:4-56 | a refusal writes nothing; success inserts exactly that account |
| `ManualLoginRoute.Login` | src/app/api/auth/manual/login/route.ts:14-70 | missing fields give 400; login succeeds exactly when the user with that email has that password stored, and reports the stored role and branch; every other failure is the same 401 |
| `ManualLoginRoute.PasswordlessAccountsRefused` | src/app/api/auth/manual/login/route.ts:29-34 | an account without a password cannot log in here |
| `LegacyLoginRoute.FirstWithEmail` | src/app/api/auth/login/route.ts:19-27 | the first account in table order with the email, or none when no account has it |
| `LegacyLoginRoute.Lookup` | src/app/api/auth/login/route.ts:19-37 | the staff table is searched only when no client has the email |
| `LegacyLoginRoute.Login` | src/app/api/auth/login/route.ts:10-53 | missing fields give 400; login succeeds exactly when the account found has that password; every other failure is the same 401 |
| `LegacyLoginRoute.StaffShadowedByClient` | src/app/api/auth/login/route.ts:26-47 | a staff account whose email a client also uses cannot log in unless a client with that email has the same password |
| `BranchesRoute.InsertByName` | src/app/api/branches/route.ts:7-11 | inserting a branch into a name-sorted list keeps it sorted and adds exactly that branch |
| `BranchesRoute.SortByName` | src/app/api/branches/route.ts:7-11 | sorting by name gives a sorted permutation |
| `BranchesRoute.ListBranches` | src/app/api/branches/route.ts:5-21 | the list is exactly the stored branches, as a permutation, ordered by name |
| `BranchesRoute.CreateRefusal` | src/app/api/branches/route.ts:45-71 | creation passes exactly when the principal is an owner, name and location are present and no branch has the name |
| `BranchesRoute.CreateBranch` | src/app/api/branches/route.ts:33-85 | a refusal writes nothing; success inserts exactly one branch with the given name and location, and names stay unique |

## Left out

- React rendering, hooks and page state are not modelled. Of the browse page
  only the filter expressions are modelled, over a sequence of listings rather
  than the page's mock array.
- SQL text is not modelled. The legacy login's two `SELECT`s are modelled as
  first-match lookups over the client and staff account sequences.
- The persistence library is replaced by the tables of `Store.Db`. Some
  request shapes would make it throw and answer 500, and these are not
  modelled (wrong-typed ids, `undefined` in a `where`, `NaN` from `Number`).
  Absent ids are 0, a key no row has.
- Prisma's "`undefined` in a filter means no filter" is not modelled. A staff
  principal without a branch is matched against rows whose branch is null.
- Foreign-key constraints are modelled only for drafts→properties and
  leases→drafts. The user, branch and agent references are not constrained, so
  an insert that the database would refuse for a missing branch succeeds in
  the model.
- The schema is not part of this model. A staff application is assumed to
  start in status `pending`, its schema default, because the registration
  route sets no status. The manager's pending-applications list relies on
  that default.
- Lease-per-draft uniqueness is not part of this model, because the schema is
  not part of this model.
- JWT signing and verification, and cookies, are not modelled. The principal
  `{id, role, branch_id}` and the session user id are inputs.
- Sending mail is not modelled. A mail failure after send-code's upsert would
  answer 500 with the record kept.
- The verification code generator is a parameter.
- Time is the parameter `now`. `Date.parse` is the predicate `dateParses`,
  whether `new Date(v)` is a valid date is the predicate `dateValid`, and
  `JSON.parse` the function `parse`.
- `Text.ParseInt` reads an optional sign and leading decimal digits. It does
  not skip leading whitespace or read `0x` prefixes as `parseInt` does.
- JSON numbers are integers, so fractional ids, rents and prices are not
  modelled.
- `Text.Lower` lower-cases ASCII letters only; `toLowerCase` also folds other
  scripts.
- The branch list is ordered by character code. The database's collation may
  order names differently.
- `NegotiationsRoute.ListNegotiations` returns the set of matching ids. The
  `createdAt` descending order, the joined names and `safeJsonParse` of each
  row are not modelled. Ordering is left out because creation times are not
  stored.
- `ProfileRoute.Profile` reports rows by id. The display projections (titles,
  addresses, names) and the `user` details block are not modelled.
- `ScheduleRoute.RequestViewing` stores `scheduled_time` as the given string;
  the conversion to a date is not modelled.
- There are no transactions. The three writes of finalization and the two
  writes of negotiation submission and code verification are sequential, as in
  the source. A failure between them (a 500) is not modelled.
- `addSecurityHeaders` only sets two constant headers, so it is not modelled.
  The trivial health, status, debug and test routes are not modelled either.
- `Lifecycle` models the documented table only. No route implements
  `client_accept`, `manager_approve` or cancel.
