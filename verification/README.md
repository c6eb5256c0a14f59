# Startup-benefits marketplace, modelled in Dafny

This project models the core of a marketplace where startup founders browse
partner deals and claim them. The server is an Express API over MongoDB. The
client is a Next.js web app. The model covers these parts:

- **Data model.** Users, deals and claims, as Mongoose creates them: setters,
  required fields, enums, defaults, timestamps and unique indexes. `Store`
  holds three sequences. `Valid` is the invariant every write keeps: unique
  ids, emails, slugs and (user, deal) pairs, and normalised emails and slugs.
- **`POST /auth/register` and `POST /auth/login`.** bcrypt and
  `jsonwebtoken` are abstract function parameters.
- **The `authRequired` token guard** and the **`validateBody` /
  `validateQuery` middleware**, over the zod request schemas.
- **`POST /claims`**, the admission chain: token subject, deal lookup by
  `_id` or slug, the verification gate for locked deals, the one-claim-per-deal
  rule. **`GET /claims/me`**: the caller's claims, newest first, with a
  status tally.
- **`GET /deals`**, the filtered and paginated catalogue, including
  JavaScript's `parseInt` and `||` defaults. **`GET /deals/:slugOrId`**.
- **The central error handler**, the 404 handler, the database URI guard and
  the shared `toJSON` transform.
- **The web client:**
  - the fetch wrapper: headers, Bearer token, body and error extraction;
  - the session context: login, register, logout, refresh and start-up;
  - the catalogue page's search/category/access filter and its lock badge.
- **End-to-end journeys** that cross these layers (module `Journeys`).

The following things are function parameters:

| parameter | stands for |
|---|---|
| `now` | the clock |
| `newId` | fresh `ObjectId`s |
| `idShaped` | `ObjectId.isValid` |
| `isEmail` | zod's email check |
| `hash`, `compare` | bcrypt |
| `sign`, `verify` | `jsonwebtoken`; `sign` takes the issue time |
| `textMatch` | MongoDB's `$text` search |

Strings are sequences of characters. `toLowerCase` and `trim` are modelled
on ASCII letters and ASCII white space.

## Model

| member | source | states |
|---|---|---|
| Models.StatusEnum | apps/api/src/models/claim.ts:4 | the three claim statuses and their names are in one-to-one correspondence |
| Models.AccessEnum | apps/api/src/models/deal.ts:4 | `public`/`locked` parse back to the access level they name, and nothing else parses |
| Models.NewUser | apps/api/src/models/user.ts:14-23 | a user is built exactly when email, password hash and name are non-empty after lower-casing/trimming; email is stored normalised, name trimmed, `isVerified` defaults to false, both timestamps are the creation time; otherwise a validation error whose paths are exactly the fields that are missing or empty |
| Models.InsertUser | apps/api/src/models/user.ts:16 | `User.create` appends exactly when validation passes and neither `_id` nor normalised email is taken; a taken email is the `email_1` duplicate-key error; the store is otherwise unchanged and stays valid |
| Models.NewDeal | apps/api/src/models/deal.ts:22-37 | a deal is built exactly when title and slug are non-empty after trimming and a given access level is in the enum; slug normalised, access level defaults to public, `isActive` to true; otherwise a validation error whose paths are exactly the failing fields |
| Models.InsertDeal | apps/api/src/models/deal.ts:25 | `Deal.create` appends exactly when validation passes and `_id` and slug are free; the store stays valid |
| Models.NewClaim | apps/api/src/models/claim.ts:15-23 | a claim is built exactly when user and deal ids are present and a given status is in the enum; status defaults to pending, `claimedAt` to the creation time; otherwise a validation error whose paths are exactly the failing fields |
| Models.InsertClaim | apps/api/src/models/claim.ts:25 | `Claim.create` appends exactly when validation passes and neither the `_id` nor the (user, deal) pair is taken; a taken pair is a duplicate-key error; the store stays valid |
| Models.EmptyValid | apps/api/src/models/claim.ts:25 | the empty database satisfies every unique index |
| Models.SlugIdentifiesDeal | apps/api/src/models/deal.ts:25 | under the unique slug index, an active deal is what a lookup by its slug returns |
| Models.IdIdentifiesDeal | apps/api/src/models/deal.ts:22-37 | under unique `_id`s, a deal is what a lookup by its id returns |
| Models.EmailIdentifiesUser | apps/api/src/models/user.ts:16 | under the unique email index, a user is what lookups by their email and by their id return |
| Models.AppendUserValid | apps/api/src/models/user.ts:16 | adding a well-formed user with a fresh id and email keeps the indexes satisfied |
| Models.AppendDealValid | apps/api/src/models/deal.ts:25 | adding a well-formed deal with a fresh id and slug keeps the indexes satisfied |
| Models.AppendClaimValid | apps/api/src/models/claim.ts:25 | adding a well-formed claim with a fresh id and pair keeps the indexes satisfied |
| Models.AtMostOneClaimPerPair | apps/api/src/models/claim.ts:25 | in a valid claim collection each (user, deal) pair occurs at most once |
| Models.SecondClaimRejected | apps/api/src/models/claim.ts:25 | creating the same claim twice: the first is pending, the second is a duplicate-key error, and one claim for the pair remains |
| Models.SecondUserSameEmailRejected | apps/api/src/models/user.ts:16 | a second user whose email normalises to an existing one is refused with `email_1` and nothing is written |
| AuthRoute.Register | apps/api/src/routes/auth.ts:12-60 | 409 exactly when a user has the lower-cased email; a user is created exactly when the lookup misses and the normalised email, hash and trimmed name are non-empty and unique; the new user is unverified with the hashed password, and the reply carries its public fields and a token for its payload; nothing else writes; validity is kept |
| AuthRoute.NormalizeOfLower | apps/api/src/routes/auth.ts:29 | lower-casing before the model's own lower-case/trim setter changes nothing |
| AuthRoute.Login | apps/api/src/routes/auth.ts:65-117 | login succeeds exactly when a user has the lower-cased email and the password matches its hash; the reply mirrors that user and a token for its payload; every failure is the same 401 |
| AuthRoute.FailuresIndistinguishable | apps/api/src/routes/auth.ts:69-89 | an unknown email and a wrong password get identical answers |
| AuthRoute.LoginIgnoresCase | apps/api/src/routes/auth.ts:69 | emails differing only in letter case log in identically |
| AuthRoute.StoredEmailIsLookupKey | apps/api/src/routes/auth.ts:16-29 | for an email without surrounding spaces, the stored form is the lower-case form lookups use |
| AuthRoute.RegisterThenLogin | apps/api/src/routes/auth.ts:27-106 | after registering, logging in with the same password and the email in any case returns the registered user with a token for the unverified payload |
| AuthRoute.LoginFinds | apps/api/src/routes/auth.ts:69-106 | a stored user presenting their password logs in as themself |
| AuthRoute.RegisterTwice | apps/api/src/routes/auth.ts:16-25 | a second registration with the same email in any case is a 409 that writes nothing |
| AuthRoute.BlankNameFailsRegistration | apps/api/src/routes/auth.ts:28-59 | a name of only spaces is emptied by the trim setter, so creation fails and the answer is 500 with nothing written |
| AuthMiddleware.AuthRequired | apps/api/src/middleware/auth.ts:18-40 | a missing header or one without the `Bearer ` prefix is refused; the request passes exactly when the token after the prefix verifies, carrying its payload; a token that fails to verify is refused with the fixed message `Invalid or expired token` |
| AuthMiddleware.BearerRoundTrip | apps/api/src/middleware/auth.ts:26-31 | the token read from `Bearer <t>` is `t` |
| AuthMiddleware.IssuedTokenAuthorizes | apps/api/src/middleware/auth.ts:31-36 | a header carrying an issued token that still verifies authorises its payload |
| AuthMiddleware.SchemeIsCaseSensitive | apps/api/src/middleware/auth.ts:26-29 | `bearer ` in lower case is refused before the token is examined |
| Schemas.FieldIssues | apps/api/src/utils/validation.ts:6-10 | one key's issues all carry that key as path; none exactly when the value is a string passing every check; a missing key is "Required" |
| Schemas.OptionalIssues | apps/api/src/utils/validation.ts:27-33 | an optional key that is absent has no issues; otherwise it is checked like a required one |
| Schemas.RegisterIssues | apps/api/src/utils/validation.ts:6-10 | the register body has no issues exactly when the email is valid, the password is at least six UTF-16 code units long (JavaScript's `.length`) and the name has at least one character and at most 100 code units |
| Schemas.RegisterCountsUtf16Units | apps/api/src/utils/validation.ts:8-9 | the bounds count UTF-16 code units, not characters: a three-character password outside the Basic Multilingual Plane is accepted, and a 60-character name outside it is too long |
| Text.Utf16LengthOfBmp | apps/api/src/utils/validation.ts:8-9 | on the Basic Multilingual Plane the code-unit length is the character count |
| Text.Utf16LengthOfAstral | apps/api/src/utils/validation.ts:8-9 | outside it every character is two code units |
| Schemas.LoginIssues | apps/api/src/utils/validation.ts:12-15 | the login body has no issues exactly when the email is valid and the password non-empty |
| Schemas.ClaimIssues | apps/api/src/utils/validation.ts:20-22 | the claim body has no issues exactly when `dealId` is a non-empty string; an empty one is "dealId is required" |
| Schemas.QueryIssues | apps/api/src/utils/validation.ts:27-33 | the deals query has no issues exactly when present keys are strings, the access level is in the enum, and limit and skip are digit strings |
| ValidateMiddleware.Validate | apps/api/src/middleware/validate.ts:7-56 | a parsed request passes unchanged; a zod error is a 400 `VALIDATION_ERROR` with the source's message and one detail per issue, its field being the dotted path; any other error goes to `next(error)` |
| ValidateMiddleware.FieldRecoversPath | apps/api/src/middleware/validate.ts:18-21 | when no key contains a dot, a detail's field splits back into the issue's path |
| ValidateMiddleware.RegisterGate | apps/api/src/middleware/validate.ts:7-29 | the register body gets past the middleware exactly when the schema's field conditions hold |
| ValidateMiddleware.EmptyDealIdRejected | apps/api/src/middleware/validate.ts:13-23 | an empty `dealId` is stopped with a single detail naming the field |
| ClaimsRoute.ResolveForClaim | apps/api/src/routes/claims.ts:40-47 | a found deal is stored and active and has the key as id (when id-shaped) or as slug; nothing is found exactly when no active deal has that key; the id match wins |
| ClaimsRoute.Submit | apps/api/src/routes/claims.ts:15-134 | each refusal (no subject, no dealId, no active deal, locked deal for an unverified or missing user) happens exactly under its condition, in chain order; past the gate, an existing (user, deal) claim is a 409 carrying that claim's id, `claimedAt` and status, exactly when such a claim exists; the detail-less 409 of the `catch` happens exactly when the new `_id` is taken; the 500 happens exactly when the deal's id is empty, so never in a valid store; a refusal writes nothing; a created claim is pending, belongs to the subject and the resolved deal, is appended, and keeps validity; it is returned with its deal populated by the creation projection (title, slug, description, partnerName, category, accessLevel, ctaText, ctaUrl), which in a valid store is that projection of the resolved deal |
| ClaimsRoute.SubmitStatus | apps/api/src/routes/claims.ts:20-132 | 201 exactly for a creation; no subject is 401 `UNAUTHORIZED`; no dealId is 400 `MISSING_DEAL_ID`; no active deal is 404 `DEAL_NOT_FOUND`; a resolved deal refused by the gate is 403 `VERIFICATION_REQUIRED`; an existing pair or a taken `_id` past the gate is 409 `DUPLICATE_CLAIM`; 500 goes with `INTERNAL_ERROR` and never happens in a valid store |
| ClaimsRoute.SubmitTwice | apps/api/src/routes/claims.ts:78-96 | repeating a successful claim is a 409 that names the first claim and writes nothing |
| ClaimsRoute.VerificationBeforeDuplicate | apps/api/src/routes/claims.ts:59-96 | for a locked deal an unverified user gets 403 even when they already hold a claim on it |
| ClaimsRoute.SetVerified | apps/api/src/routes/claims.ts:60 | setting one user's flag changes only that user's flag |
| ClaimsRoute.VerifyThenClaim | apps/api/src/routes/claims.ts:59-103 | a locked deal refused to an unverified user is admitted once the stored flag is set |
| ClaimsRoute.SubmitCreates | apps/api/src/routes/claims.ts:40-112 | when every check passes and the new id is free, a claim is created |
| ClaimsRoute.PublicIgnoresUsers | apps/api/src/routes/claims.ts:59 | for a public deal the user collection plays no part |
| ClaimsRoute.ListMine | apps/api/src/routes/claims.ts:139-179 | without a subject 401; otherwise the claims are exactly the subject's (as a multiset), newest `claimedAt` first, each with its deal populated; `pending`, `approved` and `rejected` are the numbers of listed claims with that status, and they add up to the total |
| ClaimsRoute.ListMineComplete | apps/api/src/routes/claims.ts:153-156 | every stored claim of the subject appears in the list |
| ClaimsRoute.StatusCountOfClaims | apps/api/src/routes/claims.ts:158-163 | counting listed claims by status counts the underlying claims with that status |
| ClaimsRoute.StatsTotal | apps/api/src/routes/claims.ts:158-163 | pending, approved and rejected add up to the total |
| DealsRoute.LimitOf | apps/api/src/routes/deals.ts:32 | NaN or 0 gives 50, a positive value is capped at 100, a negative one is kept |
| DealsRoute.EffectiveLimit | apps/api/src/routes/deals.ts:11-32 | the limit is at most 100 and never 0; absent gives 50 |
| DealsRoute.DefaultLimitText | apps/api/src/routes/deals.ts:11 | the default text "50" parses to the default limit |
| DealsRoute.SkipOf | apps/api/src/routes/deals.ts:33 | NaN gives 0 and negatives are raised to 0 |
| DealsRoute.EffectiveSkip | apps/api/src/routes/deals.ts:11-33 | absent skip is 0, otherwise the parsed value floored at 0 |
| DealsRoute.DefaultSkipText | apps/api/src/routes/deals.ts:11 | the default text "0" parses to skip 0 |
| DealsRoute.PageSize | apps/api/src/routes/deals.ts:36 | the number of documents a limit asks for is its absolute value |
| DealsRoute.LimitOfDecimal | apps/api/src/routes/deals.ts:32 | a decimal limit k gives 50 for 0 and min(k, 100) otherwise |
| DealsRoute.NegativeLimitKept | apps/api/src/routes/deals.ts:32-36 | `-k` passes unclamped, and k deals are asked for |
| DealsRoute.SkipOfDecimal | apps/api/src/routes/deals.ts:33 | a decimal skip k is k |
| DealsRoute.Ordered | apps/api/src/routes/deals.ts:35-39 | the matching deals, newest first, as a permutation |
| DealsRoute.ListDeals | apps/api/src/routes/deals.ts:9-56 | an access level outside the enum is a 400; otherwise every deal is active and matches each given filter, newest first; total, limit and skip are reported; the page is the sorted matches from skip on, and its length is exactly the smaller of the page size and the matches left after skip (0 past the end); `hasMore` holds exactly when skip plus the page is below the total; past the end the page is empty |
| DealsRoute.NextPage | apps/api/src/routes/deals.ts:49 | asking for the next page, with skip advanced by the number of deals seen, yields deals exactly when `hasMore` said so |
| DealsRoute.NextQuery | apps/api/src/routes/deals.ts:32-49 | the same holds for any query with the same filter and limit whose skip text parses to that count |
| DealsRoute.SkipPastEnd | apps/api/src/routes/deals.ts:33-49 | a skip beyond the total returns an empty page, whose skip plus length exceeds the total |
| DealsRoute.FirstPageIsComplete | apps/api/src/routes/deals.ts:13-41 | with no skip and a large enough page, the listing holds exactly the active matching deals |
| DealsRoute.Detail | apps/api/src/routes/deals.ts:61-88 | an empty key is 400; a found deal is stored and active and has the key as slug, or as id when it is 24 hex digits; 404 exactly when no such deal exists; the slug match wins |
| DealsRoute.LookupOrderDiffers | apps/api/src/routes/deals.ts:70-76 | when one deal's id is another's slug, a claim takes the first and the detail page shows the second |
| DealsRoute.LookupsAgreeOtherwise | apps/api/src/routes/deals.ts:70-81 | when no active deal has the key as slug, detail and claim resolve the same deal |
| ErrorHandler.FallbackStatus | apps/api/src/middleware/errorHandler.ts:21 | `statusCode`, else `status`, else 500, skipping zero and absent values |
| ErrorHandler.ErrorHandler | apps/api/src/middleware/errorHandler.ts:7-58 | a Mongo duplicate key is 409 `DUPLICATE_KEY`; a validation error 400; a cast error 400 `INVALID_ID`; otherwise the fallback status and the error's code or `INTERNAL_ERROR`; details and stack appear exactly in development when present |
| ErrorHandler.DuplicateKeyIgnoresStatus | apps/api/src/middleware/errorHandler.ts:37-42 | a duplicate-key answer is 409 whatever status the error carries |
| ErrorHandler.ProductionHidesInternals | apps/api/src/middleware/errorHandler.ts:29-35 | outside development neither details nor stack are sent |
| ErrorHandler.StatusIsError | apps/api/src/middleware/errorHandler.ts:21-57 | without a success status on the error, the answer is an error status |
| ErrorHandler.NotFound | apps/api/src/middleware/errorHandler.ts:63-74 | 404 `NOT_FOUND` whose message is "Route", the method, the path and "not found" |
| ErrorHandler.NotFoundNamesRoute | apps/api/src/middleware/errorHandler.ts:63-74 | the message identifies the route: two requests with space-free methods get the same 404 only when method and path agree |
| Connect.CheckUri | apps/api/src/db/connect.ts:10-14 | the connection is attempted exactly when the URI has a non-space character; otherwise the fixed error |
| Connect.ToJson | apps/api/src/db/connect.ts:68-79 | `_id` becomes `id`, `_id` and `__v` are removed, every other field is kept |
| Connect.JsonRoundTrip | apps/api/src/db/connect.ts:72-77 | renaming `id` back restores the document less `__v` |
| Connect.ToJsonNotIdempotent | apps/api/src/db/connect.ts:72-77 | applying the transform to its own output loses the id |
| DealsPage.FilterDeals | apps/web/app/deals/page.tsx:63-88 | every kept deal was fetched and matches each control that is set |
| DealsPage.FilterIsConjunction | apps/web/app/deals/page.tsx:63-88 | the three sequential filters keep exactly the deals passing all three tests, in fetched order |
| DealsPage.FilterKeepsOrderAndCompleteness | apps/web/app/deals/page.tsx:63-88 | the result is a subsequence of the fetched deals, and holds every deal passing the controls |
| DealsPage.ClearedFiltersShowAll | apps/web/app/deals/page.tsx:262-266 | after clearing the filters every fetched deal is shown |
| DealsPage.LockedOnlyForUnverified | apps/web/app/deals/page.tsx:90-92 | only locked deals show the lock; a verified user sees none, a signed-out visitor sees every locked one |
| ApiClient.BuildHeaders | apps/web/lib/api.ts:55-64 | JSON content type unless the caller overrides it, the caller's headers, and `Bearer <token>` exactly when a non-empty token is stored |
| ApiClient.NoTokenKeepsCallerHeaders | apps/web/lib/api.ts:62-64 | without a token no Authorization header is added |
| ApiClient.Url | apps/web/lib/api.ts:66 | the URL is the base followed by the endpoint |
| ApiClient.Build | apps/web/lib/api.ts:112-141 | method, URL and headers as built; a body is sent exactly for POST/PUT with a truthy value, serialised |
| ApiClient.ErrorMessage | apps/web/lib/api.ts:78-93 | an error object's message, else an error string, else the body's message, else "An error occurred" |
| ApiClient.Interpret | apps/web/lib/api.ts:68-106 | an ok response is `{ data }`; a failed one is `{ error }` with a non-empty message; a thrown value gives its message or "Network error" |
| ApiClient.ErrorMessageNonEmpty | apps/web/lib/api.ts:76-97 | a failed response always has a non-empty message |
| ApiClient.ServerErrorMessageSurfaces | apps/web/lib/api.ts:80-84 | the server's `{ error: { message } }` reaches the caller as that message |
| ApiClient.ClientHeaderMeetsGuard | apps/web/lib/api.ts:62-64 | the client's header passes `authRequired` exactly when the token verifies, with its payload |
| AuthSession.Complete | apps/web/contexts/AuthContext.tsx:63-103 | login/register succeed exactly when there is no error and a body; success stores the token and user; failure leaves the session and gives the error or "Unknown error occurred" |
| AuthSession.Logout | apps/web/contexts/AuthContext.tsx:108-111 | token and user are cleared |
| AuthSession.Refresh | apps/web/contexts/AuthContext.tsx:44-58 | the session user is the response's user exactly when there is one, the token kept; otherwise token and user are cleared; loading ends |
| AuthSession.Init | apps/web/contexts/AuthContext.tsx:26-39 | with a stored token the start-up refreshes, otherwise it only stops loading |
| AuthSession.RefreshAgainstServer | apps/web/contexts/AuthContext.tsx:44-58 | against the server, refresh signs in the token's payload exactly when the token is non-empty and verifies |
| AuthSession.TransitionsKeepCoherent | apps/web/contexts/AuthContext.tsx:19-111 | every transition keeps a signed-in user paired with a stored token |
| AuthSession.InitWithoutTokenIgnoresResponse | apps/web/contexts/AuthContext.tsx:30-35 | with no stored token the start-up does not depend on any response and nobody is signed in |
| AuthSession.RefusedLoginKeepsSession | apps/web/contexts/AuthContext.tsx:69-71 | a refused login shows the server's message and changes nothing |
| AuthSession.AcceptedLoginSignsIn | apps/web/contexts/AuthContext.tsx:73-77 | an accepted login signs in the returned user with the issued token |
| AuthSession.EmptyThrownMessageIsUnknown | apps/web/contexts/AuthContext.tsx:69-79 | a thrown error with an empty message ends as "Unknown error occurred" |
| Journeys.PostClaim | apps/api/src/routes/claims.ts:15 | the route refuses at the guard exactly when the header fails it, at the schema exactly when `dealId` is not a non-empty string, and otherwise hands the token's subject and the `dealId` to the handler |
| Journeys.MissingDealIdUnreachable | apps/api/src/routes/claims.ts:30-38 | the handler's own missing-dealId answer cannot occur through the route |
| Journeys.TokenFlagIgnored | apps/api/src/routes/claims.ts:59-62 | the token's verification flag never changes the answer |
| Journeys.BadgeMatchesGate | apps/web/app/deals/page.tsx:90-92 | when the page's user carries the stored flag, a deal shows the lock exactly when claiming it is refused with 403 |
| Journeys.StaleBadgeAfterVerification | apps/web/contexts/AuthContext.tsx:49-50 | after a reload the user is the token payload, so a user verified later still sees the lock while the server admits the claim |
| Journeys.NegativeLimitBypassesSchema | apps/api/src/routes/deals.ts:9 | the listing does not run the query schema: a negative limit the schema refuses is served |
| Journeys.AcceptedLimitInRange | apps/api/src/utils/validation.ts:31 | a limit the schema accepts would give 1 to 100 deals |
| Text.TrimIsTrimmed | apps/api/src/models/user.ts:18 | trimming leaves no surrounding white space |
| Text.TrimEmpty | apps/api/src/db/connect.ts:10 | a string trims to empty exactly when it is all white space |
| Text.NormalizeIsNormal | apps/api/src/models/user.ts:16 | the lower-case/trim setter's output is lower-case and trimmed |
| Text.NormalOfNormal | apps/api/src/models/deal.ts:25 | the setter leaves a normalised value unchanged |
| Text.SplitJoin | apps/api/src/middleware/validate.ts:19 | splitting a dotted join of dot-free keys gives the keys back |
| JsNumber.LeadingDigits | apps/api/src/routes/deals.ts:32-33 | `parseInt` reads the longest digit prefix |
| JsNumber.ParseDecimal | apps/api/src/routes/deals.ts:32-33 | `parseInt` of a number's decimal text is that number |
| JsNumber.ParseNegative | apps/api/src/routes/deals.ts:32 | `parseInt("-k")` is `-k` |
| Seqs.Filter | apps/web/app/deals/page.tsx:63-88 | the kept elements are exactly those passing the test, with every passing element's multiplicity |
| Seqs.FilterTwice | apps/web/app/deals/page.tsx:63-88 | filtering by one test and then another is filtering by both |
| Seqs.SortDesc | apps/api/src/routes/deals.ts:38 | sorting by a key, newest first, is a permutation |
| Seqs.PageOfSorted | apps/api/src/routes/deals.ts:36-37 | a page of a sorted sequence is sorted, and is the elements from skip on |

## Left out

- Network, database and process I/O are left out: connecting, listeners, logging, `console` output, rate limiting, CORS, helmet and morgan. Only the URI guard and the JSON transform of the connection module are pure.
- The 500 answers of the `catch` blocks for database failures (fetching deals or claims, register, login) are left out. The store is an in-memory value that does not fail. Only the failures the model itself produces are modelled: the creation validation error and the duplicate key.
- Concurrent requests are not modelled. Every handler runs to completion on one store. The race between the duplicate check and the insert in `POST /claims` is represented only by the duplicate-key branch, which stands for the unique index.
- `ObjectId` casting is not modelled. Ids are strings, and `ObjectId.isValid` is a parameter. A lookup with an unparsable id that would raise a `CastError` is not modelled.
- Query-side setter casting is not modelled. Mongoose lower-cases and trims query values for `email` and `slug`. The model compares the lookup value exactly with the stored value, so a slug with capitals or spaces is not found in the model.
- MongoDB's `$text` search (tokenisation, stemming, stop words) is the parameter `textMatch`.
- `claimedAt` is treated as present on every claim, as its default ensures.
- `jsonwebtoken` expiry and signature checks are inside `verify`. bcrypt's salt and cost are inside `hash` and `compare`.
- AuthMiddleware.AuthRequired: the 401 for a token that fails to verify also carries `details`, the message of the error `jsonwebtoken` threw (apps/api/src/middleware/auth.ts:37). `verify` returns an `Option`, so the reason is not modelled and the answer keeps only the fixed message.
- JsNumber.ParseInt: `parseInt` returns a double, so a digit string past 2^53 rounds in JavaScript. The model reads it as an unbounded integer. Limits and skips that large are not modelled.
- zod's exact messages for type errors and enum failures are simplified. They are modelled as a type name in the message, and the accessLevel enum message.
- `lean()` results skip the `toJSON` transform, so listings and the claim populate expose `_id`. The model's records have no key names, so this is not visible in the model.
- DealsPage.FilterDeals: the client's `Deal` type declares description and partner name as strings, and the model follows it. A stored deal without one of them makes the page's `toLowerCase` throw, and that is not modelled.
- ApiClient.Interpret: a JSON body of `null` on a failed response throws when `error` is read. That is caught as a thrown `TypeError`, which the model lets the caller describe as `Thrown` with its message. A falsy JSON body on an ok response is not modelled.
- Case folding and white space are ASCII-only: JavaScript's full Unicode `toLowerCase` and `trim` are not modelled.
- The page's rendering and animation are left out. So are the deal detail page, the dashboard, the seed script and the health route.

## Notes on the code as written

- `GET /deals` does not attach `dealsQuerySchema`. A negative `limit` reaches MongoDB unclamped, and MongoDB then returns the absolute value of the limit. So the limit is not confined to 1..100.
- A `skip` beyond the total gives an empty page whose `skip` plus length exceeds `total`.
- `POST /claims` resolves a key by `_id` first, then by slug. `GET /deals/:slugOrId` resolves it by slug first, then by `_id`.
- The verification gate reads the stored user's flag, never the token's.
