# HireNow backend core, modelled in Dafny

HireNow is a Django REST backend that matches customers with local workers:
drivers, plumbers, electricians and the like. This project models its core and
proves properties of that model:

- **One-time codes.** Codes are issued and checked against an OTP table with a
  ten-minute expiry.
- **Endpoint gate.** A middleware decides, for every `/api/` request, whether
  the path is public, whether the route exists and whether the bearer token
  names a stored user.
- **Permission classes.** The worker-only permission and the owner-or-read-only
  permission.
- **Admin views.** An admin lists the workers awaiting verification and
  approves or rejects them.
- **Review views.** Reviews are listed, created, updated and deleted; only the
  author may write.
- **Worker views.** Workers are listed (optionally by category), looked up one
  by one, or searched within a radius of a point.
- **Response builders.** The success and error payload builders.
- **Seed data.** The `seed_data` management command inserts categories, worker
  users with their profiles, customers and reviews. Every insert is a keyed
  `get_or_create`, so a second run finds every row and inserts nothing.

The database is the class `Store.Database`. It has one map per table, from
primary key to row, and one key counter. Its invariant `Valid` holds that:

- every key is below the counter;
- usernames and category slugs are unique;
- worker foreign keys resolve.

Controllers that change the database are methods over it. Read-only views are
functions of its tables. Several things are inputs rather than modelled code:

- the order in which a query scans a table (`order`);
- the current time (an integer number of seconds);
- the random draws of the code generator and of the seeding command;
- URL resolution;
- the JWT validator;
- the distance formula.

The modules are:

- `Wrappers`: `Option`, the response statuses and `Result`.
- `Text`: Python's `strip`, `split`, `join`, `startswith` and `in` on strings.
- `Store`: the rows and the `Database` class.
- `Response`, `Permissions`, `Otp`, `Middleware`: one module per core service.
- `Workers`, `Admin`, `Reviews`, `WorkerReviews`: one module per controller file.
- `Seed`: the seeding command.

## Model

| member | source | states |
|---|---|---|
| Text.TrimStart | core/middleware.py:41 | the result is a suffix of the input; every character dropped is in the strip set and the first one kept is not |
| Text.TrimEnd | core/middleware.py:41 | the result is a prefix of the input; every character dropped is in the strip set and the last one kept is not |
| Text.Strip | core/middleware.py:41 | the result is a contiguous slice of the input; every character dropped before or after it is in the strip set, and the result neither begins nor ends with one |
| Text.StripClean | core/middleware.py:41 | stripping a string that neither begins nor ends with a stripped character returns it unchanged |
| Text.Split | core/middleware.py:42 | `split` always yields at least one piece and no piece holds the separator |
| Text.NonEmpty | core/middleware.py:42 | the filter `if p` keeps exactly the non-empty pieces, and nothing else |
| Text.NonEmptyAppend | core/middleware.py:42 | filtering a concatenation filters each part |
| Text.StripKeepsPieces | core/middleware.py:41-42 | stripping the separator first leaves the non-empty pieces of a split unchanged |
| Text.SplitJoin | core/middleware.py:42 | round trip: splitting the join of separator-free pieces gives back the pieces |
| Text.JoinSplit | core/middleware.py:42 | round trip: joining the pieces of a split gives back the string |
| Text.JoinClean | core/middleware.py:42 | joining non-empty separator-free pieces puts no separator at either end and never two in a row |
| Text.ContainsAt | core/middleware.py:49-50 | an occurrence at any position makes Python's `in` true |
| Store.Select | core/controllers/WorkerController.py:18-21 | a queryset filter keeps exactly the stored rows that satisfy the filter, in scan order (a subsequence of the scan) |
| Store.Lookup | core/controllers/WorkerController.py:31-36 | `objects.get(pk=pk)`: the stored row exactly when the key is present, otherwise NOT_FOUND with the view's message |
| Store.WorkersOfAdd | core/management/commands/seed_data.py:94-104 | inserting a profile under a fresh key adds it to its own user's profiles and changes no other user's |
| Store.ReviewsBetweenAdd | core/management/commands/seed_data.py:148-152 | inserting a review under a fresh key changes the reviews of its own (worker, author) pair only |
| Store.Database.AddUser | core/management/commands/seed_data.py:80-89 | an insert takes the next key, keeps the invariant and leaves the other tables alone |
| Store.Database.AddCategory | core/management/commands/seed_data.py:26 | the same for a category whose slug is new |
| Store.Database.AddWorker | core/management/commands/seed_data.py:94-104 | the same for a profile whose user and category are stored |
| Store.Database.AddReview | core/management/commands/seed_data.py:148-152 | the same for a review |
| Response.SuccessResponse | utils/response.py:8-15 | `success` is true; `data` is present exactly when data is given; `message` is present exactly when it is given and non-empty; the status is the given code |
| Response.ErrorResponse | utils/response.py:18-23 | `success` is false; `message` is always present; `errors` is present exactly when given; the status is the given code |
| Response.SuccessAndErrorDiffer | utils/response.py:10-20 | a success payload and an error payload never carry the same `success` flag |
| Response.Defaults | utils/response.py:8-23 | the defaults give status 200 and status 400; an empty list as data is still included; an empty message is left out |
| Permissions.IsWorkerPermission | utils/permissions.py:10-15 | exactly the registered users whose role is worker pass; the anonymous user never does, and the staff flag grants nothing |
| Permissions.IsOwnerOrReadOnly | utils/permissions.py:21-26 | GET, HEAD and OPTIONS are always allowed, whoever asks; any other verb is allowed exactly to the registered user named by the object's `user` or `author` |
| Permissions.OwnerlessIsReadOnly | utils/permissions.py:24-26 | an object with neither attribute can be written by nobody |
| Otp.Digits | core/services/OTPService.py:23 | `count` draws from `string.digits` give `count` characters, all digits |
| Otp.GenerateOtp | core/services/OTPService.py:20-23 | no length or a length of 0 gives 6 digits; a positive length n gives n digits; a negative length gives "" |
| Otp.Matching | core/services/OTPService.py:36-38 | the filter keeps exactly the stored records for the phone and code that expire after now |
| Otp.Newest | core/services/OTPService.py:39-40 | `order_by("-created_at").first()` is absent exactly for an empty set; otherwise no record is newer |
| Otp.VerifyIffLive | core/services/OTPService.py:34-42 | `verify_otp` (Otp.Verify, the filter then `order_by("-created_at").first()`) answers true exactly when some stored record for the phone carries the code and has not expired |
| Otp.IssuedCodeVerifies | core/services/OTPService.py:26-42 | a code just stored verifies at every time before its expiry |
| Otp.OlderCodeStillVerifies | core/services/OTPService.py:26-42 | issuing a new code does not invalidate an older unexpired one |
| Otp.IrrelevantRecord | core/services/OTPService.py:36-38 | an expired record, or one for another phone or code, changes no answer |
| Otp.NeverIssuedNeverVerifies | core/services/OTPService.py:34-42 | a code never stored for a phone never verifies |
| Otp.OtpTable.CreateOtp | core/services/OTPService.py:26-31 | the new code has six digits; the table gains exactly the record expiring ten minutes after now; the code verifies at once |
| Otp.OtpTable.VerifyOtp | core/services/OTPService.py:34-42 | the answer is true exactly when some live record for the phone carries the code |
| Otp.ValidityWindow | core/services/OTPService.py:29-38 | an issued code is accepted before now plus ten minutes; from then on the record no longer counts |
| Middleware.Normalize | core/middleware.py:41-42 | the normalised path has no slash at either end and no two slashes in a row |
| Middleware.NormalizeSegments | core/middleware.py:41-42 | the normalised path is empty exactly when the raw path has no non-empty segment, and otherwise splits into exactly those segments |
| Middleware.NormalizeOfJoin | core/middleware.py:41-42 | a raw path joined from separator-free pieces normalises to the join of its non-empty pieces |
| Middleware.NormalizeIdempotent | core/middleware.py:41-42 | normalising a normalised path changes nothing |
| Middleware.UnderPrefix | core/middleware.py:45-47 | true exactly when the path equals a listed prefix or extends one with "/" |
| Middleware.MentionsAny | core/middleware.py:49-50 | true exactly when some marker occurs in the path |
| Middleware.IsPublicPath | core/middleware.py:38-53 | only a path that normalises to an `api/` path can be public |
| Middleware.ListedPathsArePublic | core/middleware.py:21-47 | every listed prefix, and every path under one of them, is public |
| Middleware.AuthMarkersArePublic | core/middleware.py:49-52 | an `api/` path that mentions "auth/" and any marker is public |
| Middleware.PrefixStopsAtSegment | core/middleware.py:45-47 | "api/categoriesX" is under no listed prefix: prefixes match whole segments |
| Middleware.SubstringRuleIsLoose | core/middleware.py:45-52 | "api/auth/login-legacy" is under no prefix but is public through the substring rule |
| Middleware.WorkersPathIsPublic | core/middleware.py:21-47 | "/api//workers/" normalises to "api/workers" and is public |
| Middleware.UnlistedWithoutAuthNeedsToken | core/middleware.py:43-53 | a normalised path under no listed prefix and without "auth/" is not public |
| Middleware.ReviewsNotPublic | core/middleware.py:21-53 | any raw path normalising to "api/reviews" is not public |
| Middleware.ReviewsPathNeedsToken | core/middleware.py:21-53 | "/api/reviews/" normalises to "api/reviews" and needs a token |
| Middleware.RawToken | core/middleware.py:102 | the token is the text after "Bearer " up to the next space, and holds no space |
| Middleware.Decide | core/middleware.py:55-164 | non-`/api/` paths pass untouched; NOT_FOUND exactly for unresolved routes; the header is dropped exactly for resolved public paths; a missing or non-Bearer header gives UNAUTHORIZED; a forwarded user went through every check and is the stored user the token names (the converse is Middleware.TokenOutcomes) |
| Middleware.TokenOutcomes | core/middleware.py:101-164 | on a resolved, non-public `/api/` path with a Bearer header: a token naming a positive, stored user id forwards that user; a token without a usable id, naming a missing user, invalid, or failing authentication gives UNAUTHORIZED |
| Middleware.HttpRequest.constructor | core/middleware.py:55-57 | a fresh request is anonymous and still has CSRF checks on |
| Middleware.Call | core/middleware.py:55-173 | the outcome is Decide's; CSRF checks always off; header removed only on public paths; `request.user` becomes the forwarded user exactly when the decision forwards one, so with Middleware.TokenOutcomes a valid token for a stored user authenticates the request |
| Workers.ListWorkers | core/controllers/WorkerController.py:17-23 | a non-empty `category` that `int()` cannot parse fails with status 500 (ValueError) and nothing else fails; otherwise the listing is exactly the stored workers of that category (all of them for a missing or empty parameter), in scan order |
| Workers.WorkerDetail | core/controllers/WorkerController.py:31-36 | the stored worker, or NOT_FOUND with "Worker not found" exactly when the key is absent |
| Workers.NearbyRadius | core/controllers/WorkerController.py:47 | a missing or zero radius becomes 50 km; any other is kept |
| Workers.NearbyWorkers | core/controllers/WorkerController.py:44-60 | VALIDATION_ERROR exactly when lat or lng is missing; otherwise exactly the workers within the radius, in scan order |
| Workers.CategoryNarrowsListing | core/controllers/WorkerController.py:18-21 | for a category that parses, the filtered listing keeps exactly the unfiltered listing's workers in that category |
| Workers.NearbyGrowsWithRadius | core/controllers/WorkerController.py:47-60 | a larger radius finds every worker a smaller one finds |
| Admin.AdminCheck | core/controllers/AdminController.py:10-17 | `check_permissions` with `IsAdminUser`: staff or admin-role users pass; an anonymous user gets 401 NotAuthenticated; any other user gets 403 PermissionDenied |
| Admin.CategoryName | core/controllers/AdminController.py:34 | the category's name, or "" when the worker has none |
| Admin.EmailOf | core/controllers/AdminController.py:35 | the owner's e-mail, or "" for a falsy user key |
| Admin.PendingWorkers | core/controllers/AdminController.py:10-37 | a non-admin gets the permission failure (401 anonymous, 403 otherwise); for an admin the entries list exactly the unverified workers in scan order, each with its row, owner's display name (`get_full_name()` stripped of Python whitespace, else the username), category name and owner's e-mail |
| Admin.WithVerified | core/controllers/AdminController.py:47-49 | only the verified flag of the one worker changes; an absent key changes nothing |
| Admin.LastVerdictWins | core/controllers/AdminController.py:45-67 | approving or rejecting twice is doing it once; the later verdict wins |
| Admin.VerdictKeepsLinks | core/controllers/AdminController.py:45-67 | a verdict keeps every worker foreign key resolving |
| Admin.VerdictMovesPending | core/controllers/AdminController.py:27-67 | an approved worker leaves the pending list; a rejected one is on it |
| Admin.ApproveWorker | core/controllers/AdminController.py:40-52 | a non-admin gets the permission failure and no worker changes; for an admin the worker becomes verified and is returned; NOT_FOUND and no change for an absent key; no other table changes |
| Admin.RejectWorker | core/controllers/AdminController.py:55-67 | a non-admin gets the permission failure and no worker changes; for an admin the worker stays, unverified; NOT_FOUND and no change for an absent key |
| Reviews.NewReview | core/controllers/ReviewController.py:26-31 | the created row has the given worker and rating and the requesting author; a sent comment is stored with Python whitespace stripped from both ends (DRF `CharField` trimming), an absent one as "" |
| Reviews.UpdatedReview | core/controllers/ReviewController.py:52-57 | a full update replaces worker and rating, keeps the author, stores a sent comment whitespace-stripped and keeps the old comment when none is sent |
| Reviews.BlankCommentSavedEmpty | core/models/Review.py:14 | a comment of whitespace only is stored as "" (`blank=True` admits it after trimming) |
| Reviews.CommentAccepted | core/models/Review.py:14 | the `comment` field accepts an absent comment or text without NUL; the trimmed comment then saved has no NUL either |
| Reviews.ValidInputSavesValidRow | core/serializers/ReviewSerializer.py:5-19 | a body that `is_valid()` accepts (Reviews.IsValidInput: a stored worker, a rating in `RATING_CHOICES`, an accepted comment) saves a row about a stored worker, rated 1 to 5, by the given author, with no NUL in its comment |
| Reviews.ListReviews | core/controllers/ReviewController.py:15-21 | a non-empty `worker_id` that `int()` cannot parse fails with status 500 (ValueError) and nothing else fails; otherwise exactly the stored reviews of that worker (all for a missing or empty parameter), in scan order |
| Reviews.ReviewDetail | core/controllers/ReviewController.py:40-45 | the stored review, or NOT_FOUND with "Review not found" exactly when the key is absent |
| Reviews.MayWrite | core/controllers/ReviewController.py:50-51 | anyone may read a review; an update or delete is allowed exactly to its registered author |
| Reviews.SaveNewReview | core/controllers/ReviewController.py:26-32 | invalid input gives VALIDATION_ERROR and no insert; valid input inserts exactly one new review by the given author |
| Reviews.CreateReview | core/controllers/ReviewController.py:23-32 | anonymous gives UNAUTHORIZED; then validation; then exactly one new review whose author is the requester, whatever the body says |
| Reviews.UpdateReview | core/controllers/ReviewController.py:47-60 | NOT_FOUND, then FORBIDDEN for a non-author, then VALIDATION_ERROR; success replaces only that review; a failure changes nothing |
| Reviews.DeleteReview | core/controllers/ReviewController.py:62-70 | NOT_FOUND, then FORBIDDEN for a non-author; success removes exactly that review |
| Reviews.CreatedReviewListed | core/controllers/ReviewController.py:15-21 | a created review shows in the listing filtered by a `worker_id` that parses to its worker |
| WorkerReviews.WorkerReviewList | core/controllers/WorkerReviewsController.py:15-22 | NOT_FOUND exactly for an absent worker; otherwise exactly that worker's reviews, in scan order |
| WorkerReviews.CreateWorkerReview | core/controllers/WorkerReviewsController.py:24-38 | UNAUTHORIZED before the worker lookup; NOT_FOUND for an absent worker; the review is for the route's worker and by the requester, whatever the body says |
| WorkerReviews.PostedReviewListed | core/controllers/WorkerReviewsController.py:15-38 | a review posted for a worker shows in that worker's list |
| Seed.GetOrCreateCategory | core/management/commands/seed_data.py:26 | a stored slug is returned untouched; otherwise exactly one category is inserted |
| Seed.WithSeedPassword | core/management/commands/seed_data.py:90-92 | a blank password becomes the seed password; any other is kept |
| Seed.EnsureUser | core/management/commands/seed_data.py:80-92 | the user with that username is returned, or inserted, and ends with a password; rows that had a password are untouched |
| Seed.GetOrCreateWorker | core/management/commands/seed_data.py:94-104 | no profile for the user inserts one; one profile is returned; two or more raise MultipleObjectsReturned; on success the user has exactly that one profile |
| Seed.GetOrCreateReview | core/management/commands/seed_data.py:148-152 | the same for reviews keyed by (worker, author) |
| Seed.CreateCategories | core/management/commands/seed_data.py:14-28 | every slug is stored and stored rows are never altered; on a database holding every slug it returns the stored keys and changes nothing |
| Seed.FirstWithSlug | core/management/commands/seed_data.py:93 | the first position with the slug, or none |
| Seed.PickCategory | core/management/commands/seed_data.py:93 | the first category with the slug, else the first one; an empty list raises IndexError |
| Seed.WorkersSeededKept | core/management/commands/seed_data.py:109-126 | the customer phase keeps the worker phase's rows seeded |
| Seed.WorkersSeededGrow | core/management/commands/seed_data.py:79-105 | a later entry never disturbs an earlier entry's single profile |
| Seed.ProfilesIndexedGrow | core/management/commands/seed_data.py:79-105 | the profile one more entry inserts joins those inserted before, each still the profile its entry builds |
| Seed.SeedWorker | core/management/commands/seed_data.py:80-105 | one entry ends with its user and that user's single profile; a profile it inserts is exactly the entry's row (description, experience, coordinates offset from Jaffna, verified flag) for that user with the picked category; stored profiles are untouched; an empty category list raises IndexError; on a seeded entry it changes nothing |
| Seed.SeedEntry | core/management/commands/seed_data.py:79-105 | one turn of the worker loop: the entries so far stay seeded and every profile inserted since the loop began is the row of the entry that inserted it |
| Seed.CreateUsersAndWorkers | core/management/commands/seed_data.py:31-106 | every entry ends seeded; every profile it inserted is the row its entry builds, with the picked category; an empty category list raises IndexError; on a seeded database it returns the stored keys and changes nothing |
| Seed.EnsureCustomers | core/management/commands/seed_data.py:110-126 | every customer ends stored with a password; on a seeded database it returns the stored keys and changes nothing |
| Seed.DrawnReview | core/management/commands/seed_data.py:147-152 | the created review joins the worker and the drawn customer; its rating is a valid `RATING_CHOICES` value whenever every template's is |
| Seed.FirstReviewKeepsReady | core/management/commands/seed_data.py:148-152 | inserting the first review of a pair keeps every pair that had exactly one review at one |
| Seed.ReviewWorker | core/management/commands/seed_data.py:146-152 | each drawn customer ends with exactly one review of the worker; every review it inserts is the review of one of its draws (that worker, the drawn customer, the drawn template's rating and comment); stored reviews are untouched; on a seeded worker nothing changes |
| Seed.ReviewEntry | core/management/commands/seed_data.py:141-152 | one turn of the review loop: the workers so far stay reviewed and every review inserted since the loop began is traced to its worker and draw |
| Seed.ReviewsIndexedGrow | core/management/commands/seed_data.py:141-152 | the reviews one more worker receives join those inserted before, each still the review of its draw |
| Seed.CreateReviews | core/management/commands/seed_data.py:109-152 | every drawn pair ends with exactly one review; every review it inserts is the review of some worker's draw; on a seeded database it changes nothing; the draws give each worker one to four distinct customers |
| Seed.DistinctInSet | core/management/commands/seed_data.py:145 | distinct keys all inside a set are no more than its size |
| Seed.DrawnCustomersReviewed | core/management/commands/seed_data.py:143-152 | when each of a worker's distinct drawn customers has a review of it, the worker has at least that many distinct reviewers |
| Seed.SeededWorkerReviewers | core/management/commands/seed_data.py:120-152 | on any data with distinct customer usernames, each seeded worker drew one to four customers and has at least that many distinct reviewers |
| Seed.CustomerUsernamesDistinct | core/management/commands/seed_data.py:120-126 | the five customers have distinct usernames |
| Seed.ReviewDataRatingsValid | core/management/commands/seed_data.py:128-139 | every review template rates within `RATING_CHOICES` (1 to 5) |
| Seed.SeededWorkersReviewed | core/management/commands/seed_data.py:141-152 | after the command, every seeded worker drew one to four customers and has at least that many distinct reviewers |
| Seed.InsertedProfileCategory | core/management/commands/seed_data.py:93-104 | a profile the worker loop inserted belongs to its entry's user, carries the entry's description and verified flag, and its category is a seeded one: the one with the entry's slug when there is one, otherwise the first |
| Seed.InsertedReviewsRateValid | core/management/commands/seed_data.py:141-152 | every review the command inserted is about a seeded worker profile, by a seeded customer, and rates within `RATING_CHOICES` whenever every template does |
| Seed.Run | core/management/commands/seed_data.py:158-167 | a completed run leaves everything seeded, and every profile and review it inserted is the row the command builds for its entry or draw; a run on a seeded database completes with the same keys and changes nothing |
| Seed.Handle | core/management/commands/seed_data.py:158-167 | the same over the command's own data |
| Seed.SeededReviewsRateValid | core/management/commands/seed_data.py:128-152 | after the command completes, every review it inserted rates 1 to 5, is about a seeded worker profile and is by a seeded customer |
| Seed.HandleTwice | core/management/commands/seed_data.py:158-167 | a second run with the same draws returns what the first returned and leaves the database as the first left it |

## Left out

- Floating point. Coordinates, radii and offsets are reals. The distance
  between two points is a function parameter; the haversine formula of
  core/services/DistanceService.py is not modelled.
- The random generator. The digits of a code and the seeding command's draws
  are inputs: `random.seed(42)`, `randint`, `sample` and `choice`. The seeding
  proofs hold for any draws naming existing customers and templates.
- Time. The clock is an integer number of seconds passed in by the caller.
- Password hashing. `set_password` stores `Hashed(secret)`; the hash function
  is not modelled.
- Django plumbing:
  - URL resolution is a boolean input to the middleware.
  - JWT validation is a function input returning the validator's verdict.
  - The downstream view is not modelled.
  - The `except Exception` catch-all of core/middleware.py:166-171 is not
    modelled, because no modelled step raises.
- DRF permission classes. The admin views' `IsAdminUser` check is modelled
  (Admin.AdminCheck). Its 401/403 split assumes token authentication is
  configured, because the settings are not part of this model.
  `IsAuthenticatedOrReadOnly` on the review and worker views is represented by
  the handlers' own checks. `IsWorker` (utils/permissions.py:10-15) is modelled
  as a predicate only: no modelled view uses it.
- The review views import `IsOwnerOrReadOnly` from `services.PermissionService`,
  which is not part of this model. The class of utils/permissions.py stands
  in for it.
- Serialized output. Views return rows or keys rather than serializer
  dictionaries. `created_at` and the table's default `-created_at` ordering of
  reviews are replaced by the scan order input.
- The pending-workers view calls `worker_queryset()` from WorkerController.py.
  That file defines no such function, so the call would fail at run time. The
  model takes all workers, which is evidently what was meant.
- The nearby view calls `query_params.get(..., type=float)`, a keyword
  Django's QueryDict does not accept. The model takes `lat`, `lng` and
  `radius_km` as already-parsed optional reals, which is evidently what was
  meant. A value that does not parse is not modelled.
- Workers.NearbyWorkers: the `isnull=False` filter is vacuous, because the
  coordinate columns are NOT NULL (core/models/Worker.py:13-14).
- Otp: the code takes any unexpired matching record, not only the newest one,
  so an older unexpired code keeps working after a new one is issued. The
  model follows the code.
- The console messages of the seeding command are not modelled.
- Other services are not part of this model: authentication and Firebase,
  SMS, PayHere, uploads, and the statistics, user and category controllers.
- Seed.Handle: states the inserted rows as built from the command's own
  constants (Seed.InsertedAsBuilt); the literal values of the seeded rows are
  not restated in the contracts.
- Seed.Run: what the inserted profiles and reviews contain is stated for a
  completed run; after a MultipleObjectsReturned the rows inserted before it
  are not described.
- Python's `int()` on a query parameter is the function input `toInt`. The
  body of the 500 response Django produces for the ValueError is not modelled;
  the model returns status 500 with "ValueError".
- Seed.CreateReviews: proves at least as many distinct reviewers per worker
  as customers were drawn, not exactly that many, because reviews already
  stored by other customers are kept.
- Middleware.Call: decides first and then applies the effects (header
  removal, user) to the request; the order of the individual attribute writes
  inside `__call__` is not modelled.
- Text.Strip: Python's whitespace set is written out as the 29 code points
  `str.isspace` accepts; no other Unicode handling is modelled.
