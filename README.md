# Session API core, modelled in Dafny

A model of the logic of a small HTTP API that creates, reads, updates and
lists "session" records kept in a document database. Every endpoint sits
behind a static bearer-token check. Request parameters are checked against
closed enumerations and integer ranges, and every thrown error is turned
into a JSON error reply by one central mapper.

The model covers six source files, one Dafny module each:

- `Validators` (`validation.dfy`): the five request-parameter validators, as functions returning a `Result`.
- `Auth` (`auth.dfy`): the bearer-token gate and the load-time requirement that a key is configured.
- `Errors` (`errors.dfy`): the error class hierarchy, as one tagged datatype with status, code and message accessors.
- `ErrorHandler` (`error_handler.dfy`): the error-to-reply mapping, and `HandleError` writing into a `Response` object.
- `WithAuth` (`with_auth.dfy`): the auth-then-handle wrapper, as a method that runs the steps in order.
- `Sessions` (`sessions.dfy`): the session store, as a class over an in-memory `map<string, Session>`.
  Its list query is specified by pure filter, order and page functions.

Shared pieces are kept apart: `AppConstants` holds the enumerations, the
Bearer prefix and the limits. `Text` holds JavaScript's `trim`, `startsWith`
and `join`, and the decimal rendering of a non-negative integer below 10^21 in
a template literal (`NatToString`). `Wrappers` holds `Option` and `Result`.

External inputs become parameters:

- The UUID source is a `freshId` argument that names no stored record.
- The clock is an integer `now` argument.
- The configured API key is an `apiKey` argument, checked once by `LoadApiKey`.
- The wrapped handler is a function from request to what it did: the reply it wrote and the error it threw.

Some behaviours of the code that are easy to miss:

- The "required" guard of the validators trims the value first, so a blank string counts as missing.
- An absent offset becomes the named constant `DEFAULT_OFFSET`, whose value the validator does not fix.
- In the store, a `limit` or `offset` of 0 falls back to its default, because the code uses `||`.
- An empty region in a list query applies no filter, because the region filter is guarded by the region's truthiness.
- Nothing in the code enforces `updatedAt >= createdAt`. It holds only when the clock does not go backwards, and the model does not assume that.

## Model

| member | source | states |
|---|---|---|
| `Text.Trim` | functions/src/middleware/auth.ts:23 | `trim()` leaves a string without whitespace at either end; the result is empty exactly when the input is blank |
| `Text.TrimFixedPoint` | functions/src/middleware/auth.ts:23 | `trim()` leaves a string unchanged exactly when neither end is whitespace |
| `Text.TrimIdempotent` | functions/src/middleware/auth.ts:23 | trimming twice is trimming once |
| `Text.StartsWith` | functions/src/middleware/auth.ts:19 | `startsWith(prefix)` holds exactly when the string is the prefix followed by some rest (case-sensitive, character by character) |
| `Text.Join` | functions/src/utils/validation.ts:13 | `join(sep)`: no parts give the empty string, one part gives that part, and a longer list begins with its first part followed by the separator |
| `Text.JoinAppend` | functions/src/utils/validation.ts:13 | appending a part to a non-empty list appends the separator and that part; with the empty and one-part cases this fixes `join` for every list |
| `Text.JoinFour` | functions/src/utils/validation.ts:13 | a four-part list joins as the four parts with the separator between neighbours |
| `Text.NatToString` | functions/src/utils/validation.ts:44 | `${n}` for a non-negative integer below 10^21 (the bounds 1 and 100 here): decimal digits only, no leading zero (except "0" itself), whose decimal value is n |
| `Text.TrimSurrounded` | functions/src/middleware/auth.ts:23 | blank text around a string with non-whitespace ends is exactly what `trim()` removes |
| `AppConstants.StatusNamed` | functions/src/types/session.ts:3 | each of the four status names denotes the status whose name it is |
| `AppConstants.StatusNameInjective` | functions/src/constants/app.ts:3 | distinct statuses have distinct names |
| `Errors.NewAppError` | functions/src/types/errors.ts:1-13 | a bare error keeps its message and code; its status defaults to 500 |
| `Errors.NewUnauthorizedError` | functions/src/types/errors.ts:29-34 | status 401, code `UNAUTHORIZED`, message defaulting to "Unauthorized" |
| `Errors.SubclassFields` | functions/src/types/errors.ts:15-34 | ValidationError is (400, `VALIDATION_ERROR`, m); NotFoundError is (404, `NOT_FOUND`, r + " not found"); UnauthorizedError is (401, `UNAUTHORIZED`, m) |
| `Errors.CodeIdentifiesSubclass` | functions/src/types/errors.ts:15-34 | among the three subclasses, the code determines the kind and the status |
| `Validators.IsMissing` | functions/src/utils/validation.ts:7 | the shared "required" guard (also at lines 19 and 33) fires exactly when the value is absent or consists only of whitespace |
| `Validators.RegionsListed` | functions/src/utils/validation.ts:13 | `VALID_REGIONS.join(', ')` is "eu-central, us-east, us-west, ap-southeast" |
| `Validators.RegionMessageAsWritten` | functions/src/utils/validation.ts:12-14 | the invalid-region message is "Invalid region. Must be one of: " followed by that list |
| `Validators.StatusesListed` | functions/src/utils/validation.ts:25 | `VALID_STATUSES.join(', ')` is "pending, active, completed, failed" |
| `Validators.StatusMessageAsWritten` | functions/src/utils/validation.ts:24-26 | the invalid-status message is "Invalid status. Must be one of: " followed by that list |
| `Validators.LimitMessageAsWritten` | functions/src/utils/validation.ts:44 | the range message is "Limit must be a number between 1 and 100" |
| `Validators.ValidateRegion` | functions/src/utils/validation.ts:6-16 | succeeds iff the region is present and one of the four regions; every failure is a ValidationError; the "is required" message is given iff the input is absent or blank; a present, non-blank, unknown region gives exactly the "Invalid region" error listing the four regions |
| `Validators.ValidateStatus` | functions/src/utils/validation.ts:18-30 | succeeds iff the input is one of the four status names, returning the status of that name; every failure is a ValidationError; "is required" iff absent or blank; a present, non-blank, unknown name gives exactly the "Invalid status" error listing the four names |
| `Validators.StatusRoundTrip` | functions/src/utils/validation.ts:18-30 | every status passes validation unchanged |
| `Validators.ValidateStatusIdempotent` | functions/src/utils/validation.ts:18-30 | re-validating a validated status gives the same result |
| `Validators.ValidateSessionId` | functions/src/utils/validation.ts:32-36 | succeeds iff the id is present and has a non-whitespace character; otherwise the "is required" ValidationError |
| `Validators.ValidateLimit` | functions/src/utils/validation.ts:38-48 | absent gives `DEFAULT_LIMIT`; a present value is returned unchanged iff it lies in [1, 100]; otherwise the range ValidationError |
| `Validators.LimitBoundaries` | functions/src/__tests__/validation.test.ts:69-79 | 1 and 100 are accepted; 0, 101 and -1 are rejected |
| `Validators.ValidateOffset` | functions/src/utils/validation.ts:50-60 | absent gives `DEFAULT_OFFSET`; a present value is returned unchanged iff it is not negative; otherwise the ValidationError |
| `Auth.LoadApiKey` | functions/src/middleware/auth.ts:5-10 | the module loads iff the configured key is present and non-empty, and then uses it as given |
| `Auth.PresentedKey` | functions/src/middleware/auth.ts:23 | the key a Bearer header presents has no whitespace at either end, is empty exactly when the text after the prefix is blank, and is no longer than that text |
| `Auth.ValidateApiKey` | functions/src/middleware/auth.ts:12-28 | the checks run in order: a missing or empty header gives "Missing authorization header"; otherwise no `Bearer ` prefix gives "Authorization header must use Bearer format"; otherwise the trimmed rest must equal the key, else "Invalid API key"; every failure is an UnauthorizedError |
| `Auth.AcceptedIff` | functions/src/middleware/auth.ts:19-27 | accepted iff the header starts with `Bearer ` and the trimmed rest equals the configured key |
| `Auth.SurroundingWhitespaceTolerated` | functions/src/middleware/auth.ts:23-27 | whitespace before and after the key, after the prefix, does not prevent acceptance |
| `Auth.PrefixCaseSensitive` | functions/src/middleware/auth.ts:19-21 | a lower-case `bearer ` prefix is rejected as not Bearer format |
| `Auth.UntrimmedKeyRejectsAll` | functions/src/middleware/auth.ts:23-27 | a configured key that begins or ends with whitespace rejects every request |
| `ErrorHandler.CodeOrFallback` | functions/src/utils/errorHandler.ts:11 | an absent or empty code becomes `ERROR`; any other code is kept |
| `ErrorHandler.ErrorReply` | functions/src/utils/errorHandler.ts:7-24 | every mapped reply has `success == false`; an AppError keeps its status, message and (fallback) code; anything else gives 500 `INTERNAL_ERROR` "An unexpected error occurred" |
| `ErrorHandler.SubclassReplies` | functions/src/utils/errorHandler.ts:7-15 | the replies for the three subclasses are 400, 404 and 401 with their codes and messages |
| `ErrorHandler.CodelessErrorReply` | functions/src/utils/errorHandler.ts:8-14 | a bare AppError thrown with no code, or an empty one, is answered with its own status and message and the code `ERROR` |
| `ErrorHandler.ForeignErrorsIndistinguishable` | functions/src/utils/errorHandler.ts:16-24 | the reply for a non-AppError does not depend on what was thrown |
| `ErrorHandler.Response.Send` | functions/src/utils/errorHandler.ts:8-14 | writing a reply records it and marks the headers as sent |
| `ErrorHandler.HandleError` | functions/src/utils/errorHandler.ts:4-25 | with headers already sent nothing changes; otherwise the mapped reply is written |
| `WithAuth.GuardedHandle` | functions/src/middleware/withAuth.ts:6-15 | the handler runs iff the key check passes; the error routed to the mapper is the auth error or the handler's own; the response ends as the guarded reply |
| `WithAuth.RejectedRequestIgnoresHandler` | functions/src/middleware/withAuth.ts:8-13 | a rejected request gets a 401 `UNAUTHORIZED` reply that is the same for every handler |
| `WithAuth.HandlerErrorIsMapped` | functions/src/middleware/withAuth.ts:10-13 | an error thrown by the handler before it wrote becomes the mapped reply instead of propagating |
| `WithAuth.HandlerReplyPassesThrough` | functions/src/middleware/withAuth.ts:8-14 | when the check passes, what the handler wrote is what the client gets |
| `Sessions.FilterOf` | functions/src/services/sessionService.ts:59-65 | the status filter is applied when given; the region filter is applied iff the region is given and non-empty |
| `Sessions.OrDefault` | functions/src/services/sessionService.ts:69-70 | an absent or zero limit or offset becomes the default; any other value is kept |
| `Sessions.Page` | functions/src/services/sessionService.ts:75-84 | the page has min(limit, remaining) entries, and entry i is entry offset + i of the ordered result |
| `Sessions.SortNewestFirst` | functions/src/services/sessionService.ts:67 | the records come out ordered by `createdAt`, newest first, as a rearrangement of the input: every record occurs as often as before |
| `Sessions.SortedIsListing` | functions/src/services/sessionService.ts:67-72 | all matching records, each once, ordered newest first, form a valid query result |
| `Sessions.ListingHasNoDuplicates` | functions/src/services/sessionService.ts:72-73 | a query result lists no session twice |
| `Sessions.SessionService.CreateSession` | functions/src/services/sessionService.ts:11-26 | the new record has the given region, status pending and `createdAt == updatedAt == now`; it is stored under its previously absent id and nothing else changes |
| `Sessions.SessionService.GetSession` | functions/src/services/sessionService.ts:28-36 | returns the stored record, whose id is the one asked for, iff present; otherwise NotFound with message "Session not found"; the store is not changed |
| `Sessions.SessionService.UpdateSessionStatus` | functions/src/services/sessionService.ts:38-54 | a missing id gives NotFound and no write; otherwise only `status` and `updatedAt` of that record change, and the returned value is the newly stored record |
| `Sessions.SessionService.RunQuery` | functions/src/services/sessionService.ts:57-73 | the database's result for the filtered query ordered by `createdAt` descending: every matching record exactly once, newest first |
| `Sessions.SessionService.ListSessions` | functions/src/services/sessionService.ts:56-87 | `total` counts every matching record, independent of limit and offset; the page is some valid ordered result with `offset` entries dropped and at most `limit` taken; every entry matches the filters; the store is not changed |

## Left out

- Firestore, `initializeApp`, `onRequest` and CORS are replaced by the in-memory map; document references, snapshots and cursor objects are not modelled.
- The HTTP handlers (`handlers/sessionHandlers.ts`) and their `console.error` logging are not part of this model. The same goes for the `console.error` in the mapper.
- `Number(...)` parsing of query strings, NaN and fractional numbers are not modelled: limits and offsets are integers.
- `typeof` checks, the difference between `null` and `undefined` (both are `None`), and header values that are arrays of strings are not modelled.
- Async execution and concurrent requests are not modelled: each operation runs atomically.
- The import paths that do not match the file layout are not modelled, and neither is the Jest scaffolding of the tests.
- `Sessions.SessionService.ListSessions`: the order of records with equal `createdAt` is left open, although the database breaks such ties by document id. The model evaluates the query once for the count, the offset walk and the page. The store does not change between these reads, and the database orders them the same way each time.
- `Sessions.SessionService.CreateSession`: requires the new id to be absent from the store, as a random UUID is. The store's `set` would overwrite an existing record with that id.
- `Sessions.ListQuery`: limit and offset are natural numbers. The validators reject negative values before they reach the store.
- `WithAuth.GuardedHandle`: requires a response that has not been written yet, as every new request provides.
- `Text.NatToString`: renders in decimal only. JavaScript uses the exponent form ("1e+21") from 10^21 upward, and integers above 2^53 are not exact numbers there; neither is modelled. The source renders only the bounds 1 and 100.
