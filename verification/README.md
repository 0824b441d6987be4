# Users service decision logic, in Dafny

This project models the decision logic of a small Go CRUD service over a
PostgreSQL `users` table (gin router, pgx driver, go-playground validator).
It covers:

- the store's dynamically built partial-update statement;
- its limit/offset normalisation and its "no rows" error translation;
- the validation rules of the two request bodies, and the text a failed
  validation is reported with;
- the mapping of PostgreSQL unique violations to responses;
- the query-parameter parser;
- the five HTTP handlers, each an early-return chain ending in exactly one
  `c.JSON` write.

Each source file has its own module:

| file | module | form |
|---|---|---|
| internal/users/repository.go | `Repository` (repository.dfy) | `BuildUpdate` and `GetAll` are methods that build sequences step by step; the method `Update` assembles and runs the statement `BuildUpdate` prepared; the rest are functions |
| internal/users/handler.go | `Handler` (handler.dfy) | functions from request and service outcomes to the response written |
| internal/users/dto.go, cmd/main/app.go:36-41 | `Validation` (validation.dfy) | the errors the validator reports, plus predicates stating the rules |
| internal/utils/customErrorMessages.go | `ErrorMessages` (errormessages.dfy) | a method with the source's loop, specified by `LastMessage` |
| internal/utils/handleUniqueViolation.go | `UniqueViolation` (uniqueviolation.dfy) | a function returning the optional response |
| internal/utils/parseParams.go | `Params` (params.dfy), on `Decimal` (decimal.dfy, `strconv.Atoi`/`Itoa`) | functions |
| pkg/responses/messages.go | `Responses` (responses.dfy) | constants |

Supporting modules: `Wrappers` (Option/Result), `Entities` (the user row and
the two request bodies) and `GoErrors`. `GoErrors` holds the error values the
service tells apart: `sql.ErrNoRows`, `*pgconn.PgError` and any other error.
It also holds their `Error()` text, `errors.Is` and `strings.Contains`.

Abstractions:

- The database is a parameter: each store operation receives what its query
  produced (a scan result, the rows and scan outcomes, or rows affected).
- The service is a function parameter of each handler. A response that
  is the same for every such function is one written without calling the
  service.
- `uuid.Parse` and `c.BindJSON` are inputs: an `Option` that is `None` on
  failure.
- The email regular expression is a parameter `isEmail: string -> bool`.
- `time.Now()` is a parameter `now`.
- Each handler is a total function returning one `Response`, so every path
  writes exactly one response by construction. `HandleUniqueViolation`
  returns `Some(response)` exactly when it wrote one and returned true.
- Go's `int` is 64-bit. Strings are sequences of Unicode scalar values, so
  `min`/`max` length counts runes, as the validator does.

Behaviour the model keeps as the code has it, although a reader might expect
otherwise:

- With zero rows, `GetAll` returns a nil slice (repository.go:74-90), which
  gin writes as JSON `null`, not `[]`.
- A unique violation on update gets the generic 400 "Unable to update user",
  not a field-specific conflict message (handler.go:157-165).
- Validation reports only the message of the last failing rule.
- The "not found" test of `GetOne` and `Update` reads the error's text, so a
  PostgreSQL server error whose message mentions "no rows in result set" is
  reported as not found too (`Repository.ServerMessageMatches`).

## Model

| member | source | states |
|---|---|---|
| `Repository.BuildUpdate` | internal/users/repository.go:110-128 | `args[0]` is the id (`$1`); the i-th query part is `col = $(i+2)` for the i-th entry of `Assignments`, and its value is `args[i+1]`; `len(args) == len(queryParts) + 1` |
| `Repository.ConsistentAppend` | internal/users/repository.go:112-128 | appending a part numbered from the current `len(args)+1`, together with its value, keeps parts and arguments in step (the invariant of the builder) |
| `Repository.FragmentLiterals` | internal/users/repository.go:115-127 | the literal prefixes `"username = $"` … `"updated_at = $"` are the column names followed by ` = $` |
| `Repository.Assignments` | internal/users/repository.go:114-127 | the SET list has between 1 and 4 entries and always ends with `updated_at` bound to `now` |
| `Repository.AssignmentsPresence` | internal/users/repository.go:114-125 | a username/email/password_hash entry is present iff the field is non-empty, and it then carries that field's value; `updated_at` is always present |
| `Repository.AssignmentsOrdered` | internal/users/repository.go:114-127 | columns appear in the fixed order username, email, password_hash, updated_at, each at most once, and `updated_at` only last |
| `Repository.PlaceholderReadsBack` | internal/users/repository.go:115-127 | the number after `$` in part i, read back by `strconv.Atoi`, is i+2 |
| `Repository.NothingSuppliedTouchesOnlyUpdatedAt` | internal/users/repository.go:127-130 | with all three fields empty the SET clause is exactly `updated_at = $2` |
| `Repository.UpdateEffect` | internal/users/repository.go:130-132 | executing the SET list replaces exactly the supplied fields, sets `updated_at` to `now`, and keeps uuid and created_at |
| `Repository.Update` | internal/users/repository.go:110-147 | the statement run is `UpdateStatement` of the SET list for the request, with `Values` of it as arguments (the id, then each set value); a scanned row is returned as is; a scan error mentioning "no rows in result set" becomes `sql.ErrNoRows`, any other is returned unchanged, i.e. the result is `GetOne` of the scan |
| `Repository.UpdateStatement` | internal/users/repository.go:130-132 | the statement starts with `UPDATE users SET `, followed by the joined SET parts and the `WHERE uuid = $1 RETURNING …` tail with its line breaks as written |
| `Repository.Values` | internal/users/repository.go:112-128 | the argument list is one longer than the SET list, starts with the id, and its (i+1)-th entry is the value of the i-th SET entry |
| `Repository.PlaceholdersBound` | internal/users/repository.go:115-136 | every placeholder `$n` of the SET clause reads back as some n with 2 ≤ n ≤ len(args), and `args[n-1]` is the value its column is set to; `$1` is the id |
| `Repository.ServerMessageMatches` | internal/users/repository.go:139-141 | because the test reads `err.Error()`, a PostgreSQL server error whose message mentions "no rows in result set" is also turned into `sql.ErrNoRows` |
| `Repository.Join` | internal/users/repository.go:130 | `strings.Join`: no parts give ""; otherwise the result starts with the first part and its length is the parts' total length plus one separator between each two parts |
| `Repository.NormalizeLimit` | internal/users/repository.go:56-58 | the result is always ≥ 1; a positive limit is kept; any limit ≤ 0 becomes 1000000 |
| `Repository.NormalizeOffset` | internal/users/repository.go:60-62 | the result is always ≥ 0; a positive offset is kept; any offset ≤ 0 becomes 0 |
| `Repository.GetAll` | internal/users/repository.go:55-91 | the select runs on the normalised window; success iff every scan succeeds and iteration reports no error, and then the users come back in row order (no rows gives an empty result, not `ErrNoRows`); otherwise the query error is returned; else the first failing scan's error, the iteration error being then ignored; else, with every scan succeeding, the iteration error |
| `Repository.TranslateNoRows` | internal/users/repository.go:43-49 | an error whose text contains "no rows in result set" becomes `sql.ErrNoRows`; every other error is returned unchanged |
| `Repository.TranslateNoRowsIff` | internal/users/repository.go:43-45 | after translation, `errors.Is(err, sql.ErrNoRows)` holds exactly when the original text contains the phrase |
| `Repository.GetOne` | internal/users/repository.go:35-53 | success iff the scan succeeded, returning the scanned user; on failure, the translated scan error |
| `Repository.Delete` | internal/users/repository.go:150-165 | an exec error is returned unchanged; a successful exec gives `ErrNoRows` iff 0 rows were affected, and nil iff some were |
| `GoErrors.NoRowsTextContainsPhrase` | internal/users/repository.go:43 | `sql.ErrNoRows`'s own text contains "no rows in result set" |
| `GoErrors.Text` | internal/users/repository.go:43 | `err.Error()`: a PgError's text starts with its severity, ": " and its message and ends with its SQLSTATE code and ")"; any other error's text is its own |
| `GoErrors.Contains` | internal/users/repository.go:43 | `strings.Contains`: a prefix occurrence is found, and nothing longer than the text is ever found |
| `Handler.GetUserByID` | internal/users/handler.go:47-67 | bad id → 400 InvalidIDParam; `ErrNoRows` → 404 UserNotFound; other error → 500 InternalServerError; success → 200 with the user |
| `Handler.GetUsers` | internal/users/handler.go:69-96 | a bad limit → 400 InvalidLimitParam, checked before the offset; then a bad offset → 400 InvalidOffsetParam; otherwise the service gets the parsed values; `ErrNoRows` → 404, other error → 500 ErrorRetrievingUsers, success → 200 with the list |
| `Handler.CreateUser` | internal/users/handler.go:98-131 | unparsable body → 400 ErrorParsingJSON; validation errors → 400 with the last error's message; unique violation → the `HandleUniqueViolation` response; other error → 400 UserCreationError; success → 201 with the user |
| `Handler.UpdateUser` | internal/users/handler.go:133-169 | the id is checked, then the body, then validation; `ErrNoRows` → 404; any other error → 400 UserUpdateError; success → 200 |
| `Handler.DeleteUser` | internal/users/handler.go:171-191 | bad id → 400; `ErrNoRows` → 404; other error → 500 UserDeleteError; success → 200 UserDeletionSuccess |
| `Handler.BadIdSkipsService` | internal/users/handler.go:48-52 | with an unparsable id, GetUserByID, UpdateUser and DeleteUser give 400 whatever the body and whatever the service |
| `Handler.GetUsersParameters` | internal/users/handler.go:70-82 | a bad limit gives the same response whatever the offset; absent parameters reach the service as (1000000, 0) |
| `Handler.NegativeParamsReachService` | internal/users/handler.go:70-84 | negative limit and offset are passed to the service as given; the store's normalisation then maps them to 1000000 and 0 |
| `Handler.InvalidBodySkipsService` | internal/users/handler.go:100-113 | an unparsable or invalid body gives 400 whatever the service, on create and on update |
| `Handler.EmptyUpdateRejected` | internal/users/handler.go:148-155 | `PUT {}` gives 400 "At least one field is required" |
| `Handler.ShortUsernameRejected` | internal/users/handler.go:106-113 | a create request with username "ab" and a valid email and password gives 400 "Field Username min length 3" |
| `Handler.UniqueViolationCreateVsUpdate` | internal/users/handler.go:120-126 | a unique violation gives the field-specific message on create (Username/Email already exists) and UserUpdateError on update |
| `Handler.StatusCodes` | internal/users/handler.go:47-191 | GET one/list and DELETE answer only 200/400/404/500; POST only 201/400; PUT only 200/400/404 |
| `Handler.ErrorTextNotLeaked` | internal/users/handler.go:55-187 | for GET one, GET list, PUT and DELETE, the response depends on a service error only through whether it is `ErrNoRows` |
| `Handler.GetOneNotFound` | internal/users/handler.go:55-60 | through the store, GET one answers 404 iff the scan error's text contains "no rows in result set", and otherwise 500 |
| `Handler.UpdateNotFound` | internal/users/handler.go:157-165 | through the store (`Update`'s result is `GetOne` of the scan), a valid PUT answers 404 iff the scan error's text contains "no rows in result set", and otherwise 400 UserUpdateError |
| `Handler.DeleteThroughStore` | internal/users/handler.go:179-190 | through the store: 0 rows affected → 404; some rows → 200; exec error other than `ErrNoRows` → 500 |
| `Validation.CreateErrors` | internal/users/dto.go:3-7 | `validate.Struct` on a CreateUserDto: at most one error per field, in declaration order (Username, Email, Password) |
| `Validation.CreateRequired` | internal/users/dto.go:4-6 | `required` runs first: an empty username is the first error, an empty email is reported as required, an empty password is the last error |
| `Validation.UpdateErrors` | internal/users/dto.go:9-13 | `validate.Struct` on an UpdateUserDto: at most one error per field, in declaration order, with the struct-level error of cmd/main/app.go:36-41 after them |
| `Validation.UpdateNeverRequired` | internal/users/dto.go:10-12 | no update field is required: no error of an update has the `required` tag |
| `Validation.CreateErrorsEmpty` | internal/users/dto.go:4-6 | a CreateUserDto gets no validation error iff username has 3–32 characters, email is non-empty and matches the email syntax, and password has ≥ 8 characters |
| `Validation.ValidCreateFields` | internal/users/dto.go:4-6 | a valid CreateUserDto has a username of length 3–32, a non-empty well-formed email and a password of length ≥ 8 |
| `Validation.UpdateErrorsEmpty` | internal/users/dto.go:10-12 | an UpdateUserDto gets no error iff every non-empty field meets its rule and at least one field is non-empty |
| `Validation.UpdateFieldRules` | internal/users/dto.go:10-12 | an empty field passes its own tags (`omitempty`); a non-empty field fails them exactly as the same value fails the CreateUserDto tags |
| `Validation.AtLeastOneRuleFires` | cmd/main/app.go:36-41 | all three fields empty gives exactly the struct-level error; any non-empty field suppresses it |
| `ErrorMessages.CustomErrorMessages` | internal/utils/customErrorMessages.go:9-35 | an `InvalidValidationError` gives "Invalid input"; a list of errors gives the message of its last element, and "" for an empty list |
| `ErrorMessages.MessageFor` | internal/utils/customErrorMessages.go:19-32 | the message for one error is never empty, and for `min`/`max` it ends with the tag's parameter (the bound) |
| `ErrorMessages.LastMessage` | internal/utils/customErrorMessages.go:9-35 | the specification of the loop: "" exactly for an empty list of errors |
| `ErrorMessages.EarlierErrorsIgnored` | internal/utils/customErrorMessages.go:16-33 | errors before the last one do not affect the message |
| `ErrorMessages.MessageShapes` | internal/utils/customErrorMessages.go:19-32 | "At least one field is required" is produced iff the tag is the struct-level one, whatever the field; every other message starts with "Field " and the field name |
| `ErrorMessages.CreateMessageIsLastField` | internal/utils/customErrorMessages.go:16-33 | for a CreateUserDto, the message comes from the password's error if it has one, else the email's, else the username's, else it is "" |
| `ErrorMessages.ShortUsernameMessage` | internal/users/dto.go:4 | username "ab" is reported as "Field Username min length 3" |
| `ErrorMessages.EmptyUpdateMessage` | cmd/main/app.go:38-40 | an UpdateUserDto with no field is reported as "At least one field is required" |
| `UniqueViolation.HandleUniqueViolation` | internal/utils/handleUniqueViolation.go:11-25 | a response is written (true) iff the error is a PgError with code 23505, and then its status is 400; users_email_key → "Email already exists", users_username_key → "Username already exists", any other constraint → "Unique constraint violation"; otherwise nothing is written |
| `UniqueViolation.OnlyCodeAndConstraintMatter` | internal/utils/handleUniqueViolation.go:13-20 | the response depends on a PgError only through its code and constraint name |
| `Params.ParseQueryParam` | internal/utils/parseParams.go:5-10 | "" gives the default, for any default; any other string gives what `strconv.Atoi` gives |
| `Params.ParseRendered` | internal/utils/parseParams.go:9 | the decimal rendering of any 64-bit int, negative ones included, parses back to it |
| `Params.ParseRejectsNonDigit` | internal/utils/parseParams.go:9 | a non-empty string with a character that is neither a digit nor a single leading sign is an error |
| `Decimal.Atoi` | internal/utils/parseParams.go:9 | a success is always within Go's 64-bit int range; an error records the input |
| `Decimal.AtoiItoa` | internal/utils/parseParams.go:9 | round trip: `Atoi(Itoa(n)) == n` for every 64-bit int n |
| `Decimal.AtoiItoaOutOfRange` | internal/utils/parseParams.go:9 | a well-formed integer outside the 64-bit range is rejected |
| `Decimal.AtoiRejectsNonDigit` | internal/utils/parseParams.go:9 | a character other than a leading sign followed by digits makes the parse fail |
| `Decimal.AtoiExamples` | internal/utils/parseParams.go:9 | "+7" → 7, "-15" → -15, "007" → 7; "-" and "" are errors |
| `Decimal.Itoa` | internal/users/repository.go:115 | `strconv.Itoa`: a non-empty string of digits, preceded by "-" exactly for a negative number, with no leading zero for a non-negative one |
| `Decimal.ValueOfNatToString` | internal/users/repository.go:115 | the digits `strconv.Itoa` produces for a natural number denote that number |

## Left out

- SQL execution, pgx rows and scanning, connection handling and `time.Now()`
  are not modelled. Each store operation receives its query's outcome, or the
  time, as a parameter.
- `Repository.UpdateEffect` gives the SQL meaning of a SET list directly on
  the list of column/value pairs. It does not parse the statement text back.
  `BuildUpdate`'s and `Update`'s contracts, `PlaceholderReadsBack` and
  `PlaceholdersBound` tie that list to the statement text and its arguments.
- `Repository.Create` (repository.go:93-108) is left out. It has no decision
  logic: it returns the scan error unchanged.
- The service layer (service.go) passes values through. It is not modelled;
  the handlers take the service as a function parameter. Its password
  hashing (`utils.HashPassword`) is not part of this model. service.go:73
  hashes the password even when the update request leaves it empty. Whether
  the store then receives an empty password depends on that helper, so
  `BuildUpdate` is modelled only over the UpdateUserDto it receives.
- The gin router, `Register` (handler.go:39-45), logging and the startup in
  cmd/main/app.go are left out. Only the struct-level validation rule of
  app.go is modelled.
- `c.BindJSON` is an input that succeeds or fails. On failure gin also writes
  status 400 itself before the handler's `c.JSON`. Both use 400, so the
  response is the same.
- A Go nil slice and an empty slice are not distinguished. With zero rows
  the source answers `GET /api/users` with JSON `null`.
- `uuid.Parse` and the validator's email regular expression are abstract:
  the first is an `Option`, the second a parameter.
- Error wrapping is not modelled. `errors.Is` and `errors.As` look at the
  error value itself.
- `Decimal.Atoi`: it does not distinguish `strconv.ErrSyntax` from
  `strconv.ErrRange`. It models only success with its value, or failure.
  The handlers use nothing more.
- `ErrorMessages.CustomErrorMessages`: an error of any other type is
  excluded by a precondition. The source's type assertion panics on it.
- The 404 branch of `Handler.GetUsers` answers `sql.ErrNoRows` from the
  service. `Repository.GetAll` can only return an error the driver itself
  produced, and pgx does not produce `sql.ErrNoRows` there.
