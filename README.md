# Medical Portal — a Dafny model of the clinic portal's core

The Medical Portal is a small clinic system. A Go/gin API keeps patients, prescriptions and
uploaded documents in PostgreSQL and in Cloudinary. A Next.js front end is used by two roles,
receptionists and doctors. This project models the parts of both that make decisions:

- **Access.** The login service checks credentials and issues a 72-hour HS256 token carrying
  the user's role. The authentication middleware checks the `Authorization: Bearer …` header
  and verifies the token. The role middleware compares the role claim with each route's
  allowed roles. The route table wires these together.
- **Patients.** The request bodies and their gin binding rules, the JSON form of a record, the
  handlers' status codes, the service, and the `patients` table. The table is held in memory
  as a class with a map of rows, the `id` serial and the clock read by `NOW()`.
- **Prescriptions and documents.** The two prescription endpoints. The document
  upload/list/delete chain over an in-memory `patient_documents` table and an in-memory
  Cloudinary asset store, including the rollback of an upload whose row cannot be written.
- **Configuration.** Reading the server's settings from the environment.
- **Front end.** The token and role kept in `localStorage`, the client-side expiry check and
  the `Authorization` header the client sends. Also the zod form schemas, the patient table's
  search filter and dialog state, and the side navigation's active-entry rule and menu flag.

Every service the code calls but does not implement is a parameter:

- the database's failures (`fault`);
- the user lookup, bcrypt comparison and token signing;
- JWT parsing and verification;
- Cloudinary's upload response;
- the browser's `atob`/`JSON.parse`;
- the handlers' service calls.

The contracts say what the code does for every value of these parameters.

Modules, one file each:

- `Wrappers` (`Option`, `Result`) and `Text` (ASCII lower-casing, substring search,
  `strings.Split`, `strconv.Atoi`, integer formatting).
- `Gin` (JSON values, replies, the request context) and `Binding` (gin's `ShouldBindJSON`
  with its validator).
- `SqlMatch` (PostgreSQL `ILIKE` and ordering).
- `AuthService`, `AuthHandler`, `Middleware`, `Routes` and `Config`.
- `PatientModel`, `PatientRepository`, `PatientService` and `PatientHandler`.
- `PrescriptionModel` and `PrescriptionHandler`.
- `DocumentStore`, `DocumentService` and `DocumentHandler`.
- `ClientAuth`, `ZodSchemas`, `PatientTable` and `Sidebar`.

## Model

| member | source | states |
|---|---|---|
| Text.Atoi | internal/patient/handler.go:63 | `strconv.Atoi` yields a value only in the int64 range, and never for an empty text or a bare sign |
| Text.FormatInt | web/lib/api.ts:40 | the decimal text of an id, as the client writes it into a path, holds only digits and a leading `-` |
| Text.AtoiOfFormatInt | web/lib/api.ts:40 | an id in the int64 range that the client formats into a path is parsed back by the server as the same id |
| Text.FormatIntInjective | web/lib/api.ts:40 | distinct ids give distinct path segments |
| Text.Split | internal/middleware/auth.go:26 | `strings.Split` on one character: at least one piece, and exactly one when the character does not occur |
| Text.SplitTwo | internal/middleware/auth.go:26-27 | splitting gives exactly the two pieces `x`, `y` exactly when the text is `x`, the separator, `y`, with no separator in either |
| SqlMatch.Like | internal/patient/repository.go:99 | a pattern without `%`, `_` or `\` matches exactly itself |
| SqlMatch.ILike | internal/patient/repository.go:99 | a literal pattern matches exactly the texts equal to it ignoring case |
| SqlMatch.LowerLiteral | internal/patient/repository.go:100 | lower-casing a literal term keeps it literal |
| SqlMatch.LikePrefix | internal/patient/repository.go:99 | `t%` for a literal t matches exactly the texts that start with t |
| SqlMatch.LikeAnything | internal/patient/repository.go:99 | `%` matches every text |
| SqlMatch.LikeContains | internal/patient/repository.go:99 | `%t%` for a literal t matches exactly the texts that contain t |
| SqlMatch.LowerPattern | internal/patient/repository.go:99-100 | lower-casing the search pattern keeps its two `%` |
| SqlMatch.SearchPatternOfLiteral | internal/patient/repository.go:99-100 | for a literal term, `name ILIKE '%' + term + '%'` holds exactly when the name contains the term ignoring case |
| SqlMatch.WildcardTerms | internal/patient/repository.go:99-100 | the term is not escaped: `a_c` finds `Abc`, which does not contain it, and `%` finds every name |
| SqlMatch.LexLeqTotal | internal/patient/repository.go:99 | `ORDER BY name` orders any two names |
| SqlMatch.LexLeqAntisymmetric | internal/patient/repository.go:99 | two names each ordered before the other are equal |
| Gin.Context.Get | internal/middleware/auth.go:57 | `c.Get` reports a key exactly when it was set, with the stored value |
| Gin.Context.Set | internal/middleware/auth.go:46 | `c.Set` stores the value under the key and changes nothing else |
| Gin.Context.AbortWithStatusJSON | internal/middleware/auth.go:22 | aborting records the status and the error message, and leaves the keys alone |
| Gin.Context.Next | internal/middleware/auth.go:47 | passing the request on marks it continued and changes nothing else |
| Binding.StringMember | internal/patient/model.go:18 | decoding a `string` field: an absent or `null` member gives "", a member of another JSON type is an error |
| Binding.IntMember | internal/patient/model.go:19 | decoding an `int` field: an absent or `null` member gives 0, and a decoded value lies in the int64 range |
| Binding.NullableStringMember | internal/prescription/model.go:21 | decoding a `*string` field: an absent or `null` member gives nil |
| Binding.RequiredString | internal/patient/model.go:18 | the `required` tag fails exactly on the empty string |
| Binding.RequiredPositive | internal/patient/model.go:19 | `required,gt=0` passes exactly the positive values; 0 fails `required` and a negative value fails `gt` |
| Binding.Validated | internal/patient/model.go:17-21 | binding succeeds exactly when no tag failed, and then yields the decoded struct |
| AuthService.IssuedClaims | internal/auth/service.go:49-54 | the token carries the user's id, name and role, and expires 72 hours (259200 s) after issue |
| AuthService.Login | internal/auth/service.go:35-61 | a token is returned exactly when the user is found by name, the hash matches the password and signing that user's claims succeeds, and it is that signature; `ErrUserNotFound` never leaves the service |
| AuthService.CredentialFailuresLookAlike | internal/auth/service.go:37-46 | an unknown user and a wrong password give the same `ErrInvalidCredentials` |
| AuthService.LookupErrorPassesThrough | internal/auth/service.go:41 | any other lookup error is returned unchanged |
| AuthService.SigningErrorPassesThrough | internal/auth/service.go:56-59 | a signing failure is returned as the error, with no token |
| AuthHandler.BindLoginRequest | internal/auth/handler.go:20-23 | a login body binds exactly when username and password are both non-empty strings |
| AuthHandler.Login | internal/auth/handler.go:42-60 | 400 exactly when the body does not bind; 401 exactly for `ErrInvalidCredentials`; 200 with the token exactly when the service succeeds; otherwise 500 |
| AuthHandler.BadBodySkipsService | internal/auth/handler.go:44-47 | a body that does not bind is answered without consulting the service |
| AuthHandler.EmptyCredentialIsBadRequest | internal/auth/handler.go:21-22 | a missing or empty username or password is a 400 |
| AuthHandler.MissingPasswordExample | tests/auth_test.go:62-71 | `{"username":"user"}` gets 400 with a message starting "Invalid request body: " |
| AuthHandler.UnknownUserIsUnauthorized | tests/auth_test.go:49-60 | an unknown user or a wrong password, through the real service, gets 401 "Invalid username or password" |
| AuthHandler.SuccessExample | tests/auth_test.go:35-47 | a successful login of `user`/`pass` answers 200 with the token `token123` |
| Middleware.Authenticate | internal/middleware/auth.go:18-52 | a request is authenticated exactly when the header is `Bearer <token>` and the token parses, is HMAC-signed and verifies, and then carries the `role` claim; an empty header and a malformed one get their fixed messages, and every token failure is prefixed `Invalid token: ` |
| Middleware.NonHmacRefused | internal/middleware/auth.go:33-42 | a token signed with a non-HMAC method is refused with 401 and golang-jwt v5's wrapping of the keyfunc's error: `Invalid token: token is unverifiable: error while executing keyfunc: unexpected signing method: <alg>` |
| Middleware.BearerToken | internal/middleware/auth.go:26-30 | a token is taken only from a header that is `Bearer ` followed by it, and it holds no space |
| Middleware.RoleClaim | internal/middleware/auth.go:46 | the value stored is the `role` claim, and `nil` exactly when the claim is absent (or itself `null`) |
| Middleware.BearerTokenExactly | internal/middleware/auth.go:26-30 | the header check accepts exactly `"Bearer " + token` with no space in the token |
| Middleware.LowerCaseSchemeRefused | internal/middleware/auth.go:26-27 | the scheme is compared exactly: `bearer x` is refused |
| Middleware.DoubleSpaceRefused | internal/middleware/auth.go:26-27 | `Bearer  x` (two spaces) splits into three parts and is refused |
| Middleware.SpacedTokenRefused | internal/middleware/auth.go:26-27 | a token holding a space, `Bearer a b`, is refused |
| Middleware.FormatRejectedBeforeParsing | internal/middleware/auth.go:21-30 | a header that fails the format check is refused with 401 without parsing |
| Middleware.VerifiedTokenAuthenticates | internal/middleware/auth.go:45-47 | a verified token authenticates with its `role` claim |
| Middleware.AuthMiddleware | internal/middleware/auth.go:18-52 | on the context: a refused request is aborted with 401 and the reason; an accepted one gets the role claim stored and continues |
| Middleware.Authorize | internal/middleware/auth.go:55-78 | admitted exactly when a role was stored, it is a string, and it is one of the allowed roles |
| Middleware.NoRolesAdmitNobody | internal/middleware/auth.go:69-76 | an empty allowed-role list admits nobody |
| Middleware.MissingRoleClaimIsForbidden | internal/middleware/auth.go:46-67 | a token without a `role` claim stores `nil`, which fails the type check with 403 |
| Middleware.RoleMiddleware | internal/middleware/auth.go:55-78 | the loop over allowed roles continues the request exactly when `Authorize` admits it, and aborts it with 403 and `Authorize`'s message otherwise |
| Routes.RolesFor | api/cmd/server/main.go:121-138 | a protected route's allowed roles, found exactly for the routes in the table |
| Routes.RolesIn | api/cmd/server/main.go:121-138 | lookup by verb and path: found exactly when an entry matches, and the roles are that entry's |
| Routes.Guard | api/cmd/server/main.go:116-138 | a request reaches the handler exactly when it is authenticated and its role is admitted; 401 comes from authentication, and 403 after it |
| Routes.RoutesAreDistinct | api/cmd/server/main.go:121-138 | no two table entries share a verb and a path |
| Routes.RolesInFirstMatch | api/cmd/server/main.go:121-138 | the lookup answers with the roles of the first entry registered for the verb and path |
| Routes.RolesForEntry | api/cmd/server/main.go:121-138 | every table entry is what the lookup finds for its verb and path |
| Routes.LoginIsOpen | api/cmd/server/main.go:113 | `POST /login` is not behind the middleware |
| Routes.MedicalUpdateIsDoctorOnly | api/cmd/server/main.go:125 | `PATCH /patients/:id/medical` admits a role exactly when it is `doctor` |
| Routes.PrescribingIsDoctorOnly | api/cmd/server/main.go:129 | `POST /patients/:id/prescriptions` admits a role exactly when it is `doctor` |
| Routes.TableEditMatchesServer | api/cmd/server/main.go:124 | the patient table offers Edit to a role exactly when the server admits it on `PUT /patients/:id` |
| Routes.TableDeleteMatchesServer | api/cmd/server/main.go:126 | the patient table offers Delete to a role exactly when the server admits it on `DELETE /patients/:id` |
| Routes.DoctorOnPatients | tests/integration_test.go:202-223 | a doctor's verified token is refused `POST /patients` with 403 and reaches `GET /patients` |
| Routes.ClientHeaderFormat | web/lib/api.ts:4-7 | the header the client builds passes the server's format check exactly when the stored token holds no space |
| Routes.ClaimsMap | internal/auth/service.go:49-54 | the signed claims are `sub`, `user`, `role`, `exp`, with the role as a string |
| Routes.IssuedRoleReachesRoleCheck | internal/auth/service.go:52 | a token issued at login authenticates with the user's role, and opens exactly the routes admitting that role |
| Config.GetEnv | pkg/config/config.go:29-37 | a set variable is taken as it is, even when empty; an unset one gives the fallback; it is fatal exactly when unset with an empty fallback and not `CLOUDINARY_URL` |
| Config.New | pkg/config/config.go:18-26 | the configuration loads exactly when `DATABASE_URL` is set, and each field is the variable or its default |
| Config.Defaults | pkg/config/config.go:20-24 | with only `DATABASE_URL` set: port 8080, secret `secret`, mode `debug`, no Cloudinary URL |
| Config.EmptyValueIsKept | pkg/config/config.go:30-32 | a variable set to "" is not replaced by its default |
| PatientModel.DetailsFailures | internal/patient/model.go:17-28 | no tag fails exactly when name and address are non-empty and age is positive |
| PatientModel.DecodeDetails | internal/patient/model.go:17-21 | the three members decode exactly when each has an acceptable JSON type, into the decoded values |
| PatientModel.BindDetails | internal/patient/model.go:17-28 | a create or update body binds exactly when it is an object that decodes and passes the tags |
| PatientModel.BindCreate | internal/patient/model.go:17-21 | a bound `CreatePatientRequest` comes from a JSON object and its fields pass the tags |
| PatientModel.BindUpdate | internal/patient/model.go:24-28 | a bound `UpdatePatientRequest` comes from a JSON object and its fields pass the tags |
| PatientModel.BindMedical | internal/patient/model.go:31-34 | a medical body binds exactly when diagnosis is a non-empty string and notes, if present, is a string or null |
| PatientModel.UpdateRulesMatchCreate | internal/patient/model.go:17-28 | create and update bodies are accepted by the same rules with the same fields |
| PatientModel.AgeTags | internal/patient/model.go:19 | age 0 fails on `required` and age −3 on `gt` |
| PatientModel.ClientValidFormBinds | web/lib/zod-schemas.ts:3-8 | a patient form the client accepts binds on the server exactly when its age is not 0 |
| PatientModel.PatientJson | internal/patient/model.go:5-14 | a record's JSON has all eight keys, with `null` for a nil diagnosis or notes |
| PatientRepository.Listing | internal/patient/repository.go:53 | every listed record is the stored row for its id, and ids strictly decrease (`ORDER BY` on the serial) |
| PatientRepository.ListingComplete | internal/patient/repository.go:53 | every stored row with an id up to the bound is listed |
| PatientRepository.InsertByName | internal/patient/repository.go:99 | inserting into a name-sorted list keeps it sorted and adds exactly that row |
| PatientRepository.SortByName | internal/patient/repository.go:99 | `ORDER BY name ASC` gives a name-sorted permutation |
| PatientRepository.Matching | internal/patient/repository.go:99-100 | keeps exactly the rows whose name matches the search pattern |
| PatientRepository.NameMatchesLiteral | internal/patient/repository.go:99-100 | for a term with no wildcard, a name matches exactly when it contains the term ignoring case |
| PatientRepository.MatchingIsSubMultiset | internal/patient/repository.go:99-100 | the matches are drawn from the rows, none more often than in the table |
| PatientRepository.Repository.constructor | internal/patient/repository.go:29-31 | the table starts empty with the serial at 1 |
| PatientRepository.Repository.Create | internal/patient/repository.go:33-36 | inserts the next id with nil diagnosis and notes and both timestamps `NOW()`, and writes the id into the caller's record; a failure changes nothing |
| PatientRepository.Repository.GetByID | internal/patient/repository.go:38-49 | the row, `ErrPatientNotFound` when there is none, or the database's error |
| PatientRepository.Repository.GetAll | internal/patient/repository.go:51-56 | every row once, in strictly decreasing `created_at` |
| PatientRepository.Repository.ListingIsNewestFirst | internal/patient/repository.go:53 | under the table invariant, id order is creation order, so the listing is newest first |
| PatientRepository.Repository.ListingHoldsEachRow | internal/patient/repository.go:53 | under the table invariant, the listing holds every row of the table exactly once |
| PatientRepository.Repository.Update | internal/patient/repository.go:58-69 | overwrites name, age and address and stamps `updated_at`; diagnosis, notes and `created_at` are kept; no row gives `ErrPatientNotFound` |
| PatientRepository.Repository.UpdateMedical | internal/patient/repository.go:71-82 | sets diagnosis and notes and stamps `updated_at`; no row gives `ErrPatientNotFound` |
| PatientRepository.Repository.Delete | internal/patient/repository.go:84-95 | removes exactly that row; no row gives `ErrPatientNotFound` |
| PatientRepository.Repository.SearchByName | internal/patient/repository.go:97-102 | exactly the rows whose name matches `'%' || term || '%'` ignoring case, each once, sorted by name |
| PatientRepository.ListingByCreation | internal/patient/repository.go:53 | when a higher id means a later creation, the descending-id listing is in strictly decreasing `created_at` |
| PatientRepository.ListingHoldsRows | internal/patient/repository.go:53 | when every id lies within the bound, the listing is as long as the table and holds exactly its rows |
| PatientRepository.ListingLength | internal/patient/repository.go:53 | the listing has one entry per row |
| PatientRepository.ListingMembers | internal/patient/repository.go:53 | a record is listed exactly when it is a row of the table |
| PatientRepository.Search | internal/patient/repository.go:99-100 | the search query is sorted by name and holds exactly the rows whose name matches, each once |
| PatientRepository.SameElements | internal/patient/repository.go:99 | reordering the matches keeps the same rows |
| PatientRepository.IdsOfDistinct | internal/patient/repository.go:53 | a listing with strictly decreasing ids has as many rows as distinct ids |
| PatientService.Service.constructor | internal/patient/service.go:21-23 | the service wraps the given repository |
| PatientService.Service.CreatePatient | internal/patient/service.go:25-37 | the record returned is the request's fields with the new id, nil medical fields and zero timestamps; the stored row has the insert time |
| PatientService.Service.GetPatient | internal/patient/service.go:39-41 | the repository's lookup |
| PatientService.Service.ListAllPatients | internal/patient/service.go:43-45 | the repository's newest-first listing |
| PatientService.Service.UpdatePatient | internal/patient/service.go:47-60 | a failed update returns without reading; after a successful one, the re-read's outcome is returned, and a record read back has the new fields and the old medical fields |
| PatientService.Service.UpdatePatientMedical | internal/patient/service.go:62-68 | the same write-then-read pattern on diagnosis and notes |
| PatientService.Service.DeletePatient | internal/patient/service.go:70-72 | the repository's delete |
| PatientService.Service.SearchPatients | internal/patient/service.go:74-76 | exactly the matching rows, each once, sorted by name |
| PatientHandler.ServiceError | internal/patient/handler.go:70-75 | 404 exactly for the `ErrPatientNotFound` sentinel; anything else is 500 with the prefix and the error text |
| PatientHandler.CreatePatient | internal/patient/handler.go:34-48 | 201 with the service's record exactly when the body binds and the service succeeds; every failure, the service's included, is 400 |
| PatientHandler.GetPatient | internal/patient/handler.go:62-80 | 400 exactly for an id that does not parse; 200 with the record; 404 exactly for the sentinel; otherwise 500 |
| PatientHandler.ListPatients | internal/patient/handler.go:92-99 | 200 with the list exactly when the service succeeds, else 500 with the error text |
| PatientHandler.UpdatePatient | internal/patient/handler.go:115-139 | the id is checked before the body; 400 exactly for a bad id or body; 200, 404 and 500 by the service's outcome |
| PatientHandler.UpdatePatientMedical | internal/patient/handler.go:155-179 | the same order and statuses, with the medical body |
| PatientHandler.DeletePatient | internal/patient/handler.go:192-210 | 204 with no body on success, 404 for the sentinel, 400 for a bad id, otherwise 500 |
| PatientHandler.SearchPatients | internal/patient/handler.go:223-237 | an empty `q` is a 400 before the service is called; 200 with the list exactly when the search succeeds |
| PatientHandler.InvalidIdSkipsService | internal/patient/handler.go:63-67 | a bad id is answered with 400 whatever the body and the service |
| PatientHandler.FormattedIdReachesService | internal/patient/handler.go:63-79 | an id written by the client reaches the service unchanged |
| PatientHandler.LookalikeErrorIsServerError | tests/patient_test.go:79-88 | an error that is not the sentinel but reads "patient not found" gets 500 |
| PatientHandler.EmptyListIsOk | internal/patient/handler.go:98 | an empty list is a 200 carrying the empty list |
| PatientHandler.CreateExample | tests/patient_test.go:70-77 | the body `{"name":"John","age":30,"address":"123 St"}` is created with 201 and the service's record |
| PrescriptionModel.BindCreateRequest | internal/prescription/model.go:17-22 | binds exactly when medication, dosage and frequency are non-empty strings and notes is a string, null or absent |
| PrescriptionModel.NotesAreOptional | internal/prescription/model.go:21 | absent notes and `null` notes both bind as nil |
| PrescriptionModel.PrescriptionJson | internal/prescription/model.go:5-14 | `notes` is in the JSON exactly when the pointer is not nil; the other seven keys are always there |
| PrescriptionModel.EmptyNotesAreWritten | internal/prescription/model.go:12 | empty notes are still written out |
| PrescriptionModel.ClientValidFormBinds | web/lib/zod-schemas.ts:15-20 | every prescription form the client accepts binds on the server with the same fields |
| PrescriptionHandler.CreatePrescription | internal/prescription/handler.go:35-67 | checks in order: patient id (400), user id present (403), user id an int (500), body (400), service (500 with `Failed to create prescription: ` and its error); 403 exactly when the id parses and no user id is stored; 201 with the record, created with the path's patient id and the context's doctor id |
| PrescriptionHandler.GetPatientPrescriptions | internal/prescription/handler.go:80-94 | 400 exactly for a bad id; 200 with the list exactly when the service succeeds; otherwise 500 with the error text |
| PrescriptionHandler.MissingUserIdBeforeBody | internal/prescription/handler.go:42-46 | without a user id the answer is 403 whatever the body, even one that would not bind |
| PrescriptionHandler.DoctorIdFromContext | internal/prescription/handler.go:42-58 | a `doctor_id` member in the body changes nothing |
| DocumentStore.DocumentJson | internal/document/model.go:6-14 | a document's JSON has six keys and never the Cloudinary public id; the ids are JSON numbers and `uploaded_at` a time |
| DocumentStore.CloudStore.constructor | internal/document/service.go:24-26 | the asset store starts empty |
| DocumentStore.CloudStore.Upload | internal/document/service.go:46-50 | the upload's outcome is Cloudinary's; a successful upload stores the asset under its public id, and a failed one changes nothing |
| DocumentStore.CloudStore.Destroy | internal/document/service.go:66-84 | destroying removes the asset unless Cloudinary fails, and reports the failure |
| DocumentStore.PatientListing | internal/document/repository.go:46-51 | one patient's documents, each once, highest id first, without the unselected public id |
| DocumentStore.Repository.constructor | internal/document/repository.go:24-26 | the table starts empty with the serial at 1 |
| DocumentStore.Repository.Create | internal/document/repository.go:28-31 | inserts the next id with `uploaded_at` `NOW()` and returns both in the record; a failure changes nothing |
| DocumentStore.Repository.GetByID | internal/document/repository.go:33-44 | the row, `ErrDocumentNotFound` when there is none, or the database's error |
| DocumentStore.Repository.GetByPatientIDAsWritten | internal/document/repository.go:48 | the query orders by a column the table lacks, so it always fails with the database's error |
| DocumentStore.Repository.GetByPatientID | internal/document/repository.go:46-51 | exactly the patient's documents, in strictly decreasing `uploaded_at` |
| DocumentStore.Repository.DeleteAsWritten | internal/document/repository.go:53-57 | the statement `DELECT …` always fails with a syntax error and removes nothing |
| DocumentStore.Repository.Delete | internal/document/repository.go:53-64 | removes exactly that row; no row gives `ErrDocumentNotFound` |
| DocumentService.PublicIdFor | internal/document/service.go:40 | the public id is `patient_docs/patient_<id>/<file name>` |
| DocumentService.PublicIdInjective | internal/document/service.go:40 | two uploads share a public id exactly when patient and file name are the same |
| DocumentService.Service.constructor | internal/document/service.go:24-26 | the service wraps the given repository and asset store |
| DocumentService.Service.UploadDocument | internal/document/service.go:28-72 | a file that will not open or a failed upload changes nothing; a failed insert destroys the uploaded asset again (best effort) and writes no row; on success the row holds the asset's URL and public id and the file's name and type |
| DocumentService.Service.GetDocumentsForPatient | internal/document/service.go:74-76 | the repository's listing for the patient |
| DocumentService.Service.DeleteDocument | internal/document/service.go:78-89 | a failed or empty lookup changes nothing; otherwise the asset is destroyed (a failure is only logged) and the delete's outcome is returned |
| DocumentService.Service.DeleteDocumentAsWritten | internal/document/service.go:78-89 | with the repository as written, deleting an existing document destroys its asset but keeps its row, and always reports an error |
| DocumentHandler.UploadDocument | internal/document/handler.go:36-56 | 400 for a bad patient id or no `document` form field; 201 with the service's record on success; otherwise 500 |
| DocumentHandler.GetPatientDocuments | internal/document/handler.go:69-83 | 400 exactly for a bad id; 200 with the list exactly when the service succeeds; otherwise 500 |
| DocumentHandler.DeleteDocument | internal/document/handler.go:95-113 | 204 on success, 404 for the sentinel, 400 for a bad id, otherwise 500 |
| DocumentHandler.OtherFieldNameRefused | web/lib/api.ts:160 | a file sent under the form field `file`, as the client does, is refused with 400 |
| DocumentHandler.ListingAsWrittenFails | internal/document/handler.go:76-79 | with the query as written, every listing for a valid id is a 500 carrying the database's error |
| DocumentHandler.DeleteAsWrittenIsServerError | internal/document/handler.go:102-109 | with the statement as written, every delete for a valid id is a 500 |
| ClientAuth.LocalStorage.constructor | web/lib/auth.ts:2-22 | storage starts empty |
| ClientAuth.LocalStorage.GetItem | web/lib/auth.ts:7 | an item is found exactly when it was set, with its value |
| ClientAuth.LocalStorage.SetItem | web/lib/auth.ts:3 | stores the value under the key, nothing else changes |
| ClientAuth.LocalStorage.RemoveItem | web/lib/auth.ts:11 | removes the key, nothing else changes |
| ClientAuth.SetAuthToken | web/lib/auth.ts:2-4 | the token is stored under `auth_token`, the role is kept, and the session is valid exactly when the token is |
| ClientAuth.SetUserRole | web/lib/auth.ts:16-18 | the role is stored under `user_role`, the token is kept |
| ClientAuth.ClearAuth | web/lib/auth.ts:10-13 | both keys are removed and the user is no longer authenticated at any time |
| ClientAuth.GetAuthToken | web/lib/auth.ts:6-8 | the token exactly when one is stored under `auth_token`, and then the stored text |
| ClientAuth.GetUserRole | web/lib/auth.ts:20-22 | the role exactly when one is stored under `user_role`, and then the stored text |
| ClientAuth.DecodeToken | web/lib/auth.ts:25-34 | a payload is decoded only from a token holding a `.` |
| ClientAuth.TokenValid | web/lib/auth.ts:38-47 | a token that counts as valid is non-empty and holds a `.`; a payload that does not decode, or has no `exp`, never counts |
| ClientAuth.IsAuthenticated | web/lib/auth.ts:37-51 | authenticated only when a token is stored and that token is valid at the current time |
| ClientAuth.AuthHeader | web/lib/api.ts:4-7 | a header is sent exactly when a non-empty token is stored, and it is `Bearer ` followed by the token |
| ClientAuth.DecodeCompactToken | web/lib/auth.ts:25-34 | the payload of `header.payload.signature` is the decoded middle segment |
| ClientAuth.NoSegmentsNoSession | web/lib/auth.ts:27-51 | a token without a `.` never counts as a session |
| ClientAuth.ExpiryIsStrict | web/lib/auth.ts:46-47 | a token is valid until just before its `exp` second and not at it |
| ClientAuth.ExpiryIsPermanent | web/lib/auth.ts:46-47 | once expired, a token stays expired |
| ZodSchemas.MinLength | web/lib/zod-schemas.ts:4 | `min(n)` passes exactly the strings whose JavaScript length (UTF-16 code units) is at least n, else one issue with its message |
| ZodSchemas.Utf16Length | web/lib/zod-schemas.ts:4 | a JavaScript length lies between the character count and twice it, and equals the count when no character is beyond U+FFFF |
| ZodSchemas.AstralCharacterCountsTwice | web/lib/zod-schemas.ts:4 | one emoji is two code units long and passes `min(2)` |
| ZodSchemas.PatientIssues | web/lib/zod-schemas.ts:3-8 | a patient form passes exactly when name ≥ 2, 0 ≤ age ≤ 150, phone ≥ 10 and address ≥ 5 UTF-16 code units |
| ZodSchemas.AgeBoundsInclusive | web/lib/zod-schemas.ts:5 | ages 0 and 150 pass; −1 and 151 fail with their own messages |
| ZodSchemas.MedicalIssues | web/lib/zod-schemas.ts:10-13 | passes exactly when the diagnosis is at least two UTF-16 code units long |
| ZodSchemas.PrescriptionIssues | web/lib/zod-schemas.ts:15-20 | passes exactly when medication ≥ 2 UTF-16 code units and dosage and frequency are non-empty |
| ZodSchemas.LoginIssues | web/lib/zod-schemas.ts:22-25 | passes exactly when username ≥ 3 and password ≥ 6 UTF-16 code units |
| ZodSchemas.PatientLengthsOnly | web/lib/zod-schemas.ts:3-8 | only the lengths and the age decide the verdict |
| ZodSchemas.WhitespaceOnlyPasses | web/lib/zod-schemas.ts:1-25 | nothing is trimmed: whitespace-only values of enough length pass |
| ZodSchemas.NotesAreOptional | web/lib/zod-schemas.ts:12-19 | notes never change a verdict |
| PatientTable.FilterPatients | web/components/patients/patient-table.tsx:43-48 | keeps exactly the patients whose name or diagnosis contains the term ignoring case, or whose phone contains it as typed, each as often as in the table |
| PatientTable.MatchesSearch | web/components/patients/patient-table.tsx:44-47 | an empty term matches every patient |
| PatientTable.FilterIsSublist | web/components/patients/patient-table.tsx:43 | the filtered rows keep the table's order |
| PatientTable.EmptyTermKeepsAll | web/components/patients/patient-table.tsx:43-48 | an empty term keeps every patient, in order |
| PatientTable.DisplayedCount | web/components/patients/patient-table.tsx:104 | the count shown is at most the number of patients, and all of them with no term |
| PatientTable.NameIgnoresCase | web/components/patients/patient-table.tsx:45 | a term that finds a name finds it in any case |
| PatientTable.PhoneIsCaseSensitive | web/components/patients/patient-table.tsx:46 | the phone is searched as typed: `AB` finds phone `AB`, `ab` does not |
| PatientTable.OffersActions | web/components/patients/patient-table.tsx:151 | only a stored `receptionist` role is offered Edit and Delete; never a doctor |
| PatientTable.ActionItems | web/components/patients/patient-table.tsx:145-165 | View Details comes first; Edit Patient and Delete Patient are there exactly when actions are offered |
| PatientTable.OnlyReceptionistEdits | web/components/patients/patient-table.tsx:151 | every other role, and no role at all, sees only View Details |
| PatientTable.TableState.constructor | web/components/patients/patient-table.tsx:36-40 | no term, nothing selected, both dialogs closed; the role is the one stored under `user_role` |
| PatientTable.TableState.HandleEdit | web/components/patients/patient-table.tsx:50-53 | offered only when the menu shows Edit Patient; selects the patient and opens the edit dialog, nothing else changes |
| PatientTable.TableState.HandleDelete | web/components/patients/patient-table.tsx:55-58 | offered only when the menu shows Delete Patient; selects the patient and opens the delete confirmation, nothing else changes |
| PatientTable.TableState.ConfirmDelete | web/components/patients/patient-table.tsx:60-71 | nothing without a selection; otherwise the id is sent, and on success the parent is told and the dialog and selection cleared, while on failure they stay |
| PatientTable.TableState.HandleEditSuccess | web/components/patients/patient-table.tsx:73-77 | closes the edit dialog, clears the selection, tells the parent once |
| PatientTable.TableState.Shown | web/components/patients/patient-table.tsx:43-48 | the rows shown are at most the patients, and all of them when the term is empty |
| Sidebar.IsActive | web/components/dashboard/sidebar.tsx:81 | an entry is active only on a path that starts with its href |
| Sidebar.DashboardOnlyExact | web/components/dashboard/sidebar.tsx:81 | the Dashboard entry is active on `/dashboard` and nowhere else |
| Sidebar.SectionsArePrefixes | web/components/dashboard/sidebar.tsx:81 | Patients and Settings are active on every path starting with their href |
| Sidebar.CharacterPrefix | web/components/dashboard/sidebar.tsx:81 | the prefix test is on characters: `/dashboard/patientsX` highlights Patients |
| Sidebar.SectionsExclusive | web/components/dashboard/sidebar.tsx:10-29 | no path is under both sections, and `/dashboard` is under neither |
| Sidebar.AtMostOneActive | web/components/dashboard/sidebar.tsx:80-81 | no path highlights two entries |
| Sidebar.MenuState.constructor | web/components/dashboard/sidebar.tsx:33 | the menu starts closed |
| Sidebar.MenuState.ToggleMenu | web/components/dashboard/sidebar.tsx:42 | the menu button flips the flag |
| Sidebar.MenuState.OverlayClick | web/components/dashboard/sidebar.tsx:53 | a click on the overlay closes the menu |
| Sidebar.MenuState.LinkClick | web/components/dashboard/sidebar.tsx:87 | following a link closes the menu |

## Left out

- I/O is not modelled: HTTP transport, logging (`log.Println`, `console.error`), the database
  driver, and Cloudinary's network calls. Their outcomes are parameters. Concurrency between
  requests is also out.
- Go's `encoding/json` matches object keys case-insensitively. The model matches them
  exactly.
- When a body holds several mistyped members, `encoding/json` reports one of them. The model
  always reports the first in field order.
- Database collation is replaced by code-point order, and the database's case folding by
  ASCII lower-casing.
- `NOW()` is a clock that advances after every write. Two rows stamped in the same instant
  are not modelled.
- `HashPassword` (bcrypt with cost 14) is not modelled; the comparison is a parameter.
  internal/auth/repository.go is not part of this model; its lookup is a parameter.
- PatientService.Service.CreatePatient and UpdatePatient: internal/patient/service.go:30,53
  assign a `PhoneNumber` field that neither `Patient` nor the request types declare. The model
  drops the phone, so the server keeps no phone number.
- PrescriptionHandler.CreatePrescription: `middleware.ContextKeyUserID` is not declared in
  internal/middleware/auth.go, and no middleware stores a user id. The context's user id is
  therefore an input.
- PatientRepository.Repository.GetAll: with no rows, Go returns a nil slice, which
  serialises as JSON `null`. The model returns the empty sequence.
- PatientRepository.Repository.SearchByName: with no matching row, Go returns a nil slice, and
  `PatientHandler.SearchPatients` sends JSON `null`. The model returns and sends the empty
  sequence.
- DocumentStore.Repository.GetByPatientID: with no document for the patient, Go returns a nil
  slice, and `DocumentHandler.GetPatientDocuments` sends JSON `null`. The model returns and
  sends the empty sequence.
- DocumentStore.CloudStore.Upload and Destroy: the store takes a call without a Go error as
  having taken effect. Cloudinary's Go client can report an API-level failure inside the result
  with a nil error, and `Destroy` without a resource type addresses only image assets, while
  `.doc`/`.docx` uploads are stored as raw files. So the asset-store clauses of
  `DocumentService.Service.UploadDocument` and `DeleteDocument` describe the abstract store,
  not Cloudinary. The service's replies are unaffected, because both destroy results are ignored.
- PatientHandler.LookalikeErrorIsServerError: tests/patient_test.go:79-88 expects 404 for a
  plain error reading "patient not found". The code uses `errors.Is` with the sentinel, which
  gives 500. The model follows the code.
- The front end's `Patient.diagnosis` is typed as a string. The server can send `null` for
  it, which would make `toLowerCase` throw in the filter. The model takes the diagnosis as a
  string.
- Several components (login page, patient documents, prescriptions) read and write the key
  `token`, while web/lib/auth.ts and web/lib/api.ts use `auth_token`. Only the two library
  files are modelled.
- DocumentService.UploadDocument: the Cloudinary public id and secure URL are its response,
  taken as a parameter. How Cloudinary combines `folder` with the public id is not modelled.
- The prescription repository and service (internal/prescription/repository.go,
  internal/prescription/service.go) are not part of this model. Their outcome is the `create`
  and `list` parameter of the handler.
- Other front-end code is not modelled: `formatFileSize`/`formatDate`, the fetch wrappers in
  web/lib/api.ts beyond the header, `deletePatient` calling `json()` on a 204 reply, and the
  document upload form's timers.
- JWT parsing and signature verification are a parameter (`ParsedToken`). The claim `exp`
  is checked by the JWT library inside that parameter.
- PatientTable.TableState.ConfirmDelete: whether the delete request succeeds is an input.
  The asynchronous ordering of the state updates is not modelled.
- PatientTable.FilterPatients and MatchesSearch: the filter lower-cases with ASCII rules.
  JavaScript's `toLowerCase` is Unicode-aware, so a term `É` finds the name `élise` in the
  browser but not in the model.
- PatientTable.FilterPatients and MatchesSearch: the server's patient JSON carries no `phone`
  key, so `patient.phone.includes` throws a `TypeError` in the browser once the name test
  fails. The model gives every `UiPatient` a phone string and returns a verdict instead.
- Gin.Value: JSON numbers are integers only (`Number`). A body such as `{"age": 30.5}`, which
  `encoding/json` refuses for an `int` field, cannot be written in the model.

## Findings

| source | as written | input that shows it | evidently intended | confidence | as-written member | corrected member |
|---|---|---|---|---|---|---|
| internal/document/repository.go:54 | the delete statement is `DELECT FROM patient_documents WHERE id = $1`, a syntax error; the service has already destroyed the Cloudinary asset (service.go:84) | `DELETE /documents/1` for an existing document 1: its asset is destroyed, its row remains, and the reply is 500 | `DELETE FROM …`: the row is removed and the reply is 204 | high — not executed | DocumentService.Service.DeleteDocumentAsWritten | DocumentService.Service.DeleteDocument |
| internal/document/repository.go:48 | the listing orders by `uploaded_by`, a column the table does not have (the insert at line 29 and model.go:13 name `uploaded_at`) | `GET /patients/1/documents`: the query fails and the reply is 500 | `ORDER BY uploaded_at DESC`: the patient's documents, newest first | high — not executed | DocumentStore.Repository.GetByPatientIDAsWritten | DocumentStore.Repository.GetByPatientID |
