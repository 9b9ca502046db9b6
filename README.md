# Workflow manager: a Dafny model of its core

The system is a small workflow manager. An Express/Mongoose back end authenticates
requests by a Bearer token and keeps user accounts, handling register, login, profile
read and profile update. It also stores workflows (named, owned lists of steps) and
lists them with search, status filter and pagination. A React/Redux client keeps two
stores. The session store holds the login and register requests and the token kept in
browser storage. The workflow store attaches the token to requests and caches the
fetched list. Four views then work on the cached list: the creation form, the list page
filter, the dashboard figures and the detail page.

The model has one module per source file, plus three shared modules:

| module | file | models |
|---|---|---|
| `Wrappers` | wrappers.dfy | `Option` |
| `Text` | text.dfy | JavaScript string operations the core uses: truthiness, `startsWith`, `includes`, `toLowerCase`, `split`, `trim` |
| `AuthMiddleware` | auth_middleware.dfy | Backend/src/middleware/authMiddleware.js |
| `UserController` | user_controller.dfy | Backend/src/controllers/userController.js (a `UserStore` class whose methods update the account list) |
| `WorkflowModel` | workflow_model.dfy | Backend/src/models/Workflow.js (schema validation, the unique index, the `progress` virtual) |
| `WorkflowController` | workflow_controller.dfy | Backend/src/controllers/workflowController.js (a `WorkflowStore` class for create; listing as functions) |
| `ClientCommon` | client_common.dfy | the browser's `localStorage` token entry as a class, and the error value of a failed reply |
| `WorkflowSlice` | workflow_slice.dfy | frontend/src/store/slices/workflowSlice.js |
| `AuthSlice` | auth_slice.dfy | frontend/src/store/slices/authSlice.js |
| `WorkflowCreate` | workflow_create.dfy | frontend/src/components/workflow/WorkflowCreate.jsx |
| `WorkflowList` | workflow_list.dfy | frontend/src/components/workflow/WorkflowList.jsx |
| `Dashboard` | dashboard.dfy | frontend/src/components/workflow/Dashboard.jsx |
| `WorkflowDetail` | workflow_detail.dfy | frontend/src/components/workflow/WorkflowDetail.jsx |

The code that changes state in place becomes classes whose methods have `modifies`
clauses:
- the account store;
- the workflow store;
- the request headers;
- the token storage;
- the two client stores.

Each client store also has a pure reducer, `Reduce`, over snapshots of its state. Every
method of a store class ensures that its new snapshot is `Reduce` of the old one, and
the lemmas about runs of actions are stated on `Reduce`. Pure code becomes functions:
- the middleware's guard chain;
- schema validation;
- listing;
- every view computation.

Some parts of the system are outside the model and become parameters: token
verification, the account-schema validation, password hashing, token signing and the
clock.
- Token verification (`jwt.verify`) is a function from the token to
  `Valid(claims) | Expired | Malformed | OtherFault`.
- The account-schema validation is the list of messages it would raise. An empty list
  means the account is valid.
- Password hashing, token signing and the configured token lifetime are constant
  fields of the account store.
- The clock is a `now` parameter.

Mongoose drops a filter key whose value is `undefined`, and `findById(undefined)` finds
nothing. The model follows this:
- `register` without an email looks up `findOne({})`, so it matches whichever account
  comes first;
- listing without a user id is not scoped to an owner.

## Model

| member | source | states |
|---|---|---|
| Text.Lower | frontend/src/components/workflow/WorkflowList.jsx:19-20 | `toLowerCase` keeps the length and lower-cases each ASCII letter in place |
| Text.ContainsAt | frontend/src/components/workflow/WorkflowList.jsx:19-20 | `includes` holds iff the term occurs as a block of the text at some position |
| Text.ContainsEmpty | frontend/src/components/workflow/WorkflowList.jsx:19 | every text includes the empty term |
| Text.Split | Backend/src/middleware/authMiddleware.js:24 | `split` gives at least one part, no part holds the separator, and text without the separator is its only part |
| Text.JoinSplit | Backend/src/middleware/authMiddleware.js:24 | joining the parts of a split with the separator gives back the text, so splitting loses nothing |
| Text.TakeUntil | Backend/src/middleware/authMiddleware.js:24 | the prefix up to the first separator: a prefix of the text without the separator, followed by the separator unless it is the whole text |
| Text.TakeUntilWhole | Backend/src/middleware/authMiddleware.js:24 | text without the separator is taken whole |
| Text.SplitFirst | Backend/src/middleware/authMiddleware.js:24 | the first part of a split is the text before the first separator |
| Text.SplitAfterWord | Backend/src/middleware/authMiddleware.js:24 | a word followed by the separator is split off as the first part and the rest is split alone |
| Text.TrimStart | Backend/src/models/Workflow.js:8 | the result is a suffix of the text that does not start with white space, and everything cut from the front is white space |
| Text.TrimEnd | Backend/src/models/Workflow.js:8 | the result is a prefix of the text that does not end with white space, and everything cut from the back is white space |
| Text.Trim | Backend/src/models/Workflow.js:8-13 | `trim` gives text that neither starts nor ends with white space and is no longer than the input |
| Text.TrimRemovesOnlySpace | Backend/src/models/Workflow.js:8-13 | `trim` cuts only white space: the result is a block of the text with nothing but white space before and after it, and it is empty iff the text is all white space |
| Text.SpaceAroundBlock | Backend/src/models/Workflow.js:8-13 | cutting white space from the front and then from the back leaves a block with only white space around it |
| Text.TrimFixesTrimmed | Backend/src/models/Workflow.js:8-13 | `trim` leaves a text unchanged iff it has no white space at either end |
| Text.TrimIdempotent | Backend/src/models/Workflow.js:8-13 | trimming twice is trimming once, so a stored name or description is already trimmed |
| AuthMiddleware.TokenOf | Backend/src/middleware/authMiddleware.js:24 | the token `split(" ")[1]` holds no space, and is empty when the header has no space and so no second part |
| AuthMiddleware.Authenticate | Backend/src/middleware/authMiddleware.js:4-62 | the request continues iff the header is present, starts with "Bearer ", has a non-empty token and the token verifies; the request user is then exactly the claims' id, email and role; every refusal is 401 except an unexpected verification fault, which alone gives 500 |
| AuthMiddleware.MissingHeader | Backend/src/middleware/authMiddleware.js:7-13 | an absent or empty header gives 401 "No authorization token provided", whatever verification would say |
| AuthMiddleware.WrongScheme | Backend/src/middleware/authMiddleware.js:16-21 | a header not starting with the case-sensitive "Bearer " gives 401 "Invalid token format" |
| AuthMiddleware.TokenIsSecondSegment | Backend/src/middleware/authMiddleware.js:24 | after the prefix, the token is the text up to the next space |
| AuthMiddleware.EmptyTokenDenied | Backend/src/middleware/authMiddleware.js:24-31 | "Bearer " and "Bearer  x" (two spaces) both give an empty token and 401 "Access denied" |
| AuthMiddleware.TokenEmptyIff | Backend/src/middleware/authMiddleware.js:24-26 | behind the "Bearer " prefix, the token is empty iff the header ends there or a second space follows |
| AuthMiddleware.EmptyToken | Backend/src/middleware/authMiddleware.js:24-31 | every header with the prefix and an empty token gets 401 "Access denied", whatever verification would say |
| AuthMiddleware.ExtraSegmentsIgnored | Backend/src/middleware/authMiddleware.js:24 | "Bearer t extra" verifies exactly `t` |
| AuthMiddleware.VerificationFaults | Backend/src/middleware/authMiddleware.js:44-60 | expired gives 401 "Token has expired", malformed gives 401 "Invalid token", any other fault gives 500 "Internal server error during authentication" |
| AuthMiddleware.GuardsPrecedeVerify | Backend/src/middleware/authMiddleware.js:7-43 | a header that fails a guard gets the same 401 reply whatever verification would return, so verification runs only after all guards pass |
| UserController.IssuedClaims | Backend/src/controllers/userController.js:5-9 | an issued token carries only the account id, and expires the configured lifetime (30 days by default) after issue |
| UserController.IssuedTokenIdentity | Backend/src/controllers/userController.js:5-9 | a token from this issuer passes the middleware with the id set and email and role absent |
| UserController.FindByEmail | Backend/src/controllers/userController.js:17 | the first account matching the email filter, or none when no account matches; an absent email matches every account |
| UserController.FindById | Backend/src/controllers/userController.js:129 | the account with the id, or none; an absent id finds nothing |
| UserController.CheckLogin | Backend/src/controllers/userController.js:66-99 | the login checks in source order: missing fields iff email or password is not a non-empty string; an unknown account iff no account has the email; otherwise the first account with the email decides: deactivated if inactive, whatever the password; a wrong password if active and the hash differs; granted, on that account, iff active and the hash matches |
| UserController.LoginFailure | Backend/src/controllers/userController.js:68-99 | missing email or password gives 400; every other refusal gives 401 |
| UserController.UnknownAndWrongPasswordAlike | Backend/src/controllers/userController.js:76-99 | an unknown email and a wrong password get the same reply, 401 "Invalid credentials"; a deactivated account gets a different one, 401 "Account is deactivated" |
| UserController.DeactivatedWhateverPassword | Backend/src/controllers/userController.js:84-99 | an inactive account is refused as deactivated whatever password is given, since that check comes before the password check |
| UserController.GrantedIff | Backend/src/controllers/userController.js:68-99 | with unique emails and both fields present, login is granted iff an account has the email, is active and the password's hash matches |
| UserController.AllowedFields | Backend/src/controllers/userController.js:154-155 | the fields applied are exactly the keys of the update among "name" and "email" |
| UserController.PatchTouchesOnlyAllowed | Backend/src/controllers/userController.js:153-175 | only name and email can change; other keys have no effect; without an allowed key the account is unchanged |
| UserController.ApplyUpdates | Backend/src/controllers/userController.js:173-175 | the update loop yields the account patched with exactly the allowed keys |
| UserController.UserStore.Register | Backend/src/controllers/userController.js:12-60 | a matching email gives 400 "Email already registered" and no change; a validation failure gives the messages and no change; otherwise exactly one active account is appended and 201 returns its public profile and a token for its id |
| UserController.UserStore.Login | Backend/src/controllers/userController.js:63-124 | the reply follows the login check; only a granted login updates `lastLogin`, and only on that account; every refused login leaves the store unchanged |
| UserController.UserStore.GetProfile | Backend/src/controllers/userController.js:127-148 | an existing id gives its public profile; anything else gives 404 "User not found" |
| UserController.UserStore.UpdateProfile | Backend/src/controllers/userController.js:151-205 | no allowed field gives 400 before the lookup; an unknown account gives 404; a validation failure gives the messages; an email held by another account gives 400 "Email already in use"; otherwise only that account changes, to the patched account |
| UserController.RegisterTwice | Backend/src/controllers/userController.js:17-45 | registering the same email twice stores one account: 201 first, 400 "Email already registered" second |
| WorkflowModel.ParseWorkflowStatus | Backend/src/models/Workflow.js:16-20 | only "active", "inactive" and "draft" are workflow statuses |
| WorkflowModel.ParseStepStatus | Backend/src/models/Workflow.js:31-35 | only "pending", "in_progress" and "completed" are step statuses |
| WorkflowModel.StatusNamesRoundTrip | Backend/src/models/Workflow.js:16-35 | parsing a status's name gives back that status |
| WorkflowModel.StepViolations | Backend/src/models/Workflow.js:31-35 | the steps raise no message iff every given step status is one of the three |
| WorkflowModel.Validate | Backend/src/models/Workflow.js:5-47 | a workflow is refused iff some schema rule is broken, with exactly those messages (as a set; their order is schema path order); an accepted one is well formed and keeps the input: the trimmed name and description, the given status or else draft, each step with its name, description and order and its given status or else pending, the metadata or else the empty map, the owner and id, and the body's `createdAt` or else the save time |
| WorkflowModel.NoViolationsIff | Backend/src/models/Workflow.js:5-37 | a document raises no message iff its name is present, non-blank and at most 100 characters after trimming, a given description is at most 500 characters after trimming, a given status and every given step status are in their enums, and an owner is set |
| WorkflowModel.FieldViolationsIff | Backend/src/models/Workflow.js:5-20 | the name, description and status rules one by one: each raises no message iff its condition holds |
| WorkflowModel.Defaults | Backend/src/models/Workflow.js:19-34 | an absent workflow status becomes draft and an absent step status becomes pending |
| WorkflowModel.RequiredAndEnum | Backend/src/models/Workflow.js:5-37 | each broken rule's message is among those the document is refused with: a missing or blank name gives the required message, a name over 100 characters after trimming the name length message, a description over 500 characters after trimming its length message, any status outside the enum its enum message, a missing owner the required message, and each step status outside its enum that step's enum message |
| WorkflowModel.StepMessageListed | Backend/src/models/Workflow.js:31-35 | a step with a status outside the enum contributes its enum message |
| WorkflowModel.CompletedCountAll | Backend/src/models/Workflow.js:58 | the completed count equals the number of steps iff every step is completed |
| WorkflowModel.CompletedCount | Backend/src/models/Workflow.js:58 | the completed count is at most the number of steps, and 0 iff no step is completed |
| WorkflowModel.Progress | Backend/src/models/Workflow.js:56-60 | progress is between 0 and 100, 0 without steps, and otherwise the exact ratio 100c/n rounded half up: for n steps of which c are completed, 2n·p − n ≤ 200c < 2n·p + n (where the double product falls just below a half, the source gives one less; see "## Left out") |
| WorkflowModel.RoundHalfUp | Backend/src/models/Workflow.js:56-60 | the integer formula `(200c + n) / 2n` is `100c / n` rounded half up, and at most 100 when c ≤ n |
| WorkflowModel.ProgressFullIffAllCompleted | Backend/src/models/Workflow.js:58-59 | below 200 steps, progress is 100 iff every step is completed |
| WorkflowModel.ProgressHalf | Backend/src/models/Workflow.js:58-59 | one completed and one pending step give 50 |
| WorkflowModel.ProgressRoundsUpNearlyComplete | Backend/src/models/Workflow.js:59 | 200 completed steps and 1 pending one round to 100 |
| WorkflowController.Stamp | Backend/src/controllers/workflowController.js:15-18 | the owner is the caller's id whatever the body says, and every other field is the body's |
| WorkflowController.EmptyBody | Backend/src/controllers/workflowController.js:7 | a body counts as empty iff it is missing or carries no key at all, neither a schema path nor any other |
| WorkflowController.AppendKeepsUnique | Backend/src/models/Workflow.js:51 | appending a workflow whose (name, owner) pair is free keeps the pairs unique |
| WorkflowController.WorkflowStore.CreateWorkflow | Backend/src/controllers/workflowController.js:4-54 | a missing or empty body gives 400 "Request body is required"; invalid fields give 400 with the messages; a taken (name, owner) pair gives 400 "A workflow with this name already exists"; in each refusal nothing is stored; otherwise exactly the validated workflow is appended and returned with 201, owned by the caller; (name, owner) pairs stay unique |
| WorkflowController.SameNameTwoOwners | Backend/src/models/Workflow.js:51 | for any valid trimmed name, two owners may each create a workflow with that name, but one owner cannot create two |
| WorkflowController.NameOnlyAccepted | Backend/src/controllers/workflowController.js:7-21 | a body with just a valid trimmed name is not empty and, stamped with an owner, is accepted under that name and owner |
| WorkflowController.CreateFree | Backend/src/controllers/workflowController.js:14-29 | such a body is created and appended when the owner has no workflow of that name |
| WorkflowController.CreateTaken | Backend/src/controllers/workflowController.js:39-45 | such a body is refused with 400 "A workflow with this name already exists" when the owner already has that name, and the store is unchanged |
| WorkflowController.OrDefault | Backend/src/controllers/workflowController.js:60-61 | an unparsable or zero page or limit falls back to the default, any other value is kept, and a non-zero default gives a non-zero result |
| WorkflowController.BuildFilter | Backend/src/controllers/workflowController.js:62-78 | the query is scoped to the caller's id; it holds a search or status condition iff that parameter is a non-empty string, and then exactly that value |
| WorkflowController.FilterMeaning | Backend/src/controllers/workflowController.js:66-78 | what `MatchesFilter` means for the built query: a workflow passes iff it is the caller's, a non-empty search term occurs in its name or description ignoring case, and a given status matches exactly |
| WorkflowController.UndefinedOwnerNotScoped | Backend/src/controllers/workflowController.js:66-68 | without a caller id the owner condition is dropped |
| WorkflowController.Select | Backend/src/controllers/workflowController.js:81 | the records found are exactly the stored ones that pass the filter: each passing record occurs as often as it is stored, any other not at all |
| WorkflowController.Insert | Backend/src/controllers/workflowController.js:82 | inserting into a newest-first list keeps it newest first and adds exactly that workflow |
| WorkflowController.NewestFirst | Backend/src/controllers/workflowController.js:82 | the sort is newest first and a permutation of its input |
| WorkflowController.Window | Backend/src/controllers/workflowController.js:83-84 | skip then limit: the block of the sorted list that starts at position `skip`, holding `limit` records or as many as are left after the skip, none when the skip passes the end |
| WorkflowController.CeilDiv | Backend/src/controllers/workflowController.js:96 | `Math.ceil(total / limit)`: not negative for a positive limit; for a negative limit, minus the whole number of times its size fits in `total` |
| WorkflowController.PagesCoverTotal | Backend/src/controllers/workflowController.js:96 | `pages` is the least page count whose pages hold every match; 0 when nothing matches |
| WorkflowController.Matching | Backend/src/controllers/workflowController.js:81-82 | the matches the pages are cut from are newest first and are exactly the filter's matches, each as often as it is stored |
| WorkflowController.ListWorkflows | Backend/src/controllers/workflowController.js:57-106 | a negative skip gives 500; otherwise `data` is the block of the newest-first matches that starts at `(page - 1) * limit` and holds up to `limit` records (the size of a negative limit), each stored and passing the filter; `total` counts every match, `page` is the parsed page and `pages` is `Math.ceil(total / limit)` |
| WorkflowController.ListScopedToOwner | Backend/src/controllers/workflowController.js:66-68 | every listed workflow belongs to the caller, whatever the search, status and paging |
| WorkflowController.DefaultPaging | Backend/src/controllers/workflowController.js:60-61 | every combination of a missing, non-numeric or zero page and limit gets the whole reply of page 1 with limit 10: page 1, the first 10 newest-first matches and `pages` = `Math.ceil(total / 10)` |
| WorkflowController.QueryByValue | Backend/src/controllers/workflowController.js:60-63 | two requests whose parsed page and limit, search and status agree get the same reply |
| WorkflowController.WindowsJoin | Backend/src/controllers/workflowController.js:83-84 | two adjacent skip/limit windows laid end to end are one window |
| WorkflowController.WindowsTile | Backend/src/controllers/workflowController.js:83-84 | `count` consecutive windows of `n` records from the start are the window of `count * n` records |
| WorkflowController.WindowAll | Backend/src/controllers/workflowController.js:83-84 | a window from the start at least as long as the list is the whole list |
| WorkflowController.MatchingIgnoresPage | Backend/src/controllers/workflowController.js:60-82 | the sorted matches do not depend on the requested page |
| WorkflowController.OnePage | Backend/src/controllers/workflowController.js:81-84 | with a positive limit, page `p` holds the window of `limit` sorted matches after `(p - 1) * limit` of them |
| WorkflowController.PagesAreWindows | Backend/src/controllers/workflowController.js:81-84 | with a positive limit, pages 1 to `count` are the first `count` consecutive windows of `limit` sorted matches |
| WorkflowController.PageCount | Backend/src/controllers/workflowController.js:87-96 | with a positive limit, `pages` is not negative and `pages * limit` is at least the number of matches |
| WorkflowController.PagesTileMatches | Backend/src/controllers/workflowController.js:57-106 | with a positive limit, pages 1 to `pages` laid end to end are every match, newest first: each match is on exactly one page, in order |
| WorkflowController.FifteenMatchesSecondPage | Backend/src/controllers/workflowController.js:87-97 | 15 matches with limit 10 give 2 pages, and page 2 holds 5 records |
| ClientCommon.TokenStorage.SetItem | frontend/src/store/slices/authSlice.js:12 | the stored token becomes the given one |
| ClientCommon.TokenStorage.RemoveItem | frontend/src/store/slices/authSlice.js:46 | no token is stored afterwards |
| WorkflowSlice.WithBearer | frontend/src/store/slices/workflowSlice.js:12-18 | "Authorization: Bearer <token>" is set iff the stored token is truthy; otherwise the headers are untouched; no other header changes |
| WorkflowSlice.RequestConfig.Intercept | frontend/src/store/slices/workflowSlice.js:12-18 | the interceptor updates the headers in place to the ones above |
| WorkflowSlice.InterceptedHeaderReachesGate | frontend/src/store/slices/workflowSlice.js:15 | the header the interceptor writes passes the server's guards and hands it exactly the stored token |
| WorkflowSlice.Reduce | frontend/src/store/slices/workflowSlice.js:45-85 | the reducer field by field: the list grows by a created workflow, is replaced by a fetched list and is otherwise kept; only `setCurrentWorkflow` sets the current workflow; loading is on after a pending case and off after a settled one; pending cases and `clearError` clear the error, rejected cases set it to the reply's error, the others keep it |
| WorkflowSlice.FromInitialState | frontend/src/store/slices/workflowSlice.js:38-66 | the store starts empty, with no current workflow, not loading and no error; until a fetch, its list is exactly the created workflows in arrival order |
| WorkflowSlice.CreatesOnlyAppend | frontend/src/store/slices/workflowSlice.js:63-66 | until the list is fetched again, the cached list only grows at its end, by the created workflows in arrival order |
| WorkflowSlice.OneActionAppends | frontend/src/store/slices/workflowSlice.js:45-85 | an action other than a fetch adds at most the created workflow, at the end of the list |
| WorkflowSlice.CurrentOnlyBySet | frontend/src/store/slices/workflowSlice.js:49-51 | only `setCurrentWorkflow` changes the current workflow |
| WorkflowSlice.RequestSettles | frontend/src/store/slices/workflowSlice.js:59-83 | pending then fulfilled ends not loading with no error, the list appended to (create) or replaced (fetch); pending then rejected ends not loading with the reply's error and the list untouched |
| WorkflowSlice.WorkflowState.constructor | frontend/src/store/slices/workflowSlice.js:38-43 | the store starts empty, with no current workflow, not loading and no error |
| WorkflowSlice.WorkflowState.SetCurrent | frontend/src/store/slices/workflowSlice.js:49-51 | only the current workflow changes |
| WorkflowSlice.WorkflowState.Clear | frontend/src/store/slices/workflowSlice.js:52-54 | only the error changes, to none |
| WorkflowSlice.WorkflowState.Pending | frontend/src/store/slices/workflowSlice.js:59-75 | loading starts and the error clears; list and current workflow are kept |
| WorkflowSlice.WorkflowState.CreateDone | frontend/src/store/slices/workflowSlice.js:63-66 | loading ends and the created workflow is pushed at the end; earlier entries are kept |
| WorkflowSlice.WorkflowState.GetAllDone | frontend/src/store/slices/workflowSlice.js:76-79 | loading ends and the list is replaced by the fetched one |
| WorkflowSlice.WorkflowState.Rejected | frontend/src/store/slices/workflowSlice.js:67-83 | loading ends and the error is the reply's; the list is untouched |
| AuthSlice.Reduce | frontend/src/store/slices/authSlice.js:41-88 | the reducer field by field: a fulfilled login or register authenticates with the payload's user and token, `logout` clears them and ends the session, every other case keeps the session; loading is on after a pending case and off after a settled one; pending cases and `clearError` clear the error, rejected cases set it to the reply's error, the others keep it |
| AuthSlice.AuthenticatedHasSession | frontend/src/store/slices/authSlice.js:33-86 | from the initial state, whatever is dispatched, an authenticated state holds a user and a token |
| AuthSlice.ConsistencyPreserved | frontend/src/store/slices/authSlice.js:45-86 | every case keeps "authenticated implies user and token present" |
| AuthSlice.OnlyFulfilledAuthenticates | frontend/src/store/slices/authSlice.js:62-82 | without a fulfilled login or register, an unauthenticated state stays unauthenticated |
| AuthSlice.StoredTokenNeedsLogin | frontend/src/store/slices/authSlice.js:33-39 | `InitialState` takes the stored token but is not authenticated, and stays so until a request is fulfilled |
| AuthSlice.RequestSettles | frontend/src/store/slices/authSlice.js:58-86 | pending then fulfilled authenticates with the payload's user and token with no error; pending then rejected records the error and keeps user, token and the authenticated flag; loading ends either way |
| AuthSlice.AuthState.constructor | frontend/src/store/slices/authSlice.js:33-39 | the initial state with the token read from storage |
| AuthSlice.AuthState.SignOut | frontend/src/store/slices/authSlice.js:45-50 | the stored token is removed; user and token become none and the session unauthenticated; loading and error are kept |
| AuthSlice.AuthState.Clear | frontend/src/store/slices/authSlice.js:51-53 | only the error changes, to none |
| AuthSlice.AuthState.Authenticate | frontend/src/store/slices/authSlice.js:6-86 | a successful login or register writes the returned token to storage and authenticates with the payload's user and token; a failure records the reply's error, keeps storage and session; loading ends either way |
| WorkflowCreate.HandleChange | frontend/src/components/workflow/WorkflowCreate.jsx:24-30 | exactly the named field takes the value; the other fields and the steps are kept |
| WorkflowCreate.LastChangeWins | frontend/src/components/workflow/WorkflowCreate.jsx:24-30 | of two changes to one field, the later wins |
| WorkflowCreate.ChangesCommute | frontend/src/components/workflow/WorkflowCreate.jsx:24-30 | changes to different fields commute |
| WorkflowCreate.ChangeToCurrentIsIdentity | frontend/src/components/workflow/WorkflowCreate.jsx:24-30 | writing back a field's own value changes nothing |
| WorkflowCreate.HandleStepChange | frontend/src/components/workflow/WorkflowCreate.jsx:32-37 | the length is kept; only the chosen field of the step at the index changes; an out-of-range index changes nothing |
| WorkflowCreate.StepChangeUndone | frontend/src/components/workflow/WorkflowCreate.jsx:32-37 | writing the old value back undoes a step edit |
| WorkflowCreate.AddStep | frontend/src/components/workflow/WorkflowCreate.jsx:39-52 | one blank pending step numbered one past the length is appended; all else is kept |
| WorkflowCreate.WithoutIndex | frontend/src/components/workflow/WorkflowCreate.jsx:57 | the index filter removes exactly the step at the index and keeps the rest in order; an out-of-range index changes nothing |
| WorkflowCreate.RemoveStep | frontend/src/components/workflow/WorkflowCreate.jsx:54-59 | one step fewer; the steps before the index stay in place, those after shift down one with their `order` unchanged; the other form fields are kept |
| WorkflowCreate.FirstStepStays | frontend/src/components/workflow/WorkflowCreate.jsx:149-157 | the removal the form offers (index above 0) never removes the first step |
| WorkflowCreate.AddKeepsNumbering | frontend/src/components/workflow/WorkflowCreate.jsx:47 | additions keep steps numbered 1..n in order, keep the earlier steps and add blank ones |
| WorkflowCreate.InitialThenAdds | frontend/src/components/workflow/WorkflowCreate.jsx:10-52 | `InitialForm` is a draft with a single blank step numbered 1, and after n additions it holds n+1 pending steps numbered 1..n+1 |
| WorkflowCreate.RemoveThenAddRepeatsOrder | frontend/src/components/workflow/WorkflowCreate.jsx:39-59 | removing the middle one of three steps, then adding a step, leaves two steps numbered 3 |
| WorkflowList.Filtered | frontend/src/components/workflow/WorkflowList.jsx:17-23 | the filtered list is an order-preserving subsequence, keeping a workflow iff it matches both the search and the status: each kept workflow occurs as often as in the list, any other not at all |
| WorkflowList.EmptySearchMatchesAll | frontend/src/components/workflow/WorkflowList.jsx:19 | an empty search term matches every workflow |
| WorkflowList.NoFiltersShowAll | frontend/src/components/workflow/WorkflowList.jsx:17-23 | with no search term and "all", the list is shown unfiltered |
| WorkflowList.StatusFilterExact | frontend/src/components/workflow/WorkflowList.jsx:21 | a status filter other than "all" requires equality |
| WorkflowList.NoDescriptionNameOnly | frontend/src/components/workflow/WorkflowList.jsx:18-20 | a workflow without a description matches only by name |
| WorkflowList.SearchIgnoresCase | frontend/src/components/workflow/WorkflowList.jsx:19 | "BOARD" finds "onboarding" |
| WorkflowList.BadgeClass | frontend/src/components/workflow/WorkflowList.jsx:90-96 | active is green, inactive red, anything else yellow |
| Dashboard.ActiveOnly | frontend/src/components/workflow/Dashboard.jsx:24 | exactly the active workflows: each active workflow occurs as often as in the list, any other not at all |
| Dashboard.Stats | frontend/src/components/workflow/Dashboard.jsx:15-34 | three cards, "Total Workflows", "Active Workflows" and "Team Members", the first two counts with the active count at most the total |
| Dashboard.AllActiveSplit | frontend/src/components/workflow/Dashboard.jsx:24 | every workflow is active iff the first is and every later one is |
| Dashboard.StatsAgree | frontend/src/components/workflow/Dashboard.jsx:15-34 | the total is the list length; the active count is at most the total, equals it iff all are active, and equals the size of the list page's "active" view; the team figure is "5" |
| Dashboard.ActiveAllIff | frontend/src/components/workflow/Dashboard.jsx:24 | every workflow is active iff the active count is the length |
| Dashboard.ActiveIsStatusFilter | frontend/src/components/workflow/Dashboard.jsx:24 | the active filter is the list page's filter for "active" with no search term |
| Dashboard.Recent | frontend/src/components/workflow/Dashboard.jsx:74-90 | a spinner iff loading; the empty-state message iff not loading and the list is empty; otherwise the first min(5, n) workflows in store order |
| Dashboard.CreatedShowsWhenFewerThanFive | frontend/src/components/workflow/Dashboard.jsx:90 | with fewer than five cached, a created workflow shows last in the recent list |
| WorkflowDetail.FindFirst | frontend/src/components/workflow/WorkflowDetail.jsx:15 | the position of the first workflow with the id, or none iff none has it |
| WorkflowDetail.Lookup | frontend/src/components/workflow/WorkflowDetail.jsx:14-22 | it selects a workflow iff some workflow has the id; otherwise it reports "Workflow not found" and goes to "/workflows" |
| WorkflowDetail.SelectSetsCurrent | frontend/src/components/workflow/WorkflowDetail.jsx:15-17 | the selected workflow is the first with the id, and dispatching it changes only the current workflow |
| WorkflowDetail.StatusColor | frontend/src/components/workflow/WorkflowDetail.jsx:32-43 | active, inactive and draft get their colours; the gray default iff the status is none of them |
| WorkflowDetail.StepStatusColor | frontend/src/components/workflow/WorkflowDetail.jsx:45-56 | completed, in_progress and pending get their colours; gray iff none of them |
| WorkflowDetail.StatusColorsDistinct | frontend/src/components/workflow/WorkflowDetail.jsx:32-43 | the three workflow statuses get three different colours |
| WorkflowDetail.StepStatusColorsDistinct | frontend/src/components/workflow/WorkflowDetail.jsx:45-56 | the three step statuses get three different colours |
| WorkflowDetail.DetailAgreesWithBadge | frontend/src/components/workflow/WorkflowDetail.jsx:32-43 | the detail colour equals the list badge for the three schema statuses and differs for any other |

## Left out

- `$regex` search: the back-end search treats the term as a regular expression. The model matches it as a literal substring, ignoring case.
- Letter case and white space: lower-casing covers ASCII letters only. Trimming covers the ECMAScript white space the model lists, not every Unicode space separator.
- String length: `maxlength` counts UTF-16 code units, while the model counts characters (code points). A name or description with characters outside the Basic Multilingual Plane can pass the model's 100 and 500 limits and still be refused by the schema.
- Client-supplied `_id` and `updatedAt`: the model drops them with the other keys outside the schema. The schema would keep a valid `_id` as the document id, and the timestamps option overwrites `updatedAt`. A body `createdAt` is modelled and kept; a value that fails to cast to a date is not modelled.
- `parseInt`: page and limit arrive already parsed, absent when a string does not parse.
- Floating point: the progress ratio is computed on integers, not in IEEE-754 doubles.
- WorkflowModel.Progress: rounds the exact ratio 100c/n half up, as `(200c + n) / (2n)`. The source computes `(c / n) * 100` in doubles, and that product sometimes falls just below an exact half. There the model gives one more than the source: 23 completed of 40 steps give 57.49999999999999 in doubles, so 57, while the model gives 58.
- WorkflowModel.Validate: the messages are listed in schema path order (name, description, status, createdBy, steps). The source lists them in the order the document's validators record their errors, which can put an unset required path such as `createdBy` first. Only the set of messages is meant to agree with the source.
- Workflow metadata: the schema's `Map` of `Mixed` values is modelled as a map from strings to strings. The schema gives `metadata` no default, so a workflow saved without one has no metadata, while the model stores the empty map. An absent metadata map and an empty one are therefore the same value in the model.
- WorkflowModel.ProgressFullIffAllCompleted: holds below 200 steps only. At 200 completed and 1 pending step the rounding already gives 100, which ProgressRoundsUpNearlyComplete shows.
- Backend/src/models/User.js is not part of this model. Its validation rules are a parameter; `getPublicProfile` is assumed to drop only the password hash; `isActive` is assumed to default to true.
- Password hashing and `comparePassword`: a fixed one-way function. Salting is not modelled.
- Token signing and verification: signing is a fixed function of the claims; verification is a parameter.
- UserController.UserStore.Register: takes the name and password as present strings. Missing ones are checked only by the account schema, which is not part of this model.
- Database faults: the 500 replies of register, login, getProfile, updateProfile and createWorkflow that only a failing database triggers are not modelled.
- The duplicate-key race in register: the unique index on email is not modelled in register, which relies on its own lookup. UpdateProfile does model it, as `EmailTakenByOther`.
- The order in which `Object.keys` lists the update's keys: only name and email are applied, so the order does not change the result.
- Ties in the newest-first sort: the database leaves their order open; the model keeps them in store order.
- The client's network errors without a response: `error.response` is then undefined, so reading `error.response.data` throws a TypeError inside the thunk's catch block. The thunk then rejects without a payload, the rejected case throws on `action.payload.error`, and `loading` stays true. The model covers only failures that carry a reply, with an optional error field.
- The form's submit handler (`handleSubmit`), toasts, navigation, React rendering and styling beyond the colour classes are user-interface effects.
- Async thunks: each dispatch is one atomic transition; their timing and interleaving are not modelled.
- Routes, App.jsx, the store setup and the Vite config: wiring and configuration with no logic.
