# Cusat-Notice in Dafny

Cusat-Notice is the notice board of a university campus. Its students and faculty members register with a
campus email and confirm it with a six-digit code sent by mail. Faculty members are then approved by an
administrator. Once signed in, faculty members publish notices and events with up to two attachments each,
and anyone may read them. This project models the server's account, authorization and content rules, the
client-side decisions that mirror them, and states and proves what they guarantee.

The server keeps its collections in one in-memory store (`Store.Database`): users of both kinds, faculty
verification requests, notices and events, each a sequence in insertion order, plus the set of stored upload
names. Each request handler is a method on that store. Its `ensures` ties the new store and the reply to a
pure step function on store values (`Store.Db`). The properties the handlers promise are lemmas about those
step functions: single use of codes, overwrite, expiry, rollback, ownership, partition of attachments.
The time, the random code draw, the outcome of a mail, a decoded token and the library's verdicts on emails
and dates are inputs.

Modules follow the program:

- `Accounts`, `VerificationRequests` and `Content` hold the records and their schemas.
- `Departments` holds the department lists.
- `AuthGate` holds the `auth` middleware and `checkRole`.
- `AuthRoutes` holds the account validators and `/me`.
- `AuthController` holds registration, login, email verification, code resend, password reset and password change.
- `AdminRoutes` is the mounted admin router. `AdminController` is the second admin implementation, which no route uses. The two can be compared.
- `NoticeController`, `EventController`, `ContentRoutes`, `Paging`, `Attachments`, `FileUtils` and `ServerConfig` hold the content store and its routes.
- The client side has one module per component: `AdminDashboard`, `CreateNotice`, `EventCalendar`, `ContentDetail`, `Navbar`, `Register` and `ForgotPassword`.
- `Session` holds the authentication context.
- `Wrappers`, `Strings`, `Seqs` and `Http` are shared helpers.

Where a handler as written misbehaves, the model keeps that handler as written. Beside it is the corrected
version the rest of the model uses, and a lemma shows the input that tells the two apart (see "Findings").
Some behaviours of the code differ from what its comments and messages suggest. The model keeps them:

- `NoticeController.BlankTitleIsAServerError`: a title of blanks passes the route's rule but fails the schema, so the reply is 500, not 400.
- `AuthRoutes.Me` and `AuthController.ChangePasswordOutcome`: the handlers' own 404 cannot occur, because the gate has already found the record.
- `AdminController.LoggedInCallersRefused`: the second admin implementation refuses every caller who logged in, because login never issues the role `admin`.

## Model

| member | source | states |
|---|---|---|
| Accounts.NormalizeEmail | server/src/models/User.js:12-17 | the stored and queried email is the trimmed, lower-cased text: never longer than the input and free of upper-case letters |
| Accounts.DomainCheckImpliesAccepted | server/src/models/User.js:18-23 | an email that ends with `cusat.ac.in` before normalisation still passes the schema's suffix validator after trimming and lower-casing |
| Accounts.SuffixSurvivesTrim | server/src/models/User.js:16 | trimming keeps a suffix that starts and ends with a non-space character |
| Accounts.LowerKeepsLowerSuffix | server/src/models/User.js:17 | lower-casing keeps a suffix that holds no upper-case letter |
| Content.NewNotice | server/src/models/Notice.js:4-56 | a new notice has its title trimmed, the type `general` when none is given and both timestamps equal to the save instant; it passes the schema exactly when the trimmed title and the content are non-empty, a given type is one of the three and the department is listed, so a missing type never causes a refusal |
| Content.NewEvent | server/src/models/Event.js:4-64 | a new event has its title trimmed, the type `academic` when none is given and both timestamps equal to the save instant; it passes the schema exactly when the trimmed title, description, start and end times and location are non-empty, the department is listed and a given type is one of the four |
| Store.FindByEmail | server/src/controllers/authController.js:19 | `findOne({email})` finds a record of the requested kind whose email is the normalised query; it finds nothing exactly when no such record exists |
| Store.FindById | server/src/controllers/adminController.js:74-80 | `findById` finds a record of the requested kind with that id; it finds nothing exactly when there is none |
| Store.FindRequest | server/src/controllers/adminController.js:194-196 | a request lookup by id finds that request, or nothing when no request has the id |
| Store.FindNotice | server/src/controllers/noticeController.js:126 | a notice lookup by id finds that notice, or nothing when no notice has the id |
| Store.FindEvent | server/src/controllers/eventController.js:142 | an event lookup by id finds that event, or nothing when no event has the id |
| Store.EmailNamesOne | server/src/models/User.js:15 | under the unique index on `email` two records with the same email are the same record |
| Store.Database.constructor | server/src/models/User.js:5-9 | a new database holds no records and starts its id counter at 0 |
| AuthGate.LookupKind | server/src/middleware/auth.js:27-31 | a token is looked up among students exactly when its role is `student`, and among faculty for any other role |
| AuthGate.Authenticate | server/src/middleware/auth.js:5-62 | no token and a bad token get their 401 messages; every refusal is a 401; a token passes only when the record of its kind and id exists and has a verified email, and, for the faculty role, an approved account; the passed user keeps the token's id and role and takes the record's admin flag |
| AuthGate.AuthenticateAdmits | server/src/middleware/auth.js:27-49 | with unique ids, a decoded token passes exactly when some record admits it, and the admin flag it passes with is that record's |
| AuthGate.TokenAdminFlagIgnored | server/src/middleware/auth.js:49 | the admin flag written in a token never matters: the gate replaces it with the record's |
| AuthGate.AdminRoleSkipsApproval | server/src/middleware/auth.js:29-43 | a token with the role `admin` is looked up among faculty and skips the approval check: an email-verified faculty member still awaiting approval passes |
| AuthGate.Authorize | server/src/middleware/auth.js:65-71 | `checkRole(role)` lets the request through exactly when the gate passes and the role matches or the admin flag is set; otherwise it answers with the gate's 401 or 403 "Access denied" |
| AuthGate.AdminCheckUsesLiveFlag | server/src/middleware/auth.js:49-67 | for a token with a role login issues, `checkRole('admin')` lets the request through exactly when a live record admits the token and has the admin flag |
| AuthRoutes.StudentErrors | server/src/routes/auth.js:9-16 | the student rules pass exactly when the email format holds, the password has at least 6 characters, first name, last name and branch are non-empty, and the year is an integer from 2000 to the year the routes were loaded; at most six messages |
| AuthRoutes.FacultyErrors | server/src/routes/auth.js:18-24 | the faculty rules pass exactly when the email format holds, the password has at least 6 characters, and full name, division and post are non-empty |
| AuthRoutes.LoginErrors | server/src/routes/auth.js:27-30 | the login rules pass exactly when the email format holds and the password is non-empty |
| AuthRoutes.OtpErrors | server/src/routes/auth.js:59-62 | the verify-email rules pass exactly when the email format holds and the code is exactly six characters long |
| AuthRoutes.EmailErrors | server/src/routes/auth.js:64-71 | the resend and forgot-password rules pass exactly when the email format holds |
| AuthRoutes.ResetErrors | server/src/routes/auth.js:73-77 | the reset rules pass exactly when the email format holds, the code has six characters and the new password at least six |
| AuthRoutes.ChangeErrors | server/src/routes/auth.js:79-82 | the change-password rules pass exactly when the current password is non-empty and the new one has at least six characters |
| AuthRoutes.Me | server/src/routes/auth.js:33-56 | a refused token gets the gate's reply and no body; otherwise the reply is 200 with the record of the token's kind and id, without its password, plus the token's role and the record's admin flag; the handler's own 404 is never reached |
| AuthController.IssueOtp | server/src/controllers/authController.js:30-31 | a code is six decimal digits and expires fifteen minutes after it is issued |
| AuthController.FindAccount | server/src/controllers/authController.js:153-161 | the lookup by email finds a record with the normalised email when there is one, and no record exactly when none has it |
| AuthController.FindByEmailOtp | server/src/controllers/authController.js:245-249 | the verify-email query finds a record of the kind with the email whose code matches and expires strictly after now, and no record exactly when none does |
| AuthController.FindByResetOtp | server/src/controllers/authController.js:421-425 | the reset query finds a record of the kind with the email whose reset code matches and has not expired, and no record exactly when none does |
| AuthController.FindVerification | server/src/controllers/authController.js:245-261 | students first, then faculty: some record of either kind holds the live code, or none does |
| AuthController.FindReset | server/src/controllers/authController.js:421-437 | the same search over the password-reset codes |
| AuthController.RegisterStudentRefusals | server/src/controllers/authController.js:11-27 | an invalid form, an email already used by a student and an email outside the domain are refused in that order with a 400, leaving the store as it was |
| AuthController.RegisterStudentCreates | server/src/controllers/authController.js:30-63 | a registration that is saved appends exactly one student record, email not verified and not an administrator, holding the code just issued; a failed mail answers 500 and keeps the record without the code; nothing else changes |
| AuthController.RegisterFacultyRefusals | server/src/controllers/authController.js:74-90 | the faculty refusals, in the same order, leave the store as it was |
| AuthController.RegisterFacultyCreates | server/src/controllers/authController.js:93-134 | a saved faculty registration appends the record (not verified, not approved, not an administrator) and then one request for it; a failed mail clears the code but keeps both |
| AuthController.FacultySaved | server/src/controllers/authController.js:96-116 | a faculty registration answered 201 or with the mail failure has passed every check and stored exactly the new record and then its request, in that order |
| AuthController.RegisterFacultyFilesRequest | server/src/controllers/authController.js:111-116 | the request filed is pending, has no documents, names the new record and is created now, with the registration note |
| AuthController.RegisterStudentCrossKindDuplicate | server/src/controllers/authController.js:19-45 | the duplicate check looks only at students, but emails are unique across both kinds: a student registration with a faculty member's email passes the check and fails at the save with a 500 |
| AuthController.AddUserValid | server/src/controllers/authController.js:45 | saving a record the unique index accepts, under the next id, keeps ids fresh and emails unique |
| AuthController.RegisterStudentValid | server/src/controllers/authController.js:9-68 | student registration keeps the store's invariant |
| AuthController.RegisterFacultyValid | server/src/controllers/authController.js:72-139 | faculty registration keeps the store's invariant |
| AuthController.AddRequestValid | server/src/controllers/authController.js:116 | filing a request for an issued id keeps the store's invariant |
| AuthController.VerifyEmailSucceedsIff | server/src/controllers/authController.js:231-287 | verification answers 200 exactly when the rules pass and some record with the email holds the code with an expiry after now; every failure leaves the store as it was |
| AuthController.VerifyEmailEffect | server/src/controllers/authController.js:265-268 | on success the one record with the email is marked verified and loses its code; every other record, and its reset slot, are untouched |
| AuthController.VerifyEmailSingleUse | server/src/controllers/authController.js:265-268 | a code works once: repeating a successful verification fails |
| AuthController.VerifyEmailValid | server/src/controllers/authController.js:264-284 | verification, as written and as intended, keeps the store's invariant; the intended handler files at most one request |
| AuthController.VerifyWithRequestOnFile | server/src/controllers/authController.js:270-284 | with the intended handler, verifying a faculty record that already has a request succeeds and files no other |
| AuthController.RegisterThenVerifyOneRequest | server/src/controllers/authController.js:108-116 | registering as faculty files one request naming the new record; verifying with the mailed code before it expires, as written or as intended, succeeds and leaves exactly that one |
| AuthController.VerifyEmailAsWrittenFilesNothing | server/src/controllers/authController.js:270-284 | as written the faculty branch never runs: verification leaves the requests as they were, and changes the records and answers exactly as the intended handler does |
| AuthController.VerifyEmailSkipsRequestAsWritten | server/src/controllers/authController.js:270-284 | verifying a faculty record that no request names files one in the intended handler and none as written |
| AuthController.ResendRefusals | server/src/controllers/authController.js:304-317 | resend refuses an unknown email and an account already verified, with their 400 messages, and changes nothing |
| AuthController.ResendOverwrites | server/src/controllers/authController.js:320-345 | after a successful resend, verification with the email succeeds exactly for the new code before it expires; after a failed mail no code works |
| AuthController.ResendKeepsResetSlots | server/src/controllers/authController.js:324-326 | resending the email code leaves every password-reset code as it was |
| AuthController.VerifyKeepsResetSlots | server/src/controllers/authController.js:265-268 | verifying the email leaves every password-reset code as it was |
| AuthController.ForgotKeepsEmailSlots | server/src/controllers/authController.js:378-380 | asking for a reset code leaves every email-verification code as it was |
| AuthController.ResetKeepsEmailSlots | server/src/controllers/authController.js:441-444 | resetting the password leaves every email-verification code as it was |
| AuthController.ForgotPasswordEffect | server/src/controllers/authController.js:363-399 | forgot-password refuses an unknown email and changes nothing; otherwise the account's reset slot holds the new code, or nothing after a failed mail |
| AuthController.ResetPasswordSucceedsIff | server/src/controllers/authController.js:407-446 | a reset answers 200 exactly when the rules pass and some record with the email holds the live reset code; then that record alone gets the new password and loses the code |
| AuthController.ResetPasswordSingleUse | server/src/controllers/authController.js:441-444 | a reset code works once |
| AuthController.ForgotThenReset | server/src/controllers/authController.js:374-444 | the code mailed by forgot-password resets that account's password while it is valid |
| AuthController.ChangePasswordOutcome | server/src/controllers/authController.js:454-497 | once the gate passes, the handler finds the record the gate found, so its 404 cannot occur; the password changes exactly when the current one matches, and nothing else does |
| AuthController.LoginIssuesNoAdminRole | server/src/controllers/authController.js:153-188 | login issues the student or the faculty role, never the administrator role, and copies the admin flag from the record |
| AuthController.LoginChecks | server/src/controllers/authController.js:153-179 | for the one record with the email, an unknown email and a wrong password get the same reply, then an unverified email is refused, then a faculty member awaiting approval |
| AuthController.LoginTokenPassesGate | server/src/controllers/authController.js:182-188 | a token issued by login passes the authentication gate on the same store, with the same admin flag |
| AuthController.AppendUserOn | server/src/controllers/authController.js:45 | the save of a new record appends it to the store's collection and moves the id counter on |
| AuthController.AppendRequestOn | server/src/controllers/authController.js:116 | the save of a new request appends it to the requests |
| AuthController.ClearEmailCodeOn | server/src/controllers/authController.js:59-61 | the code of one record is removed and the record saved again |
| AuthController.RegisterStudentOn | server/src/controllers/authController.js:9-68 | the store ends as the student registration function says and the reply is its reply |
| AuthController.RegisterFacultyOn | server/src/controllers/authController.js:72-139 | the store ends as the faculty registration function says and the reply is its reply |
| AuthController.LoginOn | server/src/controllers/authController.js:143-227 | login leaves the store unchanged and returns what the login function returns |
| AuthController.VerifyEmailOn | server/src/controllers/authController.js:231-290 | the store ends as the intended verify-email says and the reply is its reply |
| AuthController.ResendVerificationOn | server/src/controllers/authController.js:294-349 | the store ends as resend says and the reply is its reply |
| AuthController.ForgotPasswordOn | server/src/controllers/authController.js:353-403 | the store ends as forgot-password says and the reply is its reply |
| AuthController.ResetPasswordOn | server/src/controllers/authController.js:407-450 | the store ends as the reset function says and the reply is its reply |
| AuthController.ChangePasswordOn | server/src/controllers/authController.js:454-502 | the store ends as change-password says and the reply is its reply |
| AdminRoutes.Views | server/routes/api/admin.js:13-14 | each record is sent as its view without the password, one view per record, in order |
| AdminRoutes.MarkApproved | server/routes/api/admin.js:64-68 | the approval update keeps the number of records |
| AdminRoutes.StudentFromFaculty | server/routes/api/admin.js:142-151 | the student record the route builds from a faculty record keeps its id, email, password, email flag and admin flag, has no codes, a trimmed first name without spaces, and, as the route writes it, no branch or year |
| AdminRoutes.FacultyFromStudent | server/routes/api/admin.js:161-169 | the faculty record the route builds from a student record keeps its id, email, password and both flags, has no codes, is not approved and, as the route writes it, has no division or post |
| AdminRoutes.Replace | server/routes/api/admin.js:153-172 | the new record is saved at the end of the collection and the old one removed; every other record keeps its order |
| AdminRoutes.EveryRouteGuarded | server/routes/api/admin.js:11-187 | a request the gate or the admin check stops gets their reply from every route, and nothing changes |
| AdminRoutes.ViewsOfKind | server/routes/api/admin.js:13-14 | the list of one kind holds a view of every record of that kind and of no other |
| AdminRoutes.ListUsersPartition | server/routes/api/admin.js:11-16 | the students and faculty lists together hold every record exactly once, split by kind, in the collection's order |
| AdminRoutes.PlacedStudent | server/src/controllers/adminController.js:99-101 | the student record the corrected route saves keeps the id and email, takes its branch from the division and the current year as year of admission |
| AdminRoutes.PlacedFaculty | server/src/controllers/adminController.js:108-110 | the faculty record the corrected route saves keeps the id and email, takes its division from the branch and the post 'Faculty', and is not yet approved |
| AdminRoutes.PendingRequestsListing | server/routes/api/admin.js:39-45 | the intended listing holds exactly the pending requests, each once, newest first |
| AdminRoutes.PendingRequestsFailAsWritten | server/routes/api/admin.js:39-45 | as written, the listing answers 500 whenever a request is pending, and the empty list, like the intended route, only when none is |
| AdminRoutes.ApproveEffect | server/routes/api/admin.js:55-73 | an unknown request gives 404 and changes nothing; a known one is removed alone and the faculty record it names, if any, is approved; no other record changes |
| AdminRoutes.MarkApprovedEffect | server/routes/api/admin.js:64-68 | the faculty record with the id is approved, every other field and record stays, and a missing record changes nothing |
| AdminRoutes.RejectEffect | server/routes/api/admin.js:83-94 | rejection removes the request alone and leaves every user record as it was |
| AdminRoutes.ResolvedRequestGone | server/routes/api/admin.js:71-92 | with unique request ids, a handled request is gone afterwards and all others remain in order |
| AdminRoutes.ResolveValid | server/routes/api/admin.js:55-99 | approval and rejection keep the store's invariant |
| AdminRoutes.RemoveAtFresh | server/routes/api/admin.js:71-92 | removing one request keeps request ids unique and issued |
| AdminRoutes.ConversionAlwaysFailsAsWritten | server/routes/api/admin.js:140-175 | as written, each conversion saves the new record before deleting the old one, so the unique email index refuses it: the answer is 500 and nothing changes |
| AdminRoutes.ChangeRoleVersionsAgree | server/routes/api/admin.js:111-177 | the route as written and as intended agree on everything but the two conversions |
| AdminRoutes.PromoteEffect | server/routes/api/admin.js:127-137 | promotion sets the admin flag of the record with the id, the student one when both kinds have it, changes nothing else and reports success |
| AdminRoutes.ChangeRoleRefusals | server/routes/api/admin.js:120-177 | an unknown id gives 404; a role other than the known ones, or the kind the record already has, gives 400; neither changes anything |
| AdminRoutes.ConversionEffect | server/routes/api/admin.js:140-175 | a stored conversion replaces the record by the completed record of the other kind (the built one with branch and year of admission, or division and post, filled in), under the same id and email and passing the schema, and changes nothing else |
| AdminRoutes.ConversionSucceedsIff | server/routes/api/admin.js:140-175 | under the unique email index, a corrected conversion succeeds exactly when the record to be saved passes the schema; a refused one answers 500 and changes nothing |
| AdminRoutes.ReplaceKeepsIndexes | server/routes/api/admin.js:153-172 | replacing a record by one with the same id and email keeps ids fresh and emails unique |
| AdminRoutes.ChangeRoleValid | server/routes/api/admin.js:104-182 | role changes keep the store's invariant, and keep every record passing the schema when all did |
| AdminRoutes.FacultyRoundTrip | server/routes/api/admin.js:144-163 | a faculty member whose full name is two trimmed names joined by a space, the first without one, converts to a student and back to the same full name and division |
| AdminRoutes.StudentRoundTrip | server/routes/api/admin.js:144-163 | a student with trimmed non-empty names, the first without a space, converts to faculty and back to the same names and branch |
| AdminRoutes.OneWordNameNotConverted | server/routes/api/admin.js:144-151 | a faculty member with a one-word full name cannot become a student: the last name would be empty, which the schema refuses, so the answer is 500 and nothing changes |
| AdminRoutes.StudentConversionAccepted | server/routes/api/admin.js:159-175 | a student record that passes the schema, with its names trimmed, is converted to faculty |
| AdminRoutes.DeleteUserEffect | server/routes/api/admin.js:187-205 | an unknown id gives 404; deleting a student removes that record only; deleting a faculty member removes the record and every request naming it, and keeps the others |
| AdminRoutes.DeleteUserRemovesId | server/routes/api/admin.js:197-203 | under unique ids, no record with the id is left after a successful delete |
| AdminRoutes.RemoveUserKeepsIndexes | server/routes/api/admin.js:198-200 | removing one record keeps ids unique and issued, and emails unique |
| AdminRoutes.DeleteUserValid | server/routes/api/admin.js:187-210 | deletion keeps the store's invariant |
| AdminRoutes.RemoveRequestOn | server/routes/api/admin.js:71-92 | the request at the position leaves the collection and nothing else changes |
| AdminRoutes.RequestsNotForStep | server/routes/api/admin.js:202 | one more request examined stays exactly when it names another record |
| AdminRoutes.KeepNotFor | server/routes/api/admin.js:202 | the scan keeps exactly the requests naming another record, in order |
| AdminRoutes.DeleteRequestsForOn | server/routes/api/admin.js:202 | the requests naming the record leave the collection and the others stay in order |
| AdminRoutes.ApproveOn | server/routes/api/admin.js:55-78 | the store ends as the approval function says and the reply is its reply |
| AdminRoutes.RejectOn | server/routes/api/admin.js:83-99 | the store ends as the rejection function says and the reply is its reply |
| AdminRoutes.ReplaceOn | server/routes/api/admin.js:153-172 | the users end as the replacement function says |
| AdminRoutes.ConvertOn | server/routes/api/admin.js:140-175 | the store ends as the corrected conversion says: unchanged with a 500 when the completed record cannot be saved, else the record replaced |
| AdminRoutes.ChangeRoleOn | server/routes/api/admin.js:104-182 | the store ends as the intended role change says and the reply is its reply |
| AdminRoutes.DeleteUserOn | server/routes/api/admin.js:187-210 | the store ends as the deletion function says and the reply is its reply |
| AdminController.Locate | server/src/controllers/adminController.js:74-85 | the lookup by id finds a record with the id, the student one when both kinds hold it, and nothing exactly when no record has it |
| AdminController.ToStudent | server/src/controllers/adminController.js:95-103 | the student document built from a faculty record gets a new id, keeps email, password and email flag, has a trimmed first name without spaces, takes its branch from the division and the current year as year of admission, and loses the admin flag |
| AdminController.ToFaculty | server/src/controllers/adminController.js:105-113 | the faculty document built from a student record gets a new id, keeps email, password and email flag, is approved at once with post 'Faculty' and its division taken from the branch, and loses the admin flag |
| AdminController.Converted | server/src/controllers/adminController.js:93-113 | the converted document is of the other kind, under the next id, with the same email |
| AdminController.EveryHandlerNeedsAdminRole | server/src/controllers/adminController.js:9-229 | a caller whose role is not 'admin' gets 403 from every handler, and nothing changes |
| AdminController.LoggedInCallersRefused | server/src/controllers/adminController.js:9-11 | login never issues the role 'admin' and the gate keeps the token's role, so every caller who logged in is refused by every handler, administrator or not |
| AdminController.GetUserByIdResult | server/src/controllers/adminController.js:34-48 | the answer is the record with the id and the name of its kind, the student one when both kinds hold it, or 404 when none does |
| AdminController.VerificationRequestsListing | server/src/controllers/adminController.js:175-179 | the intended listing holds every request, of any status, each once, newest first |
| AdminController.RequestHandlersFailAsWritten | server/src/controllers/adminController.js:168-255 | as written, the listing answers 500 as soon as any request exists, and approval and rejection answer 500 and change nothing for every request found, where the corrected handlers answer 200 whenever the faculty record is there; only the empty listing and an unknown id get their intended answers |
| AdminController.UpdateUserRoleRefusals | server/src/controllers/adminController.js:59-90 | an unknown id gives 404 and the role the record already has gives 400, whichever order the save and the removal run in; neither changes anything |
| AdminController.ConversionAlwaysFailsAsWritten | server/src/controllers/adminController.js:121-123 | as written, the new document is saved while the old record still holds its email, so the unique index refuses it: no conversion is ever stored and the answer is not a success |
| AdminController.UpdateUserRoleVersionsAgree | server/src/controllers/adminController.js:114-119 | outside the two conversions the handler as written and the corrected one agree |
| AdminController.ConversionSucceedsIff | server/src/controllers/adminController.js:93-125 | with unique emails, a corrected conversion succeeds exactly when the new document passes the schema |
| AdminController.ConversionEffect | server/src/controllers/adminController.js:121-125 | a stored conversion removes the old record, appends the new one under the next id without the admin flag, and leaves the requests naming the old id |
| AdminController.ToFacultySchemaValid | server/src/controllers/adminController.js:105-113 | a student record that passes the schema, with its names trimmed, converts to a faculty document that passes it too |
| AdminController.ToStudentNeedsBranch | server/src/controllers/adminController.js:95-103 | a faculty member converts to a valid student only when the division is a department, not an administrative unit, and the full name has more than one word |
| AdminController.ConvertValid | server/src/controllers/adminController.js:121-123 | a stored conversion keeps ids unique and issued and emails unique |
| AdminController.UpdateUserRoleValid | server/src/controllers/adminController.js:59-133 | the corrected role change keeps the store's invariant |
| AdminController.DeleteUserEffect | server/src/controllers/adminController.js:143-157 | an unknown id gives 404; otherwise the record with the id leaves and nothing else changes, its requests included |
| AdminController.DeleteVariantsCompared | server/src/controllers/adminController.js:155 | this handler and the mounted route remove the same faculty record; only the route removes the requests naming it |
| AdminController.DeleteUserValid | server/src/controllers/adminController.js:136-165 | deletion keeps the store's invariant |
| AdminController.ApproveEffect | server/src/controllers/adminController.js:194-213 | approval answers 404 for a missing request and for a missing faculty record; otherwise it approves that record and removes the request |
| AdminController.ApproveRejectVersionsAgree | server/src/controllers/adminController.js:194-247 | with the reference naming the registered faculty model and the faculty record there, the handlers agree with the corrected ones |
| AdminController.OrphanedRequestStuckAsWritten | server/src/controllers/adminController.js:194-239 | even with the reference's model name corrected, a request whose faculty record is gone can be neither approved nor rejected: both answer 500 and it stays; the corrected handlers answer 404 for approval and remove it on rejection |
| AdminController.DeletedFacultyLeavesStuckRequest | server/src/controllers/adminController.js:155-202 | such requests arise: deleting a faculty member here leaves their request behind, stuck even with the model name corrected |
| AdminController.RejectEffect | server/src/controllers/adminController.js:238-245 | rejection removes the faculty record with the request, where the mounted route keeps every record |
| AdminController.ResolveValid | server/src/controllers/adminController.js:187-255 | approval and rejection keep the store's invariant |
| AdminController.UpdateUserRoleOn | server/src/controllers/adminController.js:59-133 | the store ends as the corrected role change says and the reply is its reply |
| AdminController.ConvertOn | server/src/controllers/adminController.js:121-125 | the store ends as a conversion with the removal first says |
| AdminController.DeleteUserOn | server/src/controllers/adminController.js:136-165 | the store ends as the deletion function says and the reply is its reply |
| AdminController.ApproveOn | server/src/controllers/adminController.js:187-221 | the store ends as the corrected approval says and the reply is its reply |
| AdminController.RejectOn | server/src/controllers/adminController.js:224-255 | the store ends as the corrected rejection says and the reply is its reply |
| Seqs.Find | server/src/controllers/authController.js:19 | `findOne` returns the first element that matches, and nothing exactly when no element matches |
| Seqs.Filter | server/src/controllers/noticeController.js:17 | `find(query)` keeps exactly the matching elements, in store order |
| Seqs.SortBy | server/src/controllers/noticeController.js:18 | the sorted result is ordered by the key and is a permutation of the input |
| Seqs.Window | server/src/controllers/noticeController.js:19-20 | `skip(n).limit(l)` is the contiguous slice starting at `n`, of at most `l` elements, empty past the end, unbounded for a limit of 0 |
| Seqs.CeilDiv | server/src/controllers/noticeController.js:27 | `Math.ceil(a / b)` is the least count of `b`-sized pages that holds `a` items |
| Seqs.RemoveAt | server/routes/api/admin.js:154 | removing one record keeps the others in order and shortens the collection by one |
| Paging.PaginateShape | server/src/controllers/noticeController.js:9-28 | page `p` of size `l` holds the matches from index `(p - 1) * l` on, at most `l` of them, and the page count covers every match |
| Paging.OnPage | server/src/controllers/noticeController.js:19-20 | the `k`-th item of a page is the match at index `(p - 1) * l + k` |
| Paging.PageKeeps | server/src/controllers/noticeController.js:17-20 | a page keeps any property every match has and the order the matches are sorted in |
| Paging.PaginateDefaults | server/src/controllers/noticeController.js:9 | without `page` and `limit` the first ten matches are sent as page 1, with `ceil(total / 10)` pages |
| Paging.EveryMatchOnItsPage | server/src/controllers/noticeController.js:19-27 | every match appears on exactly one page, the one its index determines, at the position its index determines |
| NoticeController.ListNoticesListing | server/src/controllers/noticeController.js:7-29 | a listed page holds only stored notices of the requested type, newest first, and the page count is taken over every notice of that type |
| NoticeController.SortedMatches | server/src/controllers/noticeController.js:13-18 | the sorted matches are exactly the stored notices of the type, newest first |
| NoticeController.GetNotice | server/src/controllers/noticeController.js:37-46 | the notice with the requested id is sent when it exists, otherwise 404 "Notice not found" |
| NoticeController.CreateNoticeOutcomes | server/src/controllers/noticeController.js:57-103 | creation succeeds exactly for a form that passes the validators, from a faculty or admin caller, with a title not all white space and a listed department; validation comes before the role check; a refusal changes nothing |
| NoticeController.CreateNoticeEffect | server/src/controllers/noticeController.js:78-100 | a created notice is appended under the next id, with the caller as author, the form's fields (title trimmed), one attachment per upload in upload order with its original name and public URL, and the save instant as both timestamps |
| NoticeController.StudentsCannotPost | server/src/controllers/noticeController.js:69-72 | a student token can never publish a notice |
| NoticeController.BlankTitleIsAServerError | server/src/controllers/noticeController.js:100-106 | a title of blanks passes the validator but the schema trims it to nothing, so the save fails with 500 and nothing is stored |
| NoticeController.CreateNoticeValid | server/src/controllers/noticeController.js:89-100 | creation keeps the store invariant: ids unique and below the counter |
| NoticeController.CreateNoticeOn | server/src/controllers/noticeController.js:57-103 | the handler with its attachment loop leaves the store and reply that `CreateNotice` describes |
| NoticeController.AppendNoticeOn | server/src/controllers/noticeController.js:100 | `save()` appends the notice and advances the counter by the ids it used |
| NoticeController.UpdateNoticeRefusals | server/src/controllers/noticeController.js:113-135 | the checks come in the order validation, role, existence, ownership, each with its reply, and each refusal changes neither the store nor the uploads directory |
| NoticeController.UpdateNoticeEffect | server/src/controllers/noticeController.js:168-176 | a saved update keeps the notice's id, author, creation instant and place, sets the four form fields and a new `updatedAt`, and touches no other record |
| NoticeController.UpdateReconciles | server/src/controllers/noticeController.js:138-166 | with uploads, the kept stored attachments (those listed in `keepAttachments`) come first in their order, then the new ones; every other stored attachment goes to `deleteFiles`, and those deletions stand even when the save fails |
| NoticeController.NoticeIdsUnique | server/src/controllers/noticeController.js:126 | with unique ids the lookup finds the one notice with that id |
| NoticeController.UpdateWithoutFiles | server/src/controllers/noticeController.js:138 | without uploads `keepAttachments` is ignored: the list and the uploads directory are unchanged |
| NoticeController.UploadsWithoutKeepReplaceAll | server/src/controllers/noticeController.js:146-165 | uploads sent without `keepAttachments` replace the whole list and delete every old file |
| NoticeController.OthersNoticesNeedAdminToken | server/src/controllers/noticeController.js:133-199 | a caller whose token is not admin can neither update nor delete a notice by another author |
| NoticeController.LoginTokensOwnOnly | server/src/controllers/noticeController.js:197-199 | a caller holding a token from login deletes a notice only if they wrote it, since login never issues the admin role |
| NoticeController.UpdateNoticeValid | server/src/controllers/noticeController.js:169-174 | an update keeps the store invariant |
| NoticeController.RevisedKeepsIds | server/src/controllers/noticeController.js:174 | replacing a notice by one with the same id keeps the ids distinct and below the counter |
| NoticeController.UpdateNoticeOn | server/src/controllers/noticeController.js:111-184 | the handler leaves the store, the uploads directory and the reply that `UpdateNotice` describes |
| NoticeController.ReviseOn | server/src/controllers/noticeController.js:138-176 | the reconciliation and the save leave what `Revise` describes |
| NoticeController.ReconcileOn | server/src/controllers/noticeController.js:140-165 | the file step returns the new attachment list and leaves the uploads directory that the reconciliation functions describe |
| NoticeController.ReplaceNoticeOn | server/src/controllers/noticeController.js:174 | `save()` of a changed notice replaces it in place and advances the counter by the ids it used |
| NoticeController.DeleteNoticeEffect | server/src/controllers/noticeController.js:187-207 | a deletion by the author or an admin token removes that one notice and every file its attachments name, except those whose removal fails, and nothing else; a refusal changes nothing |
| NoticeController.DeleteNoticeValid | server/src/controllers/noticeController.js:205 | a deletion keeps the store invariant |
| NoticeController.RemovedKeepsIds | server/src/controllers/noticeController.js:205 | removing a notice keeps the remaining ids distinct and below the counter |
| NoticeController.DeleteNoticeOn | server/src/controllers/noticeController.js:187-215 | the handler leaves the store, the uploads directory and the reply that `DeleteNotice` describes |
| EventController.SortedEvents | server/src/controllers/eventController.js:13-27 | the sorted matches are exactly the stored events that meet the query, earliest first |
| EventController.ListEventsListing | server/src/controllers/eventController.js:8-38 | a listed page holds only stored events that meet the type filter and, when both bounds are given, fall within the inclusive date range, earliest first; the page count is taken over every matching event |
| EventController.ListEventsComplete | server/src/controllers/eventController.js:26-36 | every stored event that meets the query is counted in the total, whichever page shows it |
| EventController.OneBoundIgnored | server/src/controllers/eventController.js:19 | a single date bound filters nothing: the listing equals the one with no bounds |
| EventController.GetEvent | server/src/controllers/eventController.js:46-59 | the event with the requested id is sent when it exists, otherwise 404 "Event not found" |
| EventController.CreateEventOutcomes | server/src/controllers/eventController.js:70-116 | creation succeeds exactly for a form that passes the validators, from a faculty or admin caller, with a title not all white space and a listed department; validation comes before the role check; a refusal changes nothing |
| EventController.ClockTimeNotEmpty | server/src/routes/events.js:22-23 | a time the `HH:MM` pattern accepts is never empty, so the schema's `required` on the times holds |
| EventController.CreateEventEffect | server/src/controllers/eventController.js:89-113 | a created event is appended under the next id, with the caller as organizer, the form's fields (title trimmed), one attachment per upload in upload order, and the save instant as both timestamps |
| EventController.CreateEventValid | server/src/controllers/eventController.js:100-113 | creation keeps the store invariant |
| EventController.CreateEventOn | server/src/controllers/eventController.js:70-121 | the handler with its attachment loop leaves the store and reply that `CreateEvent` describes |
| EventController.AppendEventOn | server/src/controllers/eventController.js:113 | `save()` appends the event and advances the counter by the ids it used |
| EventController.UpdateEventRefusals | server/src/controllers/eventController.js:129-149 | the checks come in the order validation, role, existence, ownership, each with its reply; a refusal changes nothing |
| EventController.UpdateEventEffect | server/src/controllers/eventController.js:182-194 | a saved update keeps the event's id, organizer, creation instant and place, overwrites all eight form fields, sets `updatedAt`, and touches no other record |
| EventController.UpdateEventAttachments | server/src/controllers/eventController.js:152-180 | with uploads, the listed stored attachments are kept and followed by the new ones, and the others go to `deleteFiles` whether or not the save succeeds; without uploads the list and the directory are unchanged |
| EventController.EventIdsUnique | server/src/controllers/eventController.js:142 | a stored id is found, and with unique ids the lookup finds exactly that event |
| EventController.UpdateEventValid | server/src/controllers/eventController.js:182-191 | an update keeps the store invariant |
| EventController.RescheduledKeepsIds | server/src/controllers/eventController.js:191 | replacing an event by one with the same id keeps the ids distinct and below the counter |
| EventController.UpdateEventOn | server/src/controllers/eventController.js:124-199 | the handler leaves the store, the uploads directory and the reply that `UpdateEvent` describes |
| EventController.RescheduleOn | server/src/controllers/eventController.js:152-194 | the reconciliation and the save leave what the authorised part of `UpdateEvent` describes |
| EventController.ReplaceEventOn | server/src/controllers/eventController.js:191 | `save()` of a changed event replaces it in place and advances the counter by the ids it used |
| EventController.DeleteEventEffect | server/src/controllers/eventController.js:202-219 | a deletion by the organizer or an admin token removes that one event and the files its attachments name, except those whose removal fails, and nothing else; a refusal changes nothing |
| EventController.DeleteEventValid | server/src/controllers/eventController.js:217 | a deletion keeps the store invariant |
| EventController.OthersEventsNeedAdminToken | server/src/controllers/eventController.js:147-211 | a caller whose token is not admin can change or delete only the events it organizes |
| EventController.DeleteEventOn | server/src/controllers/eventController.js:202-227 | the handler leaves the store, the uploads directory and the reply that `DeleteEvent` describes |
| ContentRoutes.RouteTable | server/src/routes/notices.js:9-41 | reading is public and every change passes the token gate first; only creation and update take files and run validators; notices take 2 files on creation and 5 on update, events 2 on both (server/src/routes/events.js:9-49) |
| ContentRoutes.NoticeErrors | server/src/routes/notices.js:18-23 | the notice rules pass exactly when title, content and department are non-empty and the type is one of `general`, `academic`, `event` |
| ContentRoutes.EventErrors | server/src/routes/events.js:18-27 | the event rules pass exactly when title, description, location and department are non-empty, the date is ISO 8601, both times match the clock pattern and the type is one of the four event types |
| ContentRoutes.ClockValue | server/src/routes/events.js:22-23 | a time the pattern accepts names an hour below 24 and a minute below 60 |
| ContentRoutes.ClockAccepted | server/src/routes/events.js:22-23 | every time of day written as `HH:MM` is accepted and reads back as that time |
| ContentRoutes.ShortHourAccepted | server/src/routes/events.js:22-23 | an hour below ten may be written with one digit |
| ContentRoutes.ClockExamples | server/src/routes/events.js:22 | `9:05`, `09:05`, `00:00` and `23:59` are accepted; `24:00`, `12:60`, `9:5` and `123:00` are refused |
| Attachments.Uploaded | server/src/controllers/noticeController.js:78-87 | one attachment per upload, in upload order, each with the original name and the public URL of its stored copy |
| Attachments.BuildAttachments | server/src/controllers/noticeController.js:80-85 | the push loop builds exactly the list `Uploaded` describes |
| Attachments.KeepList | server/src/controllers/noticeController.js:146-150 | an array is taken as it is, a single value becomes a one-element list, and an absent value the empty list |
| Attachments.KeptDroppedPartition | server/src/controllers/noticeController.js:153-162 | the kept and the dropped attachments partition the stored list: their lengths add up, each stored attachment lands in exactly one, and both keep the stored order |
| Attachments.KeepAll | server/src/controllers/noticeController.js:153-162 | keeping every stored id keeps the whole list and drops nothing |
| Attachments.KeepNothing | server/src/controllers/noticeController.js:153-162 | keeping nothing drops the whole list |
| FileUtils.Basename | server/src/utils/fileUtils.js:16-19 | the stored name is the last `/`-separated segment of the URL's path, the path ending at the first `?` or `#`; it holds none of those characters |
| FileUtils.Names | server/src/utils/fileUtils.js:13-19 | the names a list of attachments points to are the basenames of their URLs |
| FileUtils.Uploads.constructor | server/src/utils/fileUtils.js:11 | the uploads directory starts with the given files |
| FileUtils.Uploads.DeleteFiles | server/src/utils/fileUtils.js:6-30 | the loop removes every named file that exists and whose removal does not fail; a failure is caught and the loop goes on |
| FileUtils.NamesConcat | server/src/utils/fileUtils.js:13-19 | the names of two lists of attachments put together are the names of each list |
| FileUtils.NamesStep | server/src/utils/fileUtils.js:13 | the names of a prefix grow by one basename per attachment |
| FileUtils.DeleteStep | server/src/utils/fileUtils.js:21-26 | one more name handled: removed when present and its removal does not fail, otherwise the directory is unchanged |
| FileUtils.DeleteOnlyNamed | server/src/utils/fileUtils.js:13-29 | only named files go, and a named file stays only when its removal failed |
| FileUtils.EmptyListNoEffect | server/src/utils/fileUtils.js:7-9 | an empty list leaves the directory unchanged |
| FileUtils.BasenameOfUploadUrl | server/src/utils/fileUtils.js:16-19 | the URL built for a stored upload leads back to its name, so `deleteFiles` finds the copy the handlers stored, when the base URL holds no `?` or `#` and the name no `/`, `?` or `#` |
| FileUtils.BeforeAbsent | server/src/utils/fileUtils.js:17-18 | a path without `?` or `#` is kept whole |
| FileUtils.LastSegmentAfter | server/src/utils/fileUtils.js:19 | the last segment after a separator is the text that follows it, when that text holds no separator |
| ServerConfig.FullUrlShape | server/src/config/server.js:10-14 | every URL starts with the base URL and a slash, followed by the path less one leading slash if it had one |
| ServerConfig.LeadingSlashIgnored | server/src/config/server.js:12 | a leading slash has no effect, unless the rest starts with another one |
| ServerConfig.OnlyOneSlashStripped | server/src/config/server.js:12 | only one slash is stripped: a doubled slash stays as an empty segment |
| ServerConfig.Defaults | server/src/config/server.js:4-7 | with no environment set, the port is 5000 and uploads are served from `http://localhost:5000` |
| AdminDashboard.MatchesAny | client/src/components/admin/AdminDashboard.js:168-173 | a row matches exactly when one of the listed fields it has contains the term, case aside |
| AdminDashboard.Search | client/src/components/admin/AdminDashboard.js:165-206 | an empty term shows the whole list; any other term shows, in their original order, exactly the rows one of whose listed fields contains it |
| AdminDashboard.MatchesAgree | client/src/components/admin/AdminDashboard.js:168-173 | on a row that has every listed field, the test as written does not throw and agrees with the intended one |
| AdminDashboard.SearchAgrees | client/src/components/admin/AdminDashboard.js:165-206 | on lists whose rows have every listed field, the search as written is the intended search |
| AdminDashboard.WithRole | client/src/components/admin/AdminDashboard.js:213-288 | the copy with a role keeps the id, the admin flag and every other field, and has the new role |
| AdminDashboard.Without | client/src/components/admin/AdminDashboard.js:283-356 | filtering out an id keeps exactly the rows with another id, in their order |
| AdminDashboard.SetAdmin | client/src/components/admin/AdminDashboard.js:292-300 | flagging keeps the length, ids and fields; the first row with the id becomes an administrator, the others stay, and no row with the id changes nothing |
| AdminDashboard.MoveToFaculty | client/src/components/admin/AdminDashboard.js:281-284 | a student moved to faculty leaves the students list and is appended to faculty with the role 'faculty' |
| AdminDashboard.MoveToStudent | client/src/components/admin/AdminDashboard.js:285-288 | a faculty member moved to students leaves the faculty list and is appended to students with the role 'student' |
| AdminDashboard.PromoteInPlace | client/src/components/admin/AdminDashboard.js:289-301 | promotion flags the row in the selected user's own list only: both lengths stay and the other list is untouched |
| AdminDashboard.OtherRoleChangesKeepLists | client/src/components/admin/AdminDashboard.js:281-302 | any other combination, a role kept or an unknown new role, leaves both lists as they were |
| AdminDashboard.UserDeleted | client/src/components/admin/AdminDashboard.js:329-336 | a deleted student leaves the students list, any other role the faculty list, and the other list stays |
| AdminDashboard.MovedStudentBreaksFacultySearch | client/src/components/admin/AdminDashboard.js:179-184 | a student moved to faculty locally has no full name, so the faculty search as written throws on it while the intended search finds it by email |
| AdminDashboard.Shown | client/src/components/admin/AdminDashboard.js:485-862 | with no search term the first tab shows the whole students list |
| AdminDashboard.DeleteEndpoint | client/src/components/admin/AdminDashboard.js:236-238 | a notice is deleted through the notices endpoint, anything else through the events endpoint |
| AdminDashboard.Dashboard.constructor | client/src/components/admin/AdminDashboard.js:42-59 | the dashboard opens on the first tab with empty lists, no dialog and page 1 |
| AdminDashboard.Dashboard.TabChange | client/src/components/admin/AdminDashboard.js:147-151 | a new tab starts with no search term on page 1, and nothing else changes |
| AdminDashboard.Dashboard.OpenRoleDialog | client/src/components/admin/AdminDashboard.js:212-216 | the selected user carries the role of the list it was picked from, which is also the proposed role, and the dialog opens |
| AdminDashboard.Dashboard.UpdateRole | client/src/components/admin/AdminDashboard.js:263-314 | nothing without a selected user and a role; after an accepted change the lists are updated locally and the dialog closes; a refused one only sets the error |
| AdminDashboard.Dashboard.DeleteUser | client/src/components/admin/AdminDashboard.js:316-344 | nothing without confirmation; a deleted user leaves the list of their role; a failure only sets the error |
| AdminDashboard.Dashboard.VerificationAction | client/src/components/admin/AdminDashboard.js:346-373 | an accepted action removes the request; an approval then reloads the user lists, and a failed reload reports the action as failed though the request is gone |
| AdminDashboard.Dashboard.DeleteClick | client/src/components/admin/AdminDashboard.js:218-221 | the item is remembered and the dialog opens |
| AdminDashboard.Dashboard.DeleteCancel | client/src/components/admin/AdminDashboard.js:223-227 | the dialog closes and the item and error are forgotten |
| AdminDashboard.Dashboard.DeleteConfirm | client/src/components/admin/AdminDashboard.js:229-261 | nothing without an id and a kind; a deleted notice or event leaves its list and the dialog closes; a failure keeps the dialog open with an error |
| AdminDashboard.TabChangeShowsAll | client/src/components/admin/AdminDashboard.js:147-206 | after a tab change the tab's whole list is shown again |
| CreateNotice.OversizedNames | client/src/components/notices/CreateNotice.js:65-66 | the names of the oversized files are no more than the files, and there are none exactly when no file exceeds 5 MB |
| CreateNotice.Admit | client/src/components/notices/CreateNotice.js:56-73 | a batch that would take the attachments past two is refused first; otherwise it is admitted exactly when no file exceeds 5 MB, and a refused batch names the oversized files |
| CreateNotice.DropIndexEffect | client/src/components/notices/CreateNotice.js:76-80 | removing index i takes out exactly that element; an index outside the list changes nothing |
| CreateNotice.PickKeepsOk | client/src/components/notices/CreateNotice.js:56-73 | picking files keeps at most two attachments under the size limit; an admitted batch is appended whole and a refused one changes nothing |
| CreateNotice.RemoveKeepsOk | client/src/components/notices/CreateNotice.js:76-80 | removing an attachment keeps the attachments admissible |
| CreateNotice.CapMatchesRoute | client/src/components/notices/CreateNotice.js:59 | the composer's cap of two files is the create route's upload cap (server/src/routes/notices.js line 17) |
| CreateNotice.MimeIconCases | client/src/components/notices/CreateNotice.js:82-93 | any image type shows the image icon, PDF the PDF icon, any other type naming word or document the document icon |
| CreateNotice.Payload | client/src/components/notices/CreateNotice.js:101-110 | the body holds four text fields followed by one attachments part per file, in order |
| CreateNotice.BuildPayload | client/src/components/notices/CreateNotice.js:101-110 | the body built field by field and then file by file is the specified body |
| CreateNotice.PayloadFields | client/src/components/notices/CreateNotice.js:101-110 | the body carries the draft's title, content, type and department, as many files as are attached, and neither an audience nor an expiry date |
| CreateNotice.DefaultsPassValidation | client/src/components/notices/CreateNotice.js:32-39 | with the default type and department, the create route's rules pass exactly when the title and the content are non-empty |
| CreateNotice.ErrorText | client/src/components/notices/CreateNotice.js:139-143 | the error shown is the server's message, else its errors as JSON, else a line starting with `Error ` |
| CreateNotice.Composer.constructor | client/src/components/notices/CreateNotice.js:32-43 | the composer starts with the default draft, no attachments, no error and no success |
| CreateNotice.Composer.FileChange | client/src/components/notices/CreateNotice.js:56-74 | an admitted batch is appended; a refused one changes nothing; the verdict is the admission's |
| CreateNotice.Composer.RemoveAttachment | client/src/components/notices/CreateNotice.js:76-80 | the attachment at the index leaves and nothing else changes |
| CreateNotice.Composer.Submit | client/src/components/notices/CreateNotice.js:95-147 | the specified body is posted; on success the form and attachments are reset; on failure the error text is shown and everything else is kept |
| EventCalendar.LocalMidnight | client/src/components/events/EventCalendar.js:44-81 | local midnight of a day falls on that local day |
| EventCalendar.Weekday | client/src/components/events/EventCalendar.js:86 | the weekday of a day is one of the seven |
| EventCalendar.CalendarDays | client/src/components/events/EventCalendar.js:76-101 | the grid holds one blank cell per weekday before the 1st, then one cell per day of the month in order |
| EventCalendar.DayInItsCell | client/src/components/events/EventCalendar.js:86-98 | day i of the month sits in the cell numbered by the 1st's weekday plus i - 1, and lies within the month |
| EventCalendar.EventsForDate | client/src/components/events/EventCalendar.js:117-128 | a blank cell gets nothing; a day gets exactly the events whose local date it is, in their order |
| EventCalendar.IsToday | client/src/components/events/EventCalendar.js:148-157 | a cell is today exactly when it is a day and that day is the local date of now |
| EventCalendar.IsSelected | client/src/components/events/EventCalendar.js:159-167 | a cell is selected exactly when it is a day equal to the selected day |
| EventCalendar.ChipLabel | client/src/components/events/EventCalendar.js:254-272 | a title of up to ten characters is shown whole; a longer one as its first ten characters followed by "..." |
| EventCalendar.TitleLabels | client/src/components/events/EventCalendar.js:254-272 | one chip label per event, each the event's title label |
| EventCalendar.DayChipsShape | client/src/components/events/EventCalendar.js:254-272 | a day without events shows no chip; one with one or two shows a title chip per event of at most thirteen characters; a busier day shows one count chip ending in " events" |
| EventCalendar.TypeParam | client/src/components/events/EventCalendar.js:52-54 | the filter 'all' sends no type; any other filter sends itself |
| EventCalendar.MidnightUtcDay | client/src/components/events/EventCalendar.js:44-49 | local midnight cut to its UTC date is the day before in a zone east of UTC, and the same day otherwise |
| EventCalendar.LastDayMissedAsWritten | client/src/components/events/EventCalendar.js:44-49 | as written, an event on the month's last local day matches the query only in UTC and only exactly at midnight |
| EventCalendar.IstLastDayMissedAsWritten | client/src/components/events/EventCalendar.js:44-49 | an event at 10:00 on 30 April 2024 in India (UTC+05:30) is left off April's calendar |
| EventCalendar.FetchQueryExact | client/src/components/events/EventCalendar.js:44-54 | the corrected query takes an event exactly when its type passes the filter and its local date lies in the month |
| EventCalendar.AtMostTenAsWritten | client/src/components/events/EventCalendar.js:47-56 | as written no limit is sent, so the month receives only the first ten matching events from the listing |
| EventCalendar.FetchShowsAll | client/src/components/events/EventCalendar.js:47-63 | the corrected query receives every matching event, earliest first |
| EventCalendar.Calendar.constructor | client/src/components/events/EventCalendar.js:27-33 | the calendar opens on the given month with every type shown, today selected and no events or error |
| EventCalendar.Calendar.Load | client/src/components/events/EventCalendar.js:38-74 | the events become the listing's answer to the corrected query, or stay with the error shown when the request fails; the grid is rebuilt; the filter, month and selection stay |
| EventCalendar.Calendar.TypeChange | client/src/components/events/EventCalendar.js:103-105 | only the filter changes |
| EventCalendar.Calendar.MonthChange | client/src/components/events/EventCalendar.js:107-109 | only the month changes |
| EventCalendar.Calendar.DateClick | client/src/components/events/EventCalendar.js:111-115 | a day becomes the selection; a blank cell changes nothing |
| Session.RoleName | client/src/contexts/AuthContext.js:26-27 | the three roles have three distinct names, 'admin', 'faculty' and 'student' |
| Session.Received | client/src/contexts/AuthContext.js:26-28 | the user the client keeps from a profile body has the record's `_id` but no `id`, the body's role and admin flag, and a first name exactly for a student and a full name exactly for faculty |
| Session.ReceivedDescribesToken | server/src/routes/auth.js:33-56 | a session the profile endpoint admits describes the token's own record and role |
| Session.TokenOf | client/src/contexts/AuthContext.js:10 | an empty stored token counts as none; any other stored token is used |
| Session.InitialCoherent | client/src/contexts/AuthContext.js:7-10 | the provider starts coherent, rendering only its placeholder |
| Session.StepsKeepCoherent | client/src/contexts/AuthContext.js:19-78 | checking, login and logout keep the provider coherent: authenticated exactly with a user, and then sending its own stored token |
| Session.CheckAuthEndsLoading | client/src/contexts/AuthContext.js:19-38 | the check always ends loading; without a token it changes nothing else; a failed profile fetch clears the stored token, the header and the user |
| Session.LoginStoresToken | client/src/contexts/AuthContext.js:40-57 | after a successful login the new token is stored, sent and held, with the fetched user |
| Session.LogoutForgets | client/src/contexts/AuthContext.js:72-78 | after logout nothing of the session is left, whatever came before, and a second logout changes nothing |
| Session.Provider.constructor | client/src/contexts/AuthContext.js:7-10 | the provider starts with no user, loading, and the stored token if it is not empty |
| Session.Provider.RunCheckAuth | client/src/contexts/AuthContext.js:12-38 | the provider's state becomes what the check specifies |
| Session.Provider.RunLogin | client/src/contexts/AuthContext.js:40-61 | the provider's state becomes what login specifies, and the call succeeds exactly when both requests do |
| Session.Provider.RunLogout | client/src/contexts/AuthContext.js:72-78 | the provider's state becomes what logout specifies |
| ContentDetail.CanEditOrDelete | client/src/components/notices/NoticeDetail.js:103-115 | nobody is offered the buttons without a user and a loaded item; an administrator always is; otherwise exactly a faculty member who owns the item |
| ContentDetail.OwnerRefusedAsWritten | client/src/components/notices/NoticeDetail.js:103-115 | as written a faculty member signed in through the profile endpoint is refused the buttons on their own item, which the intended check and the server allow |
| ContentDetail.AgreesWithServer | client/src/components/events/EventDetail.js:115-127 | for a faculty member signed in with a token, the intended check offers the buttons exactly on the items the update and delete handlers let them change |
| ContentDetail.StudentsNeverOffered | client/src/components/notices/NoticeDetail.js:103-115 | a student is never offered the buttons, as written or as intended |
| ContentDetail.Extension | client/src/components/notices/NoticeDetail.js:118 | the extension is the text after the last dot, lowercased, holds no dot and is no longer than the name |
| ContentDetail.IconByLastSegment | client/src/components/notices/NoticeDetail.js:117-129 | only the text after the last dot decides the icon, and its case does not matter |
| ContentDetail.DeleteOutcome | client/src/components/notices/NoticeDetail.js:65-83 | a deleted item leads back to its list; a failed delete stays with a non-empty error and the dialog closed |
| Navbar.DashboardLink | client/src/components/layout/Navbar.js:80-92 | an administrator goes to the admin dashboard whatever the role; other faculty to the faculty dashboard; everyone else, signed out included, to the notices |
| Navbar.UserInitial | client/src/components/layout/Navbar.js:68-78 | without a user the initial is 'U'; otherwise the upper-cased first character of the chosen name; at most one character |
| Navbar.InitialShape | client/src/components/layout/Navbar.js:68-78 | the initial never holds a lower-case letter and is empty only for a user whose email is empty |
| Navbar.InitialCases | client/src/components/layout/Navbar.js:70-75 | the initial comes from a faculty member's full name, a student's first name, and the email when that is missing or for any other role |
| Navbar.ReceivedFacultyInitial | client/src/components/layout/Navbar.js:70-89 | a faculty member as the profile endpoint describes them gets the initial of their full name and the faculty dashboard |
| Navbar.MenuEntries | client/src/components/layout/Navbar.js:94-129 | notices and events are always offered; the dashboard entry, with its link, exactly to a visitor who is signed in, and in third place |
| Navbar.SignedOutHasNoDashboard | client/src/components/layout/Navbar.js:116-158 | in a coherent session a visitor with no user sees no dashboard entry |
| Register.ListsMatchServer | client/src/components/auth/Register.js:49-76 | the branches and divisions offered are the ones the server's departments list names |
| Register.ParseInt | client/src/components/auth/Register.js:110 | `parseInt` gives a number exactly when the text after its sign and prefix starts with a digit, and that number is not negative without a minus sign |
| Register.ParseIntOfNat | client/src/components/auth/Register.js:110 | the decimal text of a number parses back to that number |
| Register.NotANumber | client/src/components/auth/Register.js:110 | an empty text, or one starting with neither a digit nor a space nor a sign, parses to no number |
| Register.Guard | client/src/components/auth/Register.js:89-97 | a password mismatch is reported first, then an email outside the campus suffix; the guard passes exactly when neither holds |
| Register.Year | client/src/components/auth/Register.js:110 | the year sent is a number exactly when the typed text parses, and then that number |
| Register.Payload | client/src/components/auth/Register.js:102-117 | the body carries the email and password, the student fields exactly for the student role and the faculty fields otherwise |
| Register.ServerStudentForm | server/src/routes/auth.js:9-16 | the server sees the body's email, password and branch, and a year exactly when a number was sent |
| Register.YearReachesServer | client/src/components/auth/Register.js:110 | a year typed as its digits reaches the server as that year; an empty year is refused by the student rules |
| Register.GuardedStudentAccepted | client/src/components/auth/Register.js:85-119 | a student form past the guard with the fields the rules ask for passes the server's student rules |
| Register.CallError | client/src/components/auth/Register.js:123-159 | the error shown after a failed call is the server's message, else the fallback, and is never empty |
| Register.Submit | client/src/components/auth/Register.js:85-127 | a failed guard shows its error and posts nothing; otherwise the body goes to the role's endpoint, a success moves to the code step and a failure shows the call's error |
| Register.SubmitStep | client/src/components/auth/Register.js:85-127 | the step only moves after a successful post, and nothing is posted without an error to show |
| Register.VerifyOtp | client/src/components/auth/Register.js:129-149 | an empty code shows its error and sends nothing; otherwise the email and the code are sent and only a success leads to the login page |
| Register.ResendOtp | client/src/components/auth/Register.js:151-163 | a resend always leaves a message, the success message after a success, and changes nothing else |
| Register.RegisterPage.constructor | client/src/components/auth/Register.js:24-39 | the page starts at the first step with the empty student form |
| Register.RegisterPage.Change | client/src/components/auth/Register.js:78-83 | only the form changes |
| Register.RegisterPage.HandleRegister | client/src/components/auth/Register.js:85-127 | the page's state and the post are what the submit function specifies |
| Register.RegisterPage.HandleVerifyOtp | client/src/components/auth/Register.js:129-149 | the page's state and the post are what code verification specifies |
| Register.RegisterPage.HandleResendOtp | client/src/components/auth/Register.js:151-163 | the page's state is what resend specifies |
| ForgotPassword.FailureText | client/src/components/auth/ForgotPasswordForm.js:66-135 | the alert after a failure shows the server's message when there is one, the fallback otherwise |
| ForgotPassword.ServerResetForm | server/src/routes/auth.js:73-77 | the reset route's rules see the body's email, code and new password |
| ForgotPassword.RequestOtp | client/src/components/auth/ForgotPasswordForm.js:40-72 | an empty email shows its error and sends nothing; otherwise the email is sent, a success moves to the code step and a failure shows its text |
| ForgotPassword.VerifyOtp | client/src/components/auth/ForgotPasswordForm.js:74-88 | an empty code shows its error; any other moves to the last step without asking the server |
| ForgotPassword.ResetPassword | client/src/components/auth/ForgotPasswordForm.js:90-137 | an empty password and then a mismatch are refused with nothing sent; otherwise email, code and password are sent and only a success schedules the login page |
| ForgotPassword.Resend | client/src/components/auth/ForgotPasswordForm.js:196-203 | resending returns to the first step and changes nothing else |
| ForgotPassword.StepsStayInRange | client/src/components/auth/ForgotPasswordForm.js:20-137 | the form never leaves its three steps |
| ForgotPassword.WalkThrough | client/src/components/auth/ForgotPasswordForm.js:40-137 | an accepted email, a code and a confirmed password reach the last step with exactly those three values sent |
| ForgotPassword.ShortCodeShowsFallback | client/src/components/auth/ForgotPasswordForm.js:74-135 | a code of the wrong length reaches the last step, where the server refuses it with no message, so the fallback is shown and nothing is scheduled |
| ForgotPassword.ForgotPasswordForm.constructor | client/src/components/auth/ForgotPasswordForm.js:20-28 | the form starts at the first step with empty fields and a closed alert |
| ForgotPassword.ForgotPasswordForm.Change | client/src/components/auth/ForgotPasswordForm.js:32-34 | only the fields change |
| ForgotPassword.ForgotPasswordForm.CloseAlert | client/src/components/auth/ForgotPasswordForm.js:36-38 | only the alert closes |
| ForgotPassword.ForgotPasswordForm.HandleRequestOtp | client/src/components/auth/ForgotPasswordForm.js:40-72 | the form's state and the post are what the request step specifies |
| ForgotPassword.ForgotPasswordForm.HandleVerifyOtp | client/src/components/auth/ForgotPasswordForm.js:74-88 | the form's state is what the code step specifies |
| ForgotPassword.ForgotPasswordForm.HandleResetPassword | client/src/components/auth/ForgotPasswordForm.js:90-137 | the form's state and the post are what the reset step specifies |
| ForgotPassword.ForgotPasswordForm.HandleResend | client/src/components/auth/ForgotPasswordForm.js:196-203 | the form's state is what resend specifies |

## Left out

- Mail delivery (server/src/utils/sendEmail.js and email.js) is not part of this model. Each send is a boolean input, `mailOk`, that may fail.
- JWT signing and verification are not modelled. A request carries a `Token`: decoded with its payload, bad, or absent. The one-day expiry belongs to the library.
- `Math.random` is not modelled. Its draw is an input below 900000, and the code is 100000 plus the draw.
- `Date.now()` and `new Date()` are not modelled. The current time, and for the client the local time zone's fixed UTC offset, are inputs. Daylight-saving changes are not modelled.
- express-validator's `isEmail` and `isISO8601` are library predicates. Their verdicts are boolean inputs (`emailFormat`, `dateFormat`). Dates arrive already parsed, as milliseconds.
- Mongoose persistence is modelled by its effect only. That covers connections, the fields `populate` copies into a request (only its failure for an unregistered model name is modelled), `select` projections beyond dropping the password, `ObjectId` casting (ids are natural numbers, so the handlers' `err.kind === 'ObjectId'` branches cannot occur), and the save-time checks beyond the unique email index, required fields and enums.
- Sorting with equal keys is modelled as a stable sort in insertion order. MongoDB leaves that order unspecified.
- Error bodies are reduced to a status, one message and a list of validator messages. The model does not keep:
  - the `msg` versus `message` key;
  - the `error` field of change-password's 500;
  - the plain-text `Server Error` body of the admin router.
- The multer upload middleware is not part of this model. Uploaded files arrive as a list of original and stored names, after its count cap. Its per-file size limit, and the files it stores before a handler refuses the request, are not modelled.
- FileUtils.Basename: does not model Node's full URL parser. The path is the text before the first `?` or `#`, and its last `/`-separated segment is the stored name.
- The paging query text is not modelled. Page and limit arrive as natural numbers, so a negative page or a non-numeric value (`NaN`) is not modelled.
- Case folding, upper-casing and trimming are ASCII only. Unicode letters and Unicode white space are not modelled.
- The `pre('save')` timestamps of notices and events are set to the `now` input of the handler that saves.
- Concurrency is not modelled. Every request runs alone, start to end, so races such as two simultaneous email verifications are not covered.
- server/middleware/adminAuth.js is not part of this model. It requires models that are not part of the repository's source, and no route uses it.
- Components that only render or route are not part of this model, for these reasons:
  - App.js, Home.js, PrivateRoute.js, AdminRoute.js, FacultyDashboard.js, NoticeList.js, ChangePasswordForm.js and VerifyEmail.js have no logic beyond what the modelled files cover.
  - Locale date and time formatting, `getTypeColor` and the file-size display are display only.
- In the client, these calls are not modelled, because nothing they do is visible in the state: `alert`, `setTimeout`, `window.confirm` and navigation. Each outcome is an input or a recorded target path.
- React's batching and scheduling of state updates is not modelled. Each handler applies its updates in order.
- The transient `loading`, `processing` and `resending` flags are not modelled, because they only disable buttons.
- Session.CheckAuth, Session.Login and Session.Logout carry no contract of their own: they are stated through `Session.Coherent` and the lemmas beside them. A failed profile fetch is an absent user, not an HTTP error.
- Register.ParseInt: does not model JavaScript's full white-space set. Leading spaces, tabs and line breaks are skipped. The text of the `TypeError` a missing response produces is the V8 engine's.
- EventCalendar.CalendarDays: the month is given as its first day and its length. `new Date(year, month, …)` arithmetic is not modelled. Dates are whole days counted from 1970-01-01.
- The browser's `required` attributes on the forms are not modelled, because they stop a submission before any handler runs.

## Findings

| source | as written | input that shows it | evidently intended | confidence | as-written member | corrected member |
|---|---|---|---|---|---|---|
| server/src/controllers/authController.js:270-284 | the faculty branch compares `user.constructor.modelName` with `Faculty`, but the faculty discriminator is registered as `faculty`, so the branch never runs | a faculty member whose registration request an administrator has already removed verifies their email: no request is filed, and the record never reaches the request list | file a request for a verified faculty record that no request names | not executed | AuthController.VerifyEmailAsWritten, AuthController.VerifyEmailSkipsRequestAsWritten | AuthController.VerifyEmail, AuthController.VerifyEmailValid |
| server/routes/api/admin.js:140-175 | a conversion saves the new record while the old one still holds the same id and email in the shared users collection, and the new record lacks fields the other kind requires (branch and year of admission, or division and post) | an administrator asks to turn any faculty member into a student: the save is refused and the answer is 500 | delete the old record first and save a record of the other kind under the same id, email and password, with the required fields filled as `updateUserRole` fills them; what the schema still refuses, such as a one-word name, answers 500 | not executed | AdminRoutes.ChangeRoleAsWritten, AdminRoutes.ConversionAlwaysFailsAsWritten | AdminRoutes.ChangeRole, AdminRoutes.ConversionSucceedsIff, AdminRoutes.StudentConversionAccepted |
| server/src/controllers/adminController.js:121-123 | `newUser.save()` runs before `user.remove()`, so the unique email index refuses every conversion | any faculty→student or student→faculty request reaches the save with the old email still stored | remove the old record, then save the converted one | not executed | AdminController.UpdateUserRoleAsWritten, AdminController.ConversionAlwaysFailsAsWritten | AdminController.UpdateUserRole, AdminController.ConversionSucceedsIff |
| server/src/models/VerificationRequest.js:6-10 | the `faculty` reference names the model `Faculty`, but the faculty discriminator is registered as `faculty`, so every `populate('faculty')` throws once its query has found a document | with one pending request on file, an administrator opens the request list: the router answers 500, and the controller answers 500 to its listing and to approving or rejecting that request | name the registered faculty model | not executed | AdminRoutes.PendingRequestsAsWritten, AdminRoutes.PendingRequestsFailAsWritten, AdminController.GetVerificationRequestsAsWritten, AdminController.RequestHandlersFailAsWritten | AdminRoutes.PendingRequests, AdminRoutes.PendingRequestsListing, AdminController.GetVerificationRequests, AdminController.VerificationRequestsListing |
| server/src/controllers/adminController.js:194-205, 231-239 | once the reference names a registered model, `request.faculty._id` is still read after `populate`, which gives `null` for a deleted faculty record, so the handler throws | approve or reject a request after its faculty member was deleted through this controller: 500, and the request stays for good | answer "Faculty not found" (404) on approval, and remove the request on rejection | not executed | AdminController.ApproveWithRef, AdminController.RejectWithRef, AdminController.OrphanedRequestStuckAsWritten | AdminController.Approve, AdminController.Reject, AdminController.ApproveEffect |
| client/src/components/events/EventCalendar.js:44-49 | the month's bounds are local midnights cut to their UTC date, a day early east of UTC, and the last day's events start after the end bound | an event at 10:00 on 30 April 2024 in India (UTC+05:30) is missing from April | ask for the local dates of the month's first and last day | not executed | EventCalendar.QueryAsWritten, EventCalendar.LastDayMissedAsWritten, EventCalendar.IstLastDayMissedAsWritten | EventCalendar.FetchQuery, EventCalendar.FetchQueryExact |
| client/src/components/events/EventCalendar.js:47-63 | no `limit` is sent, so the listing's default of ten applies | a month with eleven matching events shows ten | show every event of the month | not executed | EventCalendar.AtMostTenAsWritten | EventCalendar.FetchShowsAll |
| client/src/components/admin/AdminDashboard.js:179-184, 284 | a student moved to the faculty list keeps only student fields, and the faculty search reads `fullName.toLowerCase()` | promote a student to faculty, then search the faculty tab for "a": the search throws | skip missing fields and still match on the email | not executed | AdminDashboard.SearchAsWritten, AdminDashboard.MovedStudentBreaksFacultySearch | AdminDashboard.Search, AdminDashboard.SearchAgrees |
| client/src/components/notices/NoticeDetail.js:110-114 | the owner's `_id` is compared with `user.id`, which the profile body (`toObject()` with no virtuals) does not carry | a faculty member signed in opens their own notice: no edit or delete buttons | compare with the user's own `_id` | not executed | ContentDetail.CanEditOrDeleteAsWritten, ContentDetail.OwnerRefusedAsWritten | ContentDetail.CanEditOrDelete, ContentDetail.AgreesWithServer |
