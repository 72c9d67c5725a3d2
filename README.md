# Access control of the HRMS back end, in Dafny

This project models the access-control core of an Express/Sequelize HR back end. It covers:

- the four middleware gates that guard its routes:
  - role-based (`authorizeRoles`);
  - mandatory, by sensitivity level (`enforceMAC`, `enforceImmutableLabel`);
  - discretionary, by per-document grant rows (`enforceDAC`);
  - attribute-based (`enforceABAC`);
- the rule-policy gate (`enforceRules`);
- the gate chain of every route in the route files;
- the controllers that decide and change access: employee profiles, documents and their sharing, document grants, salary records, role assignment, and the role-change request workflow.

Each gate is a pure function from the principal, the request and the rows it looks up to a verdict: pass, or a refusal with an HTTP status and a reason. `Pipeline` gives a route its chain of gates, does the lookups against a snapshot of the tables, and stops at the first refusal. Each controller is a pure outcome function carrying the contract. The tables a controller writes are classes:

- `ProfileTable`, `DocumentStore`, `SalaryTable`, `RoleStore` and `RequestTable`;
- each method's postcondition ties the new table contents to the outcome function and the old contents.

Modules follow the source layout:

- `Common`, `Records` and `Tables`: the shared vocabulary, rows and row lookups;
- `Rbac`, `Mac`, `Dac`, `Abac` and `Rules`: the middleware;
- `Pipeline` and one `...Routes` module per route file;
- one module per controller;
- `SharedWith`: the `shared_with` parser of `createDocument`.

The code has some behaviour a reader might not expect. The model keeps it as written:

- The Employee self-scope in `enforceMAC` also applies to a principal who holds Manager as well (macMiddleware.js:60).
- The grant gate consults the FIRST grant row for a (document, user) pair, not the last one written (dacMiddleware.js:32-34).
- `enforceRules` compares only the first role with `allowedRoles` (ruleMiddleware.js:36).
- `server.js` mounts neither the salary, leave-request nor permission routers. The model still proves their chains, and `Pipeline.MountedAt` records what is mounted.

## Model

| member | source | states |
|---|---|---|
| Common.Rank | middleware/macMiddleware.js:5 | Public ranks 1, Internal 2, Confidential 3; the rank is 1 exactly for Public and 3 exactly for Confidential |
| Common.ObjectFormIgnored | middleware/macMiddleware.js:38 | `roles.includes(name)` matches plain names only: adding `{ name }` changes nothing, and adding the name grants the role |
| Common.LaterRolesIgnored | middleware/ruleMiddleware.js:36 | only the first role is compared: later roles change nothing, and a principal with no roles is never in the list |
| Common.ClearanceOf | middleware/macMiddleware.js:34 | the claimed clearance, or Public, the lowest rank, without one |
| Common.LabelOf | middleware/macMiddleware.js:35 | the stored label, or Internal, between Public and Confidential, without one |
| Rbac.SomeRoleAllowed | middleware/roleMiddleware.js:12 | true iff some role entry is a plain name that occurs in the allowed list |
| Rbac.AuthorizeRoles | middleware/roleMiddleware.js:3-21 | passes iff the principal holds a role name in the allowed list; otherwise a 403 with the insufficient-role reason |
| Rbac.NoRolesRefused | middleware/roleMiddleware.js:6-17 | a principal with no roles is refused |
| Rbac.EmptyAllowedRefusesAll | middleware/roleMiddleware.js:12-17 | an empty allowed list refuses every principal |
| Rbac.Monotone | middleware/roleMiddleware.js:12 | adding roles to the principal or to the allowed list never turns a pass into a refusal |
| Rbac.OnlySetsMatter | middleware/roleMiddleware.js:12 | order and duplicates in either list do not change the verdict |
| Rbac.RoleObjectsIgnored | middleware/roleMiddleware.js:12 | a `{ name }` role object never satisfies the gate |
| Mac.EnforceMac | middleware/macMiddleware.js:16-77 | `create` always passes. Otherwise: a missing profile gives 403 resource-not-found, and an Admin passes. Otherwise it passes iff the level check, the Manager department scope and the Employee self scope all hold. Read-up and write-down are refused with their own reasons, in that order. A Manager without a profile gets a 500 |
| Mac.NoReadUp | middleware/macMiddleware.js:42-44 | a non-Admin cleared below the label is refused `view` with the read-up reason |
| Mac.WriteRuleIsAsymmetric | middleware/macMiddleware.js:47-49 | the write rule refuses a principal cleared ABOVE the label and lets one cleared below it through |
| Mac.EqualRanksPassLevel | middleware/macMiddleware.js:42-49 | equal clearance and label pass the level check for every action |
| Mac.TokenPrincipalReadsOnlyPublic | middleware/macMiddleware.js:34-44 | without a clearance claim, a non-Admin is refused `view` on every profile not labelled Public |
| Mac.ManagerOtherDepartment | middleware/macMiddleware.js:52-57 | a Manager is refused a profile of another department even when the level check passes |
| Mac.EmployeeReadUpScenario | middleware/macMiddleware.js:42-62 | an Internal-cleared Employee is refused another user's Confidential profile for read-up, before the self check |
| Mac.ManagerEmployeeNeedsBoth | middleware/macMiddleware.js:52-62 | a principal holding Manager and Employee must pass both scopes; the same department alone is not enough |
| Mac.EnforceImmutableLabel | middleware/macMiddleware.js:80-91 | refuses (403) iff the body carries a label and the principal is not Admin |
| Records.GrantFor | middleware/dacMiddleware.js:32-34 | the first grant row of the (document, user) pair, or none iff no row names that pair |
| Records.GrantForAppend | middleware/dacMiddleware.js:32-34 | once a pair has a row, rows appended later never change which row is found |
| Records.ProfileOfUser | middleware/macMiddleware.js:53-54 | the first profile whose `user_id` is the given user, or none iff there is none |
| Records.FindProfile | middleware/macMiddleware.js:30 | the row with the given key, or none iff no row has it or the id is absent |
| Records.FindDocument | middleware/dacMiddleware.js:22 | the row with the given key, or none iff no row has it or the id is absent |
| Records.FindUser | middleware/abacMiddleware.js:54 | the row with the given key, or none iff no row has it or the id is absent |
| Records.FindDepartment | middleware/abacMiddleware.js:63 | the row with the given key, or none iff no row has it or the id is absent |
| Records.FindRole | middleware/abacMiddleware.js:71 | the row with the given key, or none iff no row has it or the id is absent |
| Records.FindLeave | middleware/ruleMiddleware.js:72 | the row with the given key, or none iff no row has it or the id is absent |
| Records.FindSalary | controllers/salaryController.js:32 | the row with the given key, or none iff no row has it or the id is absent |
| Dac.EnforceDac | middleware/dacMiddleware.js:11-47 | a missing document gives 404; the owner passes; a non-owner without a grant row gets 403. It passes iff the principal is the owner, or their first row holds `can_view` for view, or `can_edit` for edit and delete |
| Dac.OwnerNeedsNoGrant | middleware/dacMiddleware.js:28-29 | the owner passes every action with an empty grant table |
| Dac.ViewOnlyGrant | middleware/dacMiddleware.js:38-41 | a view-only row allows view and refuses edit and delete |
| Dac.DeleteIsEdit | middleware/dacMiddleware.js:39 | delete always decides exactly as edit |
| Dac.OtherActionsRefused | middleware/dacMiddleware.js:38-41 | any other action is refused for every non-owner, whatever the bits |
| Dac.LaterGrantsIgnored | middleware/dacMiddleware.js:32-34 | once a pair has a row, rows added after it never change the verdict; the table's key on (document, user) rejects such rows anyway |
| Abac.AccessList | middleware/abacMiddleware.js:85-90 | Admin is on every tier; Manager on every tier but Confidential; Employee only on Public |
| Abac.NormaliseRoles | middleware/abacMiddleware.js:20 | the role names, string or `{ name }`, position by position |
| Abac.CheckLoaded | middleware/abacMiddleware.js:92-106 | passes iff a role is on the tier's list and, for an Employee on a profile, the departments agree |
| Abac.EnforceAbac | middleware/abacMiddleware.js:15-117 | unknown types give 400. Collection routes of Document, User, Department and Role pass. A missing row gives 404, and the document owner passes. Otherwise the result is the loaded check |
| Abac.AdminPassesEveryTier | middleware/abacMiddleware.js:85-98 | an Admin passes the access map at every tier |
| Abac.UnlistedTypesRefused | middleware/abacMiddleware.js:78-79 | LeaveRequest, SalaryRecord and RoleChangeRequest are always refused with 400 |
| Abac.UnlabelledDocumentIsInternal | middleware/abacMiddleware.js:93-97 | a document row carries no `sensitivityLevel` attribute, so the gate sees Internal and refuses a non-owner who holds neither Manager nor Admin |
| Abac.RoleObjectsCount | middleware/abacMiddleware.js:20 | a `{ name: 'Admin' }` role object passes this gate on a Confidential row |
| Abac.EmployeeWithoutProfileClaimRefused | middleware/abacMiddleware.js:101-105 | an Employee with no profile department claim is refused every profile that has a department |
| Rules.SomeDeviceMatches | middleware/ruleMiddleware.js:42-48 | true iff some listed device string is a substring of the user agent |
| Rules.CheckPolicy | middleware/ruleMiddleware.js:22-83 | one policy passes iff all of its present conditions hold. The first failing condition answers, in the order time, role, device, IP, country, leave. A missing leave gives 404 |
| Rules.CheckAll | middleware/ruleMiddleware.js:22-84 | passes iff every matching policy holds; a refusal is the first failing policy's |
| Rules.Matching | middleware/ruleMiddleware.js:15 | a policy is in the result iff it is stored and has the action's name; no more rows than stored |
| Rules.MatchingAppend | middleware/ruleMiddleware.js:15 | the query keeps storage order: the matches of an earlier run of rows come before those of a later run |
| Rules.EnforceRules | middleware/ruleMiddleware.js:6-93 | no matching policy means pass (fail-open); otherwise it passes iff every matching policy holds, and a refusal comes from one of them |
| Rules.WorkingHours | middleware/ruleMiddleware.js:27-33 | the 8-18 window admits hours 8 to 17 and refuses 18 |
| Rules.HalfWindowIgnored | middleware/ruleMiddleware.js:27 | a time condition with only a start hour, or only an end hour, is ignored |
| Rules.LeaveBoundary | middleware/ruleMiddleware.js:78-82 | a leave of exactly maxDays inclusive days passes; one day more is refused unless the first role overrides |
| Rules.LeaveRuleDisabled | middleware/ruleMiddleware.js:70 | maxDays 0, or an action other than approveLeave, switches the leave rule off |
| Rules.PrimaryRoleOnly | middleware/ruleMiddleware.js:36-39 | an Admin whose first role is Employee is refused by an Admin-only role list |
| Rules.DeviceListEdges | middleware/ruleMiddleware.js:42-48 | an empty device list refuses everyone; an empty entry admits everyone |
| Rules.SeededLeavePolicy | seedRules.js:24-31 | under the seeded approveLeave policy, a Manager approving an 11-day leave is refused |
| Pipeline.Load | middleware/abacMiddleware.js:31-80 | for each of the five types, the attributes exist iff the row exists. A profile brings its label and department, a document its owner, a user its label; a department or role brings nothing. An unknown type loads nothing |
| Pipeline.RunChain | routes/documentRoutes.js:43-51 | a chain passes iff every gate passes; a refusal is some gate's refusal, with all gates before it passing |
| Pipeline.GateLookups | middleware/macMiddleware.js:30 | each gate loads by the route's `id`: MAC refuses a missing profile with 403 and DAC a missing document with 404; DAC and ABAC let the document's owner through; ABAC refuses an unknown type with 400; the role gate passes iff the principal holds an allowed role; the rule gate passes when no policy has the action's name |
| Pipeline.RouteVerdict | routes/documentRoutes.js:43-51 | a route passes iff every gate of its chain passes on the request bound to the path; a refusal is the refusal of one of its gates |
| Pipeline.FirstRefusalAnswers | routes/documentRoutes.js:43-51 | the first gate that refuses answers for the whole chain, whatever the later gates say |
| Pipeline.RefusingGateRefuses | routes/documentRoutes.js:43-51 | a chain holding any gate that refuses never reaches the controller |
| Pipeline.UnknownTypeRefuses | middleware/abacMiddleware.js:78-79 | an attribute gate naming an unknown type answers 400 and stops every chain it stands in |
| Pipeline.RunChainAppend | routes/documentRoutes.js:43-51 | running two chains in turn is running their concatenation |
| Pipeline.Bind | routes/documentRoutes.js:43-51 | the `:id` parameter reaches the gates only on paths that declare it |
| Pipeline.MountedAt | server.js:28-38 | exactly the nine mounted prefixes: the authentication router at `/auth`, the eight protected ones, and the profile router at both `/profiles` and `/employee-profiles`. The salary, leave and permission routers are not among them |
| DepartmentRoutes.ListAndCreateAreRoleChecks | routes/departmentRoutes.js:19-47 | listing and creating are decided by the role gate alone |
| DepartmentRoutes.AdminUpdateDelete | routes/departmentRoutes.js:50-67 | an Admin updates or deletes exactly the departments that exist; others get 404 |
| DepartmentRoutes.ViewNeedsProfileWithSameKey | routes/departmentRoutes.js:29-37 | viewing an existing department is refused when no employee profile has the same key |
| DocumentRoutes.ListIsRoleCheck | routes/documentRoutes.js:27-34 | the list route is decided by the role gate alone |
| DocumentRoutes.OwnerPassesGates | routes/documentRoutes.js:43-96 | an owner with one of the three roles passes the view and delete chains |
| DocumentRoutes.NonOwnerView | routes/documentRoutes.js:43-51 | a non-owner passes the view chain iff they have a role, a first row with the view bit, and Manager or Admin |
| DocumentRoutes.SharingWithEmployeeGivesNothing | routes/documentRoutes.js:43-51 | a plain Employee with a view grant passes the grant gate and is then refused by the attribute gate |
| DocumentRoutes.AdminUpdateNeedsGrant | routes/documentRoutes.js:73-81 | an Admin without a grant row is refused an update of another's document |
| DocumentRoutes.MissingDocument | routes/documentRoutes.js:43-96 | an unknown id gives 404 on view and delete for any Employee, Manager or Admin, and on update for an Admin |
| LeaveRoutes.AttributeGatedRoutesNeverPass | routes/leaveRequestRoutes.js:26-87 | list, view, create and approve never reach the controller |
| LeaveRoutes.DeleteDecision | routes/leaveRequestRoutes.js:95-102 | delete passes iff the principal is Admin and the deleteLeaveRequest rules hold |
| PermissionRoutes.AdminOnly | routes/documentPermissionRoutes.js:14-33 | grant and revoke pass iff the principal is Admin |
| ProfileRoutes.ReadsUngated | routes/employeeProfileRoutes.js:23-38 | both read routes reach the controller for every request |
| ProfileRoutes.WritesAdminOnly | routes/employeeProfileRoutes.js:54-90 | create and delete pass iff the principal is Admin |
| ProfileRoutes.AdminUpdate | routes/employeeProfileRoutes.js:69-77 | an Admin without Employee updates every existing profile; a missing one is refused by MAC |
| SalaryRoutes.ListRefusedByMac | routes/salaryRoutes.js:22-31 | the list route is refused by MAC, even for an Admin |
| SalaryRoutes.NoRoutePasses | routes/salaryRoutes.js:22-87 | no salary route ever reaches its controller |
| UserRoutes.ListNeverPasses | routes/userRoutes.js:23-32 | listing users never reaches the controller |
| UserRoutes.CreateDecision | routes/userRoutes.js:62-71 | creating passes iff the principal is Admin and the createUser rules hold |
| UserRoutes.UserRoutesNeedProfileWithSameKey | routes/userRoutes.js:48-99 | even an Admin is refused view, update and delete of a user when no profile has the same key |
| UserRoutes.EmployeeViewReadUp | routes/userRoutes.js:48-57 | an Employee token is refused for read-up when the same-keyed profile is not Public |
| RoleRoutes.AttributeGateInert | routes/roleRoutes.js:18-67 | each role route is decided by its role list and its rules only |
| RoleRequestRoutes.WorkflowUnreachable | routes/roleRequestRoutes.js:23-64 | request, approve and reject never reach the controller; an Admin approving gets 400 |
| RoleRequestRoutes.PendingDecision | routes/roleRequestRoutes.js:72-79 | the pending list passes iff the principal is Admin and its rules hold |
| ProfileController.GetProfileById | controllers/employeeProfileController.js:28-63 | 404 when missing. It returns the profile iff the clearance reaches the label, the Employee is the profile's user, and the Manager's own profile is in the same department. The level refusal has its own reason |
| ProfileController.GetAgreesWithMacView | controllers/employeeProfileController.js:39-57 | for a non-Admin, the handler returns the profile exactly when the MAC view gate would pass it |
| ProfileController.AdminHasNoBypass | controllers/employeeProfileController.js:40-44 | an Admin without a clearance claim passes MAC but is refused an Internal profile by the handler |
| ProfileController.CheckOrderDiffersFromMac | controllers/employeeProfileController.js:46-57 | for the same principal, the handler answers 403 where MAC answers 500 |
| ProfileController.TokenReadsOnlyPublic | controllers/employeeProfileController.js:40-44 | without a clearance claim, only Public profiles are returned; a roleless principal gets every Public one |
| ProfileController.NewProfile | controllers/employeeProfileController.js:75-82 | the label defaults to Internal and a falsy salary is stored as null |
| ProfileController.CreateProfileOutcome | controllers/employeeProfileController.js:66-87 | a non-Admin sending a label is refused. Otherwise the new row is created iff the required columns are present and its `user_id`, `department_id` and `manager_id` name existing rows (the keys of models/index.js:30-36), and is the default-filled row; every other failure is 500 |
| ProfileController.NonAdminCreatesInternal | controllers/employeeProfileController.js:69-80 | whatever a non-Admin creates is labelled Internal |
| ProfileController.ApplyPatch | controllers/employeeProfileController.js:112-125 | each truthy field replaces the stored one, and the rest stay |
| ProfileController.PatchIdempotent | controllers/employeeProfileController.js:114-124 | applying the same body twice equals applying it once |
| ProfileController.FalsyPatchIsIdentity | controllers/employeeProfileController.js:114-124 | a body of falsy fields changes nothing |
| ProfileController.UpdateProfileOutcome | controllers/employeeProfileController.js:90-132 | 404, then the self and department scopes, then the Admin-only label, then 500 when a truthy `department_id` or `manager_id` names no row; it succeeds iff all of these hold, with the patched row |
| ProfileController.UpdateKeepsKeys | controllers/employeeProfileController.js:114-127 | a row whose keys resolve still has resolving keys after any successful update |
| ProfileController.NonAdminCannotRelabel | controllers/employeeProfileController.js:119-125 | no non-Admin update changes the label |
| ProfileController.DeleteProfileOutcome | controllers/employeeProfileController.js:135-150 | Admin before the lookup, then 404; on success the row to destroy |
| ProfileController.DeletedProfileGone | controllers/employeeProfileController.js:145 | after destroy the key finds nothing and every other row remains |
| ProfileController.ProfileTable.Create | controllers/employeeProfileController.js:75-83 | the answer is the create outcome, so nothing is stored on a missing column or a dangling key; otherwise the table gains exactly the created row, findable by its new key |
| ProfileController.ProfileTable.Update | controllers/employeeProfileController.js:127 | the answer is the update outcome, so nothing changes on a dangling key; otherwise only the addressed row is replaced, by the patched row |
| ProfileController.ProfileTable.Delete | controllers/employeeProfileController.js:142-146 | one row fewer, the key is gone, and every other row remains |
| DocumentController.VisibleDocuments | controllers/documentController.js:9-27 | exactly the documents the principal owns or holds a first view row on, in table order |
| DocumentController.ListAgreesWithViewGate | controllers/documentController.js:15-21 | a document is listed iff the grant gate passes `view` on it |
| DocumentController.NewDocumentListedLast | controllers/documentController.js:11-21 | a document appended to the table is listed last, when visible |
| DocumentController.GetDocumentById | controllers/documentController.js:30-47 | as written: 404, then the first row's view bit, with no owner exception |
| DocumentController.OwnerWithoutGrantRefused | controllers/documentController.js:38-41 | the owner without a grant row is refused their own document by id, yet it is in their list |
| DocumentController.GetDocumentByIdFixed | controllers/documentController.js:30-47 | corrected: 404, then the owner, then the first row's view bit |
| DocumentController.FixedReadAgreesWithList | controllers/documentController.js:15-41 | the corrected read returns a document iff the list contains it |
| DocumentController.ViewRouteReachesFixedRead | controllers/documentController.js:30-47 | every request the view chain passes is answered by the corrected read with the document |
| DocumentController.OwnerRefusedAfterGates | controllers/documentController.js:38-41 | through the route, the written read refuses an owner whom the gates let through |
| DocumentController.NewDocument | controllers/documentController.js:60-64 | the title falls back to the file's name, and the uploader is the owner |
| DocumentController.SharedIds | controllers/documentController.js:67-71 | an absent or empty field names no id; otherwise the parsed ids |
| DocumentController.SharingGrants | controllers/documentController.js:73-83 | one view-only row per id, granted by the uploader, in field order |
| DocumentController.AcceptedMembers | controllers/documentController.js:73-83 | an id gets a grant row iff the field names it and it names a user |
| DocumentController.AcceptedDistinct | controllers/documentController.js:73-83 | no id gets two rows |
| DocumentController.AllAccepted | controllers/documentController.js:73-83 | every insert succeeds iff every id names a user and no id repeats |
| DocumentController.CreateDocumentOutcome | controllers/documentController.js:50-90 | 400 iff there is no file; 201 with the new row iff every shared id names a user and none repeats; otherwise 500 |
| DocumentController.SharedGrantsDecide | controllers/documentController.js:73-83 | on a fresh document, a shared user holds a view-only grant, and a user not named holds none |
| DocumentController.ClientListIsShared | controllers/documentController.js:67-71 | a comma-joined list of ids shares with exactly those ids |
| DocumentController.CreatedDocumentGate | controllers/documentController.js:60-83 | after upload, the uploader passes every action and a shared non-owner may view but not edit |
| DocumentController.UpdateDocumentOutcome | controllers/documentController.js:93-111 | Admin before the lookup, then 404; truthy fields replace the stored ones and key and owner stay |
| DocumentController.UpdateNeedsAdminAndEditRight | controllers/documentController.js:94-96 | through the route, an update needs Admin and, for a document the Admin does not own, a first row with the edit bit |
| DocumentController.DeleteDocumentOutcome | controllers/documentController.js:114-135 | 404, then Admin or owner, else 403 |
| DocumentController.GrantedManagerRefusedDelete | controllers/documentController.js:120-125 | a Manager with an edit grant passes the delete chain and is then refused by the handler |
| DocumentController.GrantCleanup | controllers/documentController.js:128 | removing a document's rows leaves every other document's first row as it was |
| DocumentController.DeletedDocumentGone | controllers/documentController.js:130 | after destroy the key finds nothing, every other row remains and keys stay unique |
| DocumentController.DocumentStore.Create | controllers/documentController.js:50-90 | answers as the outcome function. With a file the row is appended and the rows of the accepted shared ids follow, even when the answer is 500 |
| DocumentController.DocumentStore.ShareWith | controllers/documentController.js:73-83 | the grant table gains one view-only row per accepted id, in field order; the flag is true iff no insert failed |
| DocumentController.DocumentStore.InsertGrant | models/index.js:54-55 | an insert succeeds iff the user exists and the pair has no row yet; then exactly that row is appended, and the table keeps one row per pair |
| DocumentController.DocumentStore.Update | controllers/documentController.js:98-107 | only the addressed row is replaced, by the updated row |
| DocumentController.DocumentStore.Delete | controllers/documentController.js:116-131 | the document's grant rows go, then the row; other rows remain |
| SharedWith.Split | controllers/documentController.js:69 | at least one piece, and no piece contains the separator |
| SharedWith.JoinSplit | controllers/documentController.js:69 | joining the pieces gives back the string |
| SharedWith.SplitJoin | controllers/documentController.js:69 | splitting undoes a join of separator-free pieces |
| SharedWith.Trim | controllers/documentController.js:70 | the result is a substring with no white space at either end |
| SharedWith.TrimStart | controllers/documentController.js:70 | drops exactly the leading white space: a suffix of the input, all dropped characters white space, and no white space first |
| SharedWith.TrimEnd | controllers/documentController.js:70 | drops exactly the trailing white space: a prefix of the input, all dropped characters white space, and no white space last |
| SharedWith.DigitPrefix | controllers/documentController.js:70 | the longest prefix made of digits |
| SharedWith.ParseDigits | controllers/documentController.js:70 | a run of digits reads as its decimal value |
| SharedWith.ParseInt | controllers/documentController.js:70 | empty text is NaN; a leading digit gives a non-negative number; any other leading character but white space or a sign is NaN |
| SharedWith.LeadingSpaceSkipped | controllers/documentController.js:70 | leading white space does not change the result |
| SharedWith.ParseSigned | controllers/documentController.js:70 | a leading digit gives a non-negative number; a negative result needs a leading minus; any other start is NaN |
| SharedWith.ParseUnsigned | controllers/documentController.js:70 | a number iff the text starts with a digit, and never negative |
| SharedWith.ParseNegDigits | controllers/documentController.js:70 | a minus sign and digits read as the negated value |
| SharedWith.ParseShow | controllers/documentController.js:70 | `parseInt` reads back every integer written in decimal |
| SharedWith.ParseAll | controllers/documentController.js:70-71 | NaN pieces are dropped, and the others are kept in order |
| SharedWith.ParseSharedWith | controllers/documentController.js:67-71 | the values of the comma pieces that read as numbers |
| SharedWith.SharedWithRoundTrip | controllers/documentController.js:67-71 | a list of ids written with commas is read back as exactly that list |
| SharedWith.NoDigitIsNaN | controllers/documentController.js:70-71 | a piece without a leading digit is dropped |
| SharedWith.SignAloneIsNaN | controllers/documentController.js:70-71 | a lone sign is dropped |
| SharedWith.StopsAtNonDigit | controllers/documentController.js:70 | a piece is read up to its first non-digit |
| SharedWith.EmptyFieldSharesNothing | controllers/documentController.js:67 | an empty field shares with nobody |
| PermissionController.GrantOutcome | controllers/documentPermissionController.js:9-40 | 404, then owner only. Then 500 unless `user_id` names a user who has no row on the document yet. The new row takes view on and edit off for absent bits, with the owner as grantor |
| PermissionController.GrantNeedsAdminOwner | controllers/documentPermissionController.js:16-19 | with its route, a grant succeeds only for an Admin who owns the document |
| PermissionController.RegrantIneffective | controllers/documentPermissionController.js:21-27 | a second grant for a pair that already has a row is answered 500, so it cannot change that row's bits |
| PermissionController.FirstGrantDecides | controllers/documentPermissionController.js:21-27 | a pair's first row decides view and edit by its own bits |
| PermissionController.RevokeOutcome | controllers/documentPermissionController.js:45-71 | 404, then owner only; 500 without a user id. The count of removed rows is zero iff the pair had no row |
| PermissionController.RevokeRemovesAccess | controllers/documentPermissionController.js:56-58 | after a revoke the pair's user is refused by the grant gate; every other pair keeps its row |
| PermissionController.GrantPermission | controllers/documentPermissionController.js:21-35 | on success exactly the new row is appended; the table keeps at most one row per pair |
| PermissionController.RevokePermission | controllers/documentPermissionController.js:56-66 | on success every row of the pair goes; the reported count, at most 1, plus what remains is the old row count |
| PermissionController.AtMostOneRow | controllers/documentPermissionController.js:56-58 | with the key on (document, user), a revoke finds at most one row |
| SalaryController.RecordLevel | controllers/salaryController.js:40 | the linked profile's label, or Internal when unlinked or unlabelled |
| SalaryController.VisibleSalaries | controllers/salaryController.js:9-27 | exactly the records whose level the clearance reaches, in table order |
| SalaryController.GetSalaryById | controllers/salaryController.js:30-49 | 404, then 403 unless the clearance reaches the record's level |
| SalaryController.ReadAgreesWithList | controllers/salaryController.js:17-42 | the by-id read returns a record iff the list shows it |
| SalaryController.TokenReadsOnlyPublicLinked | controllers/salaryController.js:39-42 | without a clearance claim, only records linked to a Public profile are readable |
| SalaryController.ClearanceMonotone | controllers/salaryController.js:17-21 | a higher clearance sees every record a lower one sees |
| SalaryController.NewSalary | models/SalaryRecord.js:4-8 | the stored row; the currency defaults to ETB |
| SalaryController.CreateSalaryOutcome | controllers/salaryController.js:52-64 | Admin only. Then 500 when `employee_id` names no profile. On success the default-filled row, whose employee exists |
| SalaryController.ApplySalaryPatch | controllers/salaryController.js:76-79 | a truthy amount, currency or date replaces the stored one; key and link stay |
| SalaryController.SalaryPatchIdempotent | controllers/salaryController.js:76-79 | applying the same body twice equals applying it once |
| SalaryController.PatchKeepsReaders | controllers/salaryController.js:76-79 | an update never changes who may read the record |
| SalaryController.UpdateSalaryOutcome | controllers/salaryController.js:67-86 | Admin before the lookup, then 404; on success the patched row |
| SalaryController.DeleteSalaryOutcome | controllers/salaryController.js:89-103 | Admin before the lookup, then 404; on success the row to destroy |
| SalaryController.DeletedSalaryGone | controllers/salaryController.js:98 | after destroy the key finds nothing, every other row remains and keys stay unique |
| SalaryController.SalaryTable.Create | controllers/salaryController.js:59 | answers as the outcome function; on success the table gains exactly the created row, findable by its new key, and otherwise it is unchanged |
| SalaryController.SalaryTable.Update | controllers/salaryController.js:73-82 | only the addressed row is replaced, by the patched row |
| SalaryController.SalaryTable.Delete | controllers/salaryController.js:95-99 | one row fewer, the key is gone, and every other row remains |
| RoleController.RolesOf | models/index.js:22 | the role ids paired with the user in the join table |
| RoleController.TargetOutcome | controllers/roleController.js:9-21 | Admin before any lookup, then 404 when the user or role is missing; on success the pair of the existing user and role named in the body |
| RoleController.AssignGrantsRole | controllers/roleController.js:24 | adding the pair adds exactly that role to exactly that user |
| RoleController.RemoveDropsRole | controllers/roleController.js:58 | removing the pair takes exactly that role from exactly that user |
| RoleController.AssignRemoveRoundTrip | controllers/roleController.js:24-58 | assigning twice equals assigning once; removing a freshly assigned role restores the role set |
| RoleController.RoleRows | controllers/roleController.js:81-87 | exactly the role rows whose ids the user holds |
| RoleController.GetUserRoles | controllers/roleController.js:78-96 | 404 iff the user is unknown; otherwise exactly the user's roles |
| RoleController.ReadBackAfterChange | controllers/roleController.js:24-91 | after assign the role is listed for the user; after remove no role with that id is |
| RoleController.UsersWithRoles | controllers/roleController.js:99-113 | every user in table order, each with exactly their roles |
| RoleController.ListingAgreesWithLookup | controllers/roleController.js:78-113 | the full listing agrees with the single-user lookup on every user |
| RoleController.RoleStore.Assign | controllers/roleController.js:9-39 | on success the pair joins the table and the user's role set grows by that role; otherwise nothing changes |
| RoleController.RoleStore.Remove | controllers/roleController.js:44-73 | on success the pair leaves the table and the user's role set loses that role; otherwise nothing changes |
| RoleRequestController.FindRequest | controllers/roleRequestController.js:48 | the first request with that key, or none iff there is none |
| RoleRequestController.RequestOutcome | controllers/roleRequestController.js:9-35 | 404 iff the role is unknown. Otherwise a Pending request owned by the requester for that role; a falsy reason is stored as null |
| RoleRequestController.ReviewOutcome | controllers/roleRequestController.js:40-50 | Admin before any lookup, then 404, then 400 unless Pending; on success the Pending request |
| RoleRequestController.ApproveOutcome | controllers/roleRequestController.js:40-71 | the review's refusals, then 500 iff the user or role is gone. On success the request moves Pending to Approved, with the pair to add |
| RoleRequestController.RejectOutcome | controllers/roleRequestController.js:76-103 | the review's refusals; on success the request moves Pending to Rejected |
| RoleRequestController.DecidedIsTerminal | controllers/roleRequestController.js:48-50 | an Approved or Rejected request answers 400 to every further decision |
| RoleRequestController.DecisionWrittenBack | controllers/roleRequestController.js:55-57 | saving the decided row makes its key find it, keeps keys unique and leaves other keys' rows alone |
| RoleRequestController.ApproveOnce | controllers/roleRequestController.js:40-71 | after an approval is saved, approving or rejecting again gives 400 |
| RoleRequestController.PendingRequests | controllers/roleRequestController.js:108-127 | 403 iff not Admin; otherwise exactly the Pending requests |
| RoleRequestController.PendingListIsReviewable | controllers/roleRequestController.js:108-127 | a request can be decided iff it appears in the pending list |
| RoleRequestController.RequestTable.Request | controllers/roleRequestController.js:17-21 | on success the new request is the last row, findable by its key |
| RoleRequestController.RequestTable.Approve | controllers/roleRequestController.js:52-57 | on success the row becomes Approved and the requester's role set gains the requested role; on refusal neither table changes |
| RoleRequestController.RequestTable.Reject | controllers/roleRequestController.js:88-89 | on success the row becomes Rejected and roles are untouched; on refusal nothing changes |

## Left out

- Authentication, token signing and verification are out of scope (controllers/authController.js, middleware/authMiddleware.js). The principal is an input. The login's tokens carry only id, username and role names, so real tokens have no clearance or profile-department claim. Several lemmas state the consequences.
- Activity logging (`activityLogger`, `ActivityLog.create`), console output and the response message texts are not modelled. A refusal is a status code and a reason tag.
- The clock is an input: the hour is a field of the request context. Dates are whole day numbers, so the time-zone and millisecond arithmetic of the leave rule is not modelled.
- Salary amounts are `DECIMAL(12,2)` in the source and integers here. No decision depends on them.
- The `HighlySensitive` rank in macMiddleware.js:5 is left out, as is any label string outside Public, Internal and Confidential. The schemas admit only those three, so `levels[...]` is never undefined in the model.
- Route and body ids are `Option<int>`. A non-numeric id string, which the database would reject with a 500, is not modelled.
- `parseInt` is exact on unbounded integers. Precision loss above 2^53 is not modelled. The trimmed white-space set is ECMAScript's, but Unicode categories beyond the listed code points are not.
- `Promise.all` creates the sharing rows concurrently. The model creates them in field order, so the storage order of concurrent inserts is not captured. Which insert of a repeated id fails does not matter: the rows are identical.
- The users and departments tables are inputs to the profile, document and grant handlers, which check the foreign keys to them on insert and update. Deleting a user or a department is not modelled.
- On deleting a profile, the database sets the `employee_id` of its salary rows to null. The model keeps the dangling key; it finds no profile either way, so every decision reads the same.
- Several includes name association aliases that `models/index.js` does not declare:
  - `'permissions'` in controllers/documentController.js:12 and 33;
  - `'employee'` and `'user'` in controllers/salaryController.js:13 and 34;
  - the `User` and `Role` includes of controllers/roleRequestController.js:113-116, where `RoleChangeRequest` has no associations at all.

  The ORM would reject these queries with a 500. The model gives each handler the behaviour its include evidently intends.
- Unit grants with an explicit `null` bit are not modelled. An absent bit takes the column default (view on, edit off); a present one is a boolean.
- RoleRequestController.ApproveOutcome: when the request's user still exists but its role has been deleted, the source's behaviour depends on how the ORM treats `addRole(null)`. The status may already be saved as Approved before the 500. The model answers 500 with no change.
- RoleRequestController.RequestTable.Approve: in the same deleted-role case it changes neither table, where the source may already have saved the request as Approved before its 500. Its "on refusal neither table changes" is weaker than the source there.
- `getAllProfiles` (controllers/employeeProfileController.js:9-25) makes no decision; it returns every row. `RoleController.UsersWithRoles` models the equally unguarded `getUsersWithRoles`. Neither has a check to state.
- The documents' `security_label` column is not modelled. It is a key into the security-label table (models/index.js:50), but the attribute gate reads `sensitivityLevel`, which a document row never carries, so the gate always sees Internal for documents (Abac.UnlabelledDocumentIsInternal).
- The `visibility` column of documents is never consulted by any decision and is not modelled.

## Findings

| source | as written | input that shows it | evidently intended | confidence | as-written member | corrected member |
|---|---|---|---|---|---|---|
| controllers/documentController.js:38-41 | `getDocumentById` answers 403 unless the principal's first grant row has `can_view`; it has no owner exception. Taken literally, the undeclared `'permissions'` include makes `findByPk` throw, so the handler answers 500 (see Left out); the 403 is its answer once that include resolves | the owner of document 1 has no grant row on it and asks for `GET /documents/1`: the gates pass (the grant gate's owner bypass), the list shows the document, the handler answers 403 | the owner reads their own document, as in the list filter (line 17) and the grant gate (middleware/dacMiddleware.js:29) | not executed | DocumentController.OwnerWithoutGrantRefused | DocumentController.GetDocumentByIdFixed |
