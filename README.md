# Privacy-focused login system: a verified model of its core

This project models, in Dafny, the core of a Flask backend and React client
for a privacy-focused login system with two-step (password + one-time code)
sign-in, user privacy settings and consents, and two tamper-evident audit
logs.

- **Backend.** The parts modelled are:
  - the authentication rules and handlers (`auth.py`);
  - the two hash-chained logs (`models_privacy.py`, `backend/models_admin.py`);
  - the privacy endpoints (`backend/privacy.py`);
  - the admin audit query API (`backend/admin_audit.py`).
- **Client.** The parts modelled are:
  - the auth store over `localStorage` (`frontend/src/auth.js`);
  - the token-refresh coordinator in the HTTP wrapper (`frontend/src/api.js`);
  - the two one-time-code pages (`frontend/src/VerifyOTP.jsx`, `frontend/src/AdminVerifyOTP.jsx`);
  - the two admin log pages (`frontend/src/AdminAudit.jsx`, `frontend/src/AdminActivity.jsx`).

## How the model is built

**One module per source file.** Each module keeps the source's form:

- pure helpers are functions;
- handlers that change tables, browser storage or component state are methods on classes whose fields are that state;
- every method is specified by a pure function, and the properties the source promises are proved about that function.

| module | file | models |
|---|---|---|
| `Base` | `base.dfy` | Python `strip`/`int`, JavaScript `trim`, ASCII case mapping, decimal printing, second truncation |
| `Json` | `json.dfy` | JSON values with Python and JavaScript truthiness, template-literal text, query strings as the server sees them |
| `Crypto` | `crypto.dfy` | the foreign libraries, as parameters (below) |
| `ActivityChain` | `activity_chain.dfy` | `models_privacy.py`: the user activity chain |
| `AdminChain` | `admin_chain.dfy` | `backend/models_admin.py`: the admin activity chain |
| `AuthServer` | `auth_server.dfy` | `auth.py` |
| `PrivacyApi` | `privacy_api.dfy` | `backend/privacy.py` |
| `AdminAudit` | `admin_audit.dfy` | `backend/admin_audit.py` |
| `AuthStore` | `auth_store.dfy` | `frontend/src/auth.js` |
| `Api` | `api.dfy` | `frontend/src/api.js` |
| `OtpCooldown` | `otp_cooldown.dfy` | the countdown, resend rules and "wait Ns" parse shared by both code pages |
| `VerifyOtpPage` | `verify_otp.dfy` | `frontend/src/VerifyOTP.jsx` |
| `AdminVerifyOtpPage` | `admin_verify_otp.dfy` | `frontend/src/AdminVerifyOTP.jsx` |
| `AdminAuditPage` | `admin_audit_page.dfy` | `frontend/src/AdminAudit.jsx` |
| `AdminActivityPage` | `admin_activity_page.dfy` | `frontend/src/AdminActivity.jsx` |

**Foreign libraries are parameters.** SHA-256, `json.dumps`/`json.loads`, Fernet and
`isoformat` are the function-typed fields of `Crypto.Primitives`.

- Every chain property is proved for any choice of them that satisfies `Crypto.Sound`:
  - canonical JSON reads back;
  - a Fernet token decrypts to its plaintext;
  - a digest is never empty.
- Collision freedom (`Crypto.HashInjective`) is required only by the two lemmas that show a chain breaks.
- bcrypt's check, JWT decoding and the date parsers are also parameters. So are the fresh random token and the password hash a call would produce.

**Instants** are integers, in microseconds since the epoch. `replace(microsecond=0)` is the floor to a whole second.

**Tables** are sequences of rows in ascending id order. A handler's commit is the new value of that sequence.

**Asynchrony becomes explicit events.**

- *Refresh coordinator.* An arriving 401 and a completing refresh are two methods on one object, `Api.RefreshCoordinator`.
- *Component pages.* The server's answer to a request is a parameter of the handler that awaited it.
- *Countdown.* A timer tick is the method `TickCooldown`.

**Where the repository's own description and the code differ, the model follows the code.**

- Requests replayed after a refresh are not marked as retried (`frontend/src/api.js:40-43`). A second 401 on a replayed request therefore starts another refresh; `Api.ConcurrentRefreshScenario` proves that sequence.
- A successful refresh also sets the axios default Authorization header (`frontend/src/api.js:65`), and nothing removes it. `Api.RefreshCoordinator.Outgoing` merges it into requests that carry no token, and `Api.StaleDefaultAfterLogout` shows a request after logout still sending the old bearer token.
- The verify-chain endpoint that `frontend/src/AdminActivity.jsx` calls no longer exists (`backend/admin_audit.py:121`). `AdminActivityPage.RemovedRouteFails` shows what the page then displays.

**The stateful members carry the corrections.** The handlers, methods and page state use the corrected definitions of the Findings below, not the code as written. The rows marked "(corrected: Finding N)" state the corrected behaviour. The as-written behaviour is only in the Findings' as-written members.

## Model

| member | source | states |
|---|---|---|
| Base.TrimIdempotent | auth.py:42 | stripping already stripped text changes nothing |
| Base.PyInt | backend/privacy.py:182-183 | `int(s)` succeeds only on text that is not blank once stripped |
| Base.PyIntOfIntToString | backend/admin_audit.py:134-136 | `int(str(i))` gives `i` back for every integer |
| Base.TruncateToSecond | backend/models_admin.py:110 | `replace(microsecond=0)` is the whole second at or before the instant, less than a second earlier |
| Base.NatToStringDigits | auth.py:172 | the decimal text of a number is a non-empty run of digits whose value is the number |
| Crypto.FDecryptInverts | backend/crypto_utils.py:24-36 | `f_decrypt(f_encrypt(x))` gives `x` back, and None reads back as "", given the Fernet round trip |
| Crypto.DecryptJsonInverts | backend/crypto_utils.py:39-52 | `decrypt_json(encrypt_json(obj))` is `obj or {}` |
| Crypto.DumpsInjective | backend/models_admin.py:10-12 | two values with the same canonical JSON are equal, whenever `json.loads` inverts `json.dumps` |
| Crypto.IsoSecondsOfTruncated | backend/models_admin.py:52-57 | an instant and its second-truncated copy print the same second-precision ISO text |
| Json.OrEmpty | backend/crypto_utils.py:41 | `obj or {}`: a missing or falsy value gives {}, a truthy one is kept, and the result is never falsy unless it is {} |
| Json.OrEmptyIdempotent | models_privacy.py:63-69 | applying `or {}` twice (the `meta` setter, then the getter) is the same as applying it once |
| Json.Sent | frontend/src/AdminAudit.jsx:79 | the server receives exactly the keys the client put in `params`, each as the decimal or plain text of its value |
| ActivityChain.ComputeHashNormalises | models_privacy.py:71-80 | the digest depends on the timestamp only to the second, and a missing previous digest hashes like "" |
| ActivityChain.RowsOf | models_privacy.py:93-94 | the query keeps exactly the user's rows and never more rows than the table |
| ActivityChain.NewRowMeta | models_privacy.py:63-69 | meta that is missing or falsy is stored and read back as {}; any other meta reads back as written |
| ActivityChain.CheckMeansLinks | models_privacy.py:96-101 | a row passes both checks iff it is linked; "prev_hash mismatch" is reported iff the `prev_hash` link is wrong (it is checked first); "row_hash mismatch" only for a wrong digest |
| ActivityChain.ChainedVerifies | models_privacy.py:93-103 | a correctly linked run of rows verifies, with count = number of rows |
| ActivityChain.VerifiedMeansChained | models_privacy.py:93-103 | conversely, a run that verifies is linked throughout, so any row whose digest or `prev_hash` is wrong is reported |
| ActivityChain.VerifiesIffChained | models_privacy.py:93-103 | `verify_chain` answers ok exactly for linked runs of rows |
| ActivityChain.VerifyReportsFirstBreak | models_privacy.py:96-101 | a failure names the first row that is not linked, every row before it is linked, and the reason is the first check that row fails |
| ActivityChain.PrevForIsLastHash | models_privacy.py:83-84 | the new row links to the `row_hash` of the user's latest row, or None for the user's first row |
| ActivityChain.NewRowLinks | models_privacy.py:82-89 | the appended row's `prev_hash` is that link and its `row_hash` is the digest `verify_chain` recomputes for it |
| ActivityChain.Appends | models_privacy.py:82-91 | a sequence of appends adds exactly one row per event |
| ActivityChain.AppendsShape | models_privacy.py:82-91 | appended rows get ids 1, 2, 3, ... and every one carries a non-empty digest |
| ActivityChain.AppendsChained | models_privacy.py:82-103 | after any sequence of appends every user's rows form a linked chain as long as that user's appends |
| ActivityChain.AppendsVerify | models_privacy.py:82-103 | any sequence of appends verifies for every user, with count = that user's appends (0 for a user with none) |
| ActivityChain.AppendLeavesOtherChains | models_privacy.py:82-94 | a row appended for one user leaves every other user's chain unchanged |
| ActivityChain.AsWrittenFirstRowFails | models_privacy.py:82-91 | as written, the digest is taken before the timestamp is set, so the first row ever stored fails with "row_hash mismatch" |
| ActivityChain.ActivityLog.Append | models_privacy.py:82-91 | `append_activity` adds exactly the linked row (timestamp set before hashing) and keeps ids in order (corrected: Finding 1) |
| ActivityChain.ActivityLog.VerifyChain | models_privacy.py:93-103 | the loop answers what the chain specification answers for the user's rows in id order, and reports ok iff those rows are linked, so any tampered row is reported |
| AdminChain.ComputeHashNormalises | backend/models_admin.py:71-80 | None and "" hash alike in `target_type`, `target_id`, justification and `prev_hash`, and the timestamp counts only to the second |
| AdminChain.RowsOf | backend/models_admin.py:152-157 | the query keeps exactly the admin's rows and never more rows than the table |
| AdminChain.CheckMeansLinks | backend/models_admin.py:176-200 | a row passes both checks iff it is linked; the hash check comes first, so the prev-link reason implies a wrong `prev_hash` |
| AdminChain.ChainedVerifies | backend/models_admin.py:158-205 | a correctly linked run verifies, with count = number of rows |
| AdminChain.VerifiedMeansChained | backend/models_admin.py:146-205 | conversely, a run that verifies is linked throughout, so any row whose digest or `prev_hash` is wrong is reported |
| AdminChain.VerifiesIffChained | backend/models_admin.py:146-205 | `verify_admin_chain` answers ok exactly for linked runs of rows |
| AdminChain.VerifyReportsFirstBreak | backend/models_admin.py:176-200 | a failure names the first row that is not linked, with count = rows verified before it and the reason of the first failing check |
| AdminChain.PrevForIsLastHash | backend/models_admin.py:100-107 | `prev` is the `row_hash` of the admin's last row, or None for the admin's first row |
| AdminChain.LastRowOfIsHighest | backend/models_admin.py:101-106 | the row `order_by(desc(id)).first()` finds is the admin's row with the highest id, and there is none iff the admin has no rows |
| AdminChain.NewRowLinks | backend/models_admin.py:109-138 | the stored row decrypts to its canonical meta and justification, and its `row_hash` is the digest the verifier recomputes from them and `prev` |
| AdminChain.NewRowExtendsChain | backend/models_admin.py:85-143 | appending to a linked chain leaves a linked chain |
| AdminChain.Appends | backend/models_admin.py:85-143 | a sequence of appends adds exactly one row per event |
| AdminChain.AppendsShape | backend/models_admin.py:129-139 | appended rows get ids 1, 2, 3, ... and every one carries a non-empty digest |
| AdminChain.AppendsChained | backend/models_admin.py:85-143 | after any sequence of appends every admin's rows form a linked chain as long as that admin's appends |
| AdminChain.AppendsVerify | backend/models_admin.py:146-205 | any sequence of appends verifies for every admin, with count = that admin's appends |
| AdminChain.AppendLeavesOtherChains | backend/models_admin.py:152-157 | a row appended for one admin does not change the verification result of any other admin |
| AdminChain.IntTargetIdBreaksChain | backend/models_admin.py:117-139 | as written, a row whose `target_id` is an integer is hashed over the integer but stored as text, so it fails with a hash mismatch at count 0 |
| AdminChain.AdminActivityLog.Append | backend/models_admin.py:85-143 | `append_admin_activity` adds exactly the linked row (target id hashed as stored) and keeps ids in order (corrected: Finding 2) |
| AdminChain.AdminActivityLog.VerifyAdminChain | backend/models_admin.py:146-205 | the loop answers what the chain specification answers for the admin's rows in id order, and reports ok iff those rows are linked, so any tampered row is reported |
| AuthServer.LowerIdempotent | auth.py:42 | lower-casing twice is lower-casing once |
| AuthServer.NormalizeEmail | auth.py:41-42 | the result is stripped and has no upper-case letter, and None gives "" |
| AuthServer.NormalizeEmailIdempotent | auth.py:41-42 | normalising an already normalised address changes nothing |
| AuthServer.NormalizedIsLower | auth.py:41-42 | a normalised address has no upper-case letter left to lower |
| AuthServer.BearerToken | auth.py:91-94 | a header gives a token iff it starts with "Bearer ", and the token is the rest of the header, stripped |
| AuthServer.AfterFirstSpaceOfBearer | auth.py:94 | for a bearer header, `split(' ', 1)[1]` is the text after "Bearer " |
| AuthServer.FindUserById | auth.py:97 | the lookup finds a user with that id, or reports that none has it |
| AuthServer.RequireAuth | auth.py:88-105 | every refusal is a 401, a header without "Bearer " gives "Missing token", and a caller is authenticated iff the token decodes to the id of an existing user |
| AuthServer.RequireRole | auth.py:107-115 | an authentication refusal (401) wins over the role check, a 403 means an authenticated user with a role outside the list, and the caller passes iff authenticated with a listed role |
| AuthServer.FindUserByEmail | auth.py:128 | the lookup finds a user whose lower-cased address equals the given one, or reports that none has it |
| AuthServer.FindToken | auth.py:204 | the lookup finds a token row with that hash, or reports that none has it |
| AuthServer.RevokeAllFor | auth.py:259 | the bulk update revokes every token of the user, keeps every other token's state, and changes no other column |
| AuthServer.RotationRefusesReplay | auth.py:66-71 | after a rotation the presented token is refused at any later time, and the new token is accepted and belongs to the same user |
| AuthServer.RevokeAllRefusesUser | auth.py:258-260 | after the bulk revoke no token of the user is accepted, and other users' tokens are accepted exactly as before |
| AuthServer.CooldownWait | auth.py:167-172 | a wait is due iff the last code went out under 30 seconds ago; the wait is the whole seconds left, rounded down, and at most 30 when the last send is not later than now |
| AuthServer.ReadRegisterForm | auth.py:120-123 | the e-mail is normalised, the password and invite code are stripped, and the role is stripped and lower-cased with "user" by default |
| AuthServer.RegisterRefusal | auth.py:123-136 | the refusals come in the handler's order (invalid role, missing e-mail or password, existing user, invite disabled, wrong invite code); no refusal iff all checks pass |
| AuthServer.ChangePasswordRefusal | auth.py:245-252 | the refusals come in the handler's order (missing fields, wrong current password, shorter than 8, same as the current one); no refusal iff all checks pass |
| AuthServer.ChangeEmailRefusal | auth.py:277-285 | the refusals come in the handler's order (missing fields, wrong password, e-mail taken by another user); no refusal iff all checks pass |
| AuthServer.ChangeRoleRefusal | auth.py:405-414 | the refusals come in the handler's order (invalid role, justification under 5 characters, unknown target, own id); no refusal iff all checks pass |
| AuthServer.RegisterKeepsUsersValid | auth.py:128-141 | registering a free, normalised e-mail keeps ids in order and addresses unique |
| AuthServer.UpdateKeepsUsersValid | auth.py:283-290 | changing a user to an address no other user has keeps ids in order and addresses unique |
| AuthServer.FreeEmailIsFree | auth.py:283-285 | an address not taken by another user (compared lower-case) differs from every other user's stored address |
| AuthServer.AuthDb.Register | auth.py:118-143 | `register` refuses as `RegisterRefusal` says and changes nothing, or appends the new user with the next id |
| AuthServer.AuthDb.Refresh | auth.py:198-213 | missing cookie gives 401; an unknown, revoked or expired token gives 401 and clears the cookie; an accepted one is rotated and a token for its user is issued |
| AuthServer.AuthDb.Logout | auth.py:215-226 | the answer is always 200 "Logged out" with the cookie cleared, and exactly the presented token, if known, is revoked |
| AuthServer.AuthDb.StampOtp | auth.py:167-178 | within the cooldown a 429 with the wait message leaves `last_otp_at` alone; otherwise `last_otp_at` becomes now |
| AuthServer.AuthDb.ResendOtp | auth.py:160-178 | unknown e-mail gives 404; otherwise the cooldown rule applies, with "OTP resent" on success |
| AuthServer.AuthDb.AdminResendOtp | auth.py:319-342 | as `resend_otp`, with a 403 for a user who is not an admin before the cooldown check |
| AuthServer.AuthDb.ChangePassword | auth.py:238-268 | a refusal changes nothing; success stores the new hash, revokes all the user's tokens, logs PASSWORD_CHANGED and clears the cookie (corrected: Finding 1) |
| AuthServer.AuthDb.ChangeEmail | auth.py:270-295 | a refusal changes nothing; success stores the new address and logs EMAIL_CHANGED with the old and new address (corrected: Finding 1) |
| AuthServer.AuthDb.AdminChangeRole | auth.py:398-430 | a refusal changes nothing; success sets the target's role and appends ADMIN_ROLE_CHANGED with the old and new role and the justification to the admin chain (corrected: Finding 2) |
| AuthServer.AuthDb.SetRole | auth.py:416-428 | the target's role becomes the new one, no other user changes, and exactly one ADMIN_ROLE_CHANGED row with the old and new role and the justification is appended to the admin chain (corrected: Finding 2) |
| PrivacyApi.WordsDisjoint | backend/privacy.py:43-44 | no word is both a true word and a false word |
| PrivacyApi.ToBool | backend/privacy.py:36-45 | booleans pass through, integers are true iff non-zero, the five true and five false words (stripped, any case) give True and False, other text is true iff non-empty |
| PrivacyApi.ToBoolReadsBack | backend/privacy.py:36-45 | a boolean, 1/0 and "true"/"false" all read back as the boolean they stand for |
| PrivacyApi.BlankTextIsTrue | backend/privacy.py:41-45 | a string of blanks strips to "", matches no word, and is therefore True |
| PrivacyApi.WithField | backend/privacy.py:116 | `setattr` changes exactly the named flag |
| PrivacyApi.AppliedFields | backend/privacy.py:111-116 | after the loop each flag present in the body holds the body's coerced value, and every other flag is unchanged |
| PrivacyApi.DiffExactly | backend/privacy.py:111-117 | `changed` has an entry for a key iff the key is one of the four flags, is in the body and its coerced value differs; each entry holds the old and new value, and no key appears twice |
| PrivacyApi.ReapplyingChangesNothing | backend/privacy.py:111-120 | sending the same body again finds no change |
| PrivacyApi.OtherKeysIgnored | backend/privacy.py:111 | bodies that agree on the four flags give the same changes and the same row |
| PrivacyApi.ChangesJson | backend/privacy.py:117 | the `changed` object has exactly the changed keys |
| PrivacyApi.Ensured | backend/privacy.py:20-26 | `_ensure_settings` creates a row with the defaults only when the user has none, and leaves every other row alone |
| PrivacyApi.EnsuredIdempotent | backend/privacy.py:20-26 | ensuring twice is ensuring once |
| PrivacyApi.NonObjectReply | backend/privacy.py:111-120 | a body that is not an object answers "No changes" iff no flag name is in it; otherwise the handler fails with a 500 |
| PrivacyApi.ConsentRows | backend/privacy.py:125-126 | one "updated" consent row per changed key, in order, with the next ids and no version |
| PrivacyApi.TextArg | backend/privacy.py:160-162 | a missing or falsy argument reads as "", text reads as itself, and any other truthy value makes `.strip()` fail |
| PrivacyApi.CheckConsent | backend/privacy.py:160-164 | a consent is accepted iff the stripped item is non-empty and the stripped, lower-cased action is one of the three; a blank version becomes None |
| PrivacyApi.ReadConsent | backend/privacy.py:155-164 | a body whose fields are not text fails (500); otherwise the three arguments go to the checks |
| PrivacyApi.ReadConsentRecordable | backend/privacy.py:160-164 | every consent the handler accepts has a non-blank stripped item, a canonical action and a non-blank version or none |
| PrivacyApi.ActionIsCanonical | backend/privacy.py:162-163 | the three actions are already stripped and lower-case |
| PrivacyApi.ConsentBodyArgs | backend/privacy.py:160-162 | the body a client sends for a consent yields its own item, version and action |
| PrivacyApi.ReadConsentOfObject | backend/privacy.py:155-164 | an object body with text arguments goes straight to the checks |
| PrivacyApi.CheckConsentOfRecordable | backend/privacy.py:160-164 | the checks accept a recordable consent's texts unchanged |
| PrivacyApi.ReadConsentRoundTrip | backend/privacy.py:155-164 | every recordable consent, sent as a body, is read back as itself |
| PrivacyApi.ReadConsentRefusesMissingItem | backend/privacy.py:163-164 | a body without an item is refused as an invalid payload, whatever the action |
| PrivacyApi.NewestFirst | backend/privacy.py:187 | `order_by(id.desc()).limit(n)` gives the last n rows in reverse order |
| PrivacyApi.ActivityLimit | backend/privacy.py:181-185 | the page size is 50 when missing or not an integer, otherwise the integer clamped to [1, 200] |
| PrivacyApi.ActivityLimitReadsBack | backend/privacy.py:181-185 | a page size from 1 to 200 written in decimal is used as it is |
| PrivacyApi.ConsentsOf | backend/privacy.py:144 | the query keeps exactly the user's consent rows |
| PrivacyApi.MyActivity | backend/privacy.py:187-197 | the listing holds only the user's rows, at most 200 and at most as many as the user has |
| PrivacyApi.ListConsents | backend/privacy.py:143-148 | the listing holds only the user's consents, at most 200 |
| PrivacyApi.ActivityRowsOfAscending | backend/privacy.py:187 | the user's rows, as the query finds them, keep ascending id order |
| PrivacyApi.MyActivityNewestFirst | backend/privacy.py:187 | the listing shows the user's rows strictly newest id first |
| PrivacyApi.ConsentEvent | backend/privacy.py:170 | the activity event is "CONSENT_" followed by the action |
| PrivacyApi.ConsentMeta | backend/privacy.py:170 | the activity meta holds exactly the item and the version, null when absent |
| PrivacyApi.ApplyBody | backend/privacy.py:111-117 | the loop leaves the row and `changed` that the diff specification gives |
| PrivacyApi.PrivacyMeta | backend/privacy.py:124 | the activity meta is exactly `{"changed": changed}` |
| PrivacyApi.PrivacyDb.EnsureSettings | backend/privacy.py:20-26 | the table becomes `Ensured`, and the row returned is the user's |
| PrivacyApi.PrivacyDb.AddUpdatedConsents | backend/privacy.py:125-126 | exactly the consent rows of `ConsentRows` are added, keeping ids in order |
| PrivacyApi.PrivacyDb.ApplySettings | backend/privacy.py:108-129 | no change answers "No changes" and writes nothing; otherwise the row is updated, one PRIVACY_UPDATED activity and one consent per changed key are added (corrected: Finding 1) |
| PrivacyApi.PrivacyDb.UpdatePrivacySettings | backend/privacy.py:101-138 | a body that is not JSON is a 400 and writes nothing; otherwise the settings row is ensured and the body applied as above |
| PrivacyApi.PrivacyDb.AddConsent | backend/privacy.py:167-170 | one consent row and one CONSENT_ activity row are added |
| PrivacyApi.PrivacyDb.RecordConsent | backend/privacy.py:153-175 | a body that is not JSON is a 400, an invalid payload a 400, a malformed one a 500, each writing nothing; an accepted consent is a 201 with its row and activity (corrected: Finding 1) |
| AdminAudit.ParseDt | backend/admin_audit.py:14-22 | a missing, falsy or non-text value is no bound |
| AdminAudit.ParseDtIgnoresZulu | backend/admin_audit.py:20 | a trailing 'Z' is ignored: the text with and without it bound alike |
| AdminAudit.EmailTakesPrecedence | backend/admin_audit.py:27-34 | a non-blank e-mail selects the user with that address, or nothing when there is none, whatever `admin_id` says |
| AdminAudit.NormalisedNonBlank | backend/admin_audit.py:28-30 | text that normalises to a non-blank address is itself non-blank |
| AdminAudit.AdminIdOrCaller | backend/admin_audit.py:35-38 | without an e-mail, a non-zero integer `admin_id` selects that admin and anything else the caller |
| AdminAudit.NoFiltersMatchAll | backend/admin_audit.py:46-55 | blank filters keep every row |
| AdminAudit.ActionFilterIgnoresCase | backend/admin_audit.py:47 | the action filter keeps a row iff its action contains the text, ignoring case |
| AdminAudit.DefaultOrder | backend/admin_audit.py:57-58 | without sort arguments rows come by id, descending |
| AdminAudit.UnknownColumnSortsById | backend/admin_audit.py:59-66 | a column name outside the map sorts by id |
| AdminAudit.DefaultSelection | backend/admin_audit.py:24-68 | with no arguments an admin sees their own rows, unfiltered, newest id first |
| AdminAudit.NoArgumentsNoFilters | backend/admin_audit.py:40-55 | no arguments means no filters |
| AdminAudit.UnknownEmailSelectsNothing | backend/admin_audit.py:30-33 | an e-mail no user has selects no row |
| AdminAudit.AllHoldSnoc | backend/admin_audit.py:46-55 | adding a filter keeps exactly the rows that passed before and pass it |
| AdminAudit.BuildQuery | backend/admin_audit.py:24-68 | the query keeps exactly the rows the arguments ask for, in their order; a non-text argument where text is expected raises |
| AdminAudit.AddFilters | backend/admin_audit.py:46-55 | the conditions added keep exactly the rows that match every non-blank filter |
| AdminAudit.Filter | backend/admin_audit.py:46-55 | filtering keeps exactly the accepted rows and no more rows than it had |
| AdminAudit.FilterAgrees | backend/admin_audit.py:46-55 | two filters that accept the same rows give the same result |
| AdminAudit.FilterKeepsIdOrder | backend/admin_audit.py:46-55 | filtering keeps ascending id order |
| AdminAudit.TextLeqTotal | backend/admin_audit.py:62-64 | the text collation orders any two texts |
| AdminAudit.TextLeqTrans | backend/admin_audit.py:62-64 | the text collation is transitive |
| AdminAudit.ValueLeqTotal | backend/admin_audit.py:59-66 | column values (NULL, numbers, text) are totally ordered |
| AdminAudit.ValueLeqTrans | backend/admin_audit.py:59-66 | that order is transitive |
| AdminAudit.BeforeTotal | backend/admin_audit.py:67 | any two rows can be placed by the requested order and direction |
| AdminAudit.BeforeTrans | backend/admin_audit.py:67 | placing by the requested order is transitive |
| AdminAudit.Insert | backend/admin_audit.py:67 | inserting adds exactly the one row |
| AdminAudit.SortRows | backend/admin_audit.py:67 | sorting is a permutation of the rows |
| AdminAudit.InsertSorted | backend/admin_audit.py:67 | inserting into a sorted sequence keeps it sorted |
| AdminAudit.InsertKeepsTies | backend/admin_audit.py:67 | inserting a row with a higher id keeps ties in id order |
| AdminAudit.SortRowsSorted | backend/admin_audit.py:67 | the sorted rows follow the requested column and direction |
| AdminAudit.SortRowsKeepsTies | backend/admin_audit.py:67 | rows that tie on the column stay in ascending id order |
| AdminAudit.RunMeansSelect | backend/admin_audit.py:24-68 | a query built for a selection returns exactly what the selection asks for |
| AdminAudit.SelectContents | backend/admin_audit.py:24-68 | the selection holds every wanted row of the table once, and only those, sorted as asked |
| AdminAudit.SelectTiesById | backend/admin_audit.py:138-139 | ties come out in ascending id order, which is what the export's `id.asc()` adds |
| AdminAudit.Page | backend/admin_audit.py:112 | a page holds at most `limit` rows, taken in order from `offset` on; a negative limit means no limit |
| AdminAudit.PagesCoverRows | backend/admin_audit.py:109-112 | paging by `offset += limit` visits every row once, in order |
| AdminAudit.PageIsSlice | backend/admin_audit.py:112 | for a positive limit a page is the slice from `offset` of at most `limit` rows |
| AdminAudit.NegativeLimitListsEverything | backend/admin_audit.py:109 | as written, `limit=-1` passes the cap of 500 and the page lists every row |
| AdminAudit.MinusOneLimit | backend/admin_audit.py:109 | as written, "-1" gives the limit -1 |
| AdminAudit.PageLimit | backend/admin_audit.py:109 | the page size is between 1 and 500, and equals the written limit whenever that is positive |
| AdminAudit.PageIsCapped | backend/admin_audit.py:109-112 | a listed page never holds more than 500 rows |
| AdminAudit.Dicts | backend/admin_audit.py:115 | one dictionary per row |
| AdminAudit.DictHasEveryColumn | backend/admin_audit.py:70-82 | `_row_to_dict` has exactly the ten column keys |
| AdminAudit.CsvRecordShape | backend/admin_audit.py:95-103 | a CSV record has one cell per header column, and the justification cell holds no newline |
| AdminAudit.CsvIdsMatchDict | backend/admin_audit.py:98-99 | the id and admin id cells hold the dictionary's values |
| AdminAudit.CsvTextMatchesDict | backend/admin_audit.py:99 | the timestamp and action cells hold the dictionary's text |
| AdminAudit.CsvNullableMatchesDict | backend/admin_audit.py:100-102 | a NULL target or hash is an empty cell and a JSON null |
| AdminAudit.CsvNotesMatchDict | backend/admin_audit.py:101 | the meta cell is the canonical JSON of the dictionary's meta, and the justification cell is its text with newlines escaped |
| AdminAudit.JustificationEscapeMerges | backend/admin_audit.py:101 | the escape cannot be undone: a newline and the two characters `\n` give the same cell |
| AdminAudit.CsvRecords | backend/admin_audit.py:95-103 | the loop writes the header and one record per row, in order |
| AdminAudit.CsvExportIsCapped | backend/admin_audit.py:91-95 | the CSV export has the header first and at most 5000 records |
| AdminAudit.ListAdminActivity | backend/admin_audit.py:84-119 | the handler answers for exactly the selected rows, or fails where the query cannot be built (corrected: Finding 4) |
| AdminAudit.ListedPage | backend/admin_audit.py:109-119 | a JSON listing has `count` = all selected rows, at most `limit` (≤ 500) items, each a wanted row of the table (corrected: Finding 4) |
| AdminAudit.MergeArgs | backend/admin_audit.py:126-136 | the loop computes the merged arguments the specification gives |
| AdminAudit.CopyFilters | backend/admin_audit.py:130-133 | copying the filters one by one gives the query overridden by the filters |
| AdminAudit.CopyStep | backend/admin_audit.py:131-133 | one copy step extends the overridden part by one key |
| AdminAudit.RestrictAll | backend/admin_audit.py:131-133 | once every key is copied, all the filters are in |
| AdminAudit.ExportFiltersOverride | backend/admin_audit.py:130-133 | a body filter replaces the query argument of the same name |
| AdminAudit.ExportAdminIdWins | backend/admin_audit.py:134-138 | a non-zero integer `admin_id` in the body selects that admin's rows |
| AdminAudit.MergedAdminId | backend/admin_audit.py:134-136 | the body's `admin_id` arrives as its decimal text |
| AdminAudit.ExportAdminActivity | backend/admin_audit.py:123-146 | the export holds one dictionary per selected row, or fails where the body or the query is malformed |
| AuthStore.GetOrEmpty | frontend/src/auth.js:10 | `getItem(k) \|\| ''` is "" iff the stored value is missing or empty, and otherwise the stored value |
| AuthStore.ClearedAuth | frontend/src/auth.js:58-69 | exactly the six auth keys are gone and every other key keeps its value |
| AuthStore.ClearedAuthIdempotent | frontend/src/auth.js:58-69 | clearing twice is clearing once |
| AuthStore.UserOtpDoneEndsFlow | frontend/src/VerifyOTP.jsx:56-59 | after the user page accepts a token, it is stored, the user flow is over, the admin flow is untouched and no other key changes |
| AuthStore.AdminOtpDoneEndsFlow | frontend/src/AdminVerifyOTP.jsx:56-58 | after the admin page accepts a token, it is stored, the admin flow is over, the user flow is untouched and no other key changes |
| AuthStore.Store.constructor | frontend/src/auth.js:5 | the store starts with the given items |
| AuthStore.Store.GetToken | frontend/src/auth.js:5 | the token is present iff the key is stored, and is its value |
| AuthStore.Store.IsAuthenticated | frontend/src/auth.js:6 | authenticated iff a non-empty token is stored |
| AuthStore.Store.SaveToken | frontend/src/auth.js:7 | the token is stored and read back; authenticated iff it is non-empty |
| AuthStore.Store.RemoveToken | frontend/src/auth.js:71 | the token key is gone and the store is not authenticated |
| AuthStore.Store.GetRole | frontend/src/auth.js:10 | "" iff no non-empty role is stored |
| AuthStore.Store.SetRole | frontend/src/auth.js:11-13 | a non-empty role is stored and read back; an empty or missing one changes nothing |
| AuthStore.Store.ClearRole | frontend/src/auth.js:14 | only the role key is removed |
| AuthStore.Store.GetPendingEmail | frontend/src/auth.js:17-18 | "" iff no non-empty address is stored |
| AuthStore.Store.SetPendingEmail | frontend/src/auth.js:20-22 | a non-empty address is stored and read back, an empty one changes nothing, and the admin flow is untouched |
| AuthStore.Store.ClearPendingEmail | frontend/src/auth.js:24-25 | only that key is removed and the admin flow is untouched |
| AuthStore.Store.SetAwaitingOtp | frontend/src/auth.js:27-30 | true stores '1', false removes the key; the flag reads back as set, and the admin flow is untouched |
| AuthStore.Store.IsAwaitingOtp | frontend/src/auth.js:32-33 | true iff the stored value is exactly '1' |
| AuthStore.Store.GetPendingAdminEmail | frontend/src/auth.js:39-40 | "" iff no non-empty address is stored |
| AuthStore.Store.SetPendingAdminEmail | frontend/src/auth.js:42-44 | a non-empty address is stored and read back, an empty one changes nothing, and the user flow is untouched |
| AuthStore.Store.ClearPendingAdminEmail | frontend/src/auth.js:46-47 | only that key is removed and the user flow is untouched |
| AuthStore.Store.SetAwaitingAdminOtp | frontend/src/auth.js:49-52 | true stores '1', false removes the key; the flag reads back as set, and the user flow is untouched |
| AuthStore.Store.IsAwaitingAdminOtp | frontend/src/auth.js:54-55 | true iff the stored value is exactly '1' |
| AuthStore.Store.ClearAllAuth | frontend/src/auth.js:58-69 | the store becomes `ClearedAuth` of what it was, and every getter reads empty |
| AuthStore.Store.Logout | frontend/src/auth.js:72-80 | whether or not the server call fails, the store ends as `ClearedAuth` of what it was |
| Api.AttachToken | frontend/src/api.js:11-15 | a stored non-empty token is attached as `Bearer <token>` and nothing else changes; otherwise the request is untouched |
| Api.AttachTokenIdempotent | frontend/src/api.js:11-15 | attaching twice is attaching once |
| Api.Outcome | frontend/src/api.js:52-68 | a refresh gives a token iff it answered with a non-empty one; an answer without a token fails exactly as a failed call does |
| Api.Settle | frontend/src/api.js:21-27 | `processQueue` settles every queued entry once, in queue order |
| Api.RefreshCoordinator.constructor | frontend/src/api.js:18-19 | the coordinator starts idle with an empty queue |
| Api.RefreshCoordinator.Outgoing | frontend/src/api.js:11-15 | a request keeps its id, retry mark and other headers; a stored non-empty token sets `Authorization: Bearer <token>`; with no token, a request without its own Authorization header gets the axios default one (set at `frontend/src/api.js:65`); otherwise it goes out unchanged |
| Api.WithDefault | frontend/src/api.js:65 | axios merges the default Authorization header into a request only when the request has none of its own; nothing else changes |
| Api.StaleDefaultAfterLogout | frontend/src/api.js:65 | after a successful refresh and a logout that clears the store, a new request still goes out with the old `Bearer` header, because the default header is never removed |
| Api.RefreshCoordinator.OnError | frontend/src/api.js:31-79 | a 401 on a request not yet retried is queued while a refresh runs, or marks it retried and starts exactly one refresh; any other error leaves everything unchanged |
| Api.RefreshCoordinator.ProcessQueue | frontend/src/api.js:21-27 | the queue's settlements are emitted in order and the queue is emptied |
| Api.RefreshCoordinator.CompleteRefresh | frontend/src/api.js:52-76 | success stores the token, re-sends the queue with it and retries the original; failure rejects the queue, removes the token and redirects to /login; either way the coordinator ends idle |
| Api.ResentRequestsCarryToken | frontend/src/api.js:40-43 | every re-sent request carries the new token, exactly as the request interceptor would attach it |
| Api.ConcurrentRefreshScenario | frontend/src/api.js:35-67 | two 401s and a retried request give one refresh call, the queued request re-sent before the original, and a second 401 on the replay starts another refresh |
| OtpCooldown.Normalised | frontend/src/VerifyOTP.jsx:72-73 | the normalised address is blank iff the trimmed one is |
| OtpCooldown.AcceptedToken | frontend/src/VerifyOTP.jsx:54 | a token is taken iff the answer succeeded with a non-empty token |
| OtpCooldown.Tick | frontend/src/VerifyOTP.jsx:24-31 | a tick maps s ≤ 1 to 0 and other s to s − 1, so it never goes negative |
| OtpCooldown.TicksReachZero | frontend/src/VerifyOTP.jsx:21-33 | after n ticks a countdown from s shows s − n, and 0 from the s-th tick on |
| OtpCooldown.TicksStayZero | frontend/src/VerifyOTP.jsx:22 | a countdown at 0 stays at 0 |
| OtpCooldown.ResendPostsOnlyWhenIdle | frontend/src/VerifyOTP.jsx:70-77 | a resend posts iff the address is not blank and no countdown runs, and posts the normalised address; a blank address sets the message, a running countdown changes nothing |
| OtpCooldown.ResendCooldownRunsDown | frontend/src/VerifyOTP.jsx:79-82 | the countdown never goes negative; a successful resend sets it to 30, which runs out after exactly 30 ticks |
| OtpCooldown.ResendAdoptsServerWait | frontend/src/VerifyOTP.jsx:83-87 | a refusal carrying the server's "Please wait Ns" message sets the countdown to N and shows the message |
| OtpCooldown.MatchAt | frontend/src/VerifyOTP.jsx:86 | a match captures a non-empty run of digits |
| OtpCooldown.FirstMatch | frontend/src/VerifyOTP.jsx:86 | the first match captures a non-empty run of digits |
| OtpCooldown.NoMatchInGreeting | frontend/src/VerifyOTP.jsx:86 | the pattern does not match inside "Please " |
| OtpCooldown.MatchAfterGreeting | frontend/src/VerifyOTP.jsx:86 | in "Please wait <digits>s..." the match captures exactly the digits |
| OtpCooldown.WaitMessageRoundTrip | frontend/src/VerifyOTP.jsx:84-87 | the client reads back the wait the server wrote into "Please wait {wait}s before requesting another OTP." (auth.py:172) |
| VerifyOtpPage.EndFlow | frontend/src/VerifyOTP.jsx:56-59 | save token, clear the pending address and the awaiting flag: the store becomes `UserOtpDone` |
| VerifyOtpPage.Page.constructor | frontend/src/VerifyOTP.jsx:10-16 | the page starts with empty fields, not verifying, no countdown |
| VerifyOtpPage.Page.TickCooldown | frontend/src/VerifyOTP.jsx:24-31 | one tick of the countdown, strictly down while positive; nothing else changes |
| VerifyOtpPage.Page.HandleVerify | frontend/src/VerifyOTP.jsx:42-68 | posts the normalised address and trimmed code, shows the answer's message or a default, ends the flow and goes to /dashboard iff a token came back, and ends not verifying |
| VerifyOtpPage.Page.TakeAnswer | frontend/src/VerifyOTP.jsx:52-64 | the answer's message and the token handling, as above |
| VerifyOtpPage.Page.HandleResend | frontend/src/VerifyOTP.jsx:70-89 | what is posted, the message and the new countdown are what `Resend` gives for the page's address and countdown |
| AdminVerifyOtpPage.EndFlow | frontend/src/AdminVerifyOTP.jsx:56-58 | save token, clear the awaiting flag and the pending address: the store becomes `AdminOtpDone` |
| AdminVerifyOtpPage.Page.constructor | frontend/src/AdminVerifyOTP.jsx:15-20 | the address field starts as the stored pending admin address; the rest empty, no countdown |
| AdminVerifyOtpPage.Page.TickCooldown | frontend/src/AdminVerifyOTP.jsx:28-35 | one tick of the countdown, strictly down while positive; nothing else changes |
| AdminVerifyOtpPage.Page.HandleVerify | frontend/src/AdminVerifyOTP.jsx:46-66 | as the user page, ending the admin flow and going to /admin/users iff a token came back |
| AdminVerifyOtpPage.Page.TakeAnswer | frontend/src/AdminVerifyOTP.jsx:53-62 | the answer's message and the token handling, as above |
| AdminVerifyOtpPage.Page.HandleResend | frontend/src/AdminVerifyOTP.jsx:68-89 | what is posted, the message and the new countdown are what `Resend` gives, with the admin texts |
| AdminAuditPage.PageNumber | frontend/src/AdminAudit.jsx:37 | the page number r is the one whose block of `limit` rows contains `offset`, and at least 1 |
| AdminAuditPage.CeilDiv | frontend/src/AdminAudit.jsx:39 | `Math.ceil(n / limit)` is the least r with n ≤ r·limit |
| AdminAuditPage.TotalPages | frontend/src/AdminAudit.jsx:38-41 | at least 1, and for a positive count the number of blocks of `limit` rows that holds them |
| AdminAuditPage.PageWithinTotal | frontend/src/AdminAudit.jsx:37-41 | an offset inside the rows is on a page from 1 to the total |
| AdminAuditPage.NextDisabledOnLastPage | frontend/src/AdminAudit.jsx:173-174 | on a page boundary, Next is disabled iff the page shown is the last one |
| AdminAuditPage.BuildParams | frontend/src/AdminAudit.jsx:60-73 | limit, offset, `sort_by` and `sort_dir` are always sent with the page's values, and no other names than the nine are sent |
| AdminAuditPage.FiltersRoundTrip | frontend/src/AdminAudit.jsx:67-71 | each of the five filters is sent as its own text, so reading a missing one as "" gives every filter back |
| AdminAuditPage.FiltersSentWhenSet | frontend/src/AdminAudit.jsx:67-71 | each filter is sent iff it is non-empty |
| AdminAuditPage.ServerPagesAsAsked | frontend/src/AdminAudit.jsx:61-63 | the server pages with exactly the page size and offset the page sent |
| AdminAuditPage.LimitArrives | frontend/src/AdminAudit.jsx:62 | a sent limit below 500 is used by the server as it is |
| AdminAuditPage.ServerSortsAsAsked | frontend/src/AdminAudit.jsx:64-65 | the server sorts by the column and direction the page sent |
| AdminAuditPage.NumberArrives | frontend/src/AdminAudit.jsx:62-63 | a number the page sends reaches the server as that integer |
| AdminAuditPage.CountOf | frontend/src/AdminAudit.jsx:81 | a non-zero count is the one the server sent |
| AdminAuditPage.AuditPage.Page | frontend/src/AdminAudit.jsx:37 | the page shown is at least 1 |
| AdminAuditPage.AuditPage.constructor | frontend/src/AdminAudit.jsx:18-32 | the page starts with no filters, sorted by id descending, 20 rows from offset 0, "Loading..." |
| AdminAuditPage.AuditPage.ApplyPreset | frontend/src/AdminAudit.jsx:97-100 | the action becomes the preset, the offset 0, and nothing else changes |
| AdminAuditPage.AuditPage.ClearFilters | frontend/src/AdminAudit.jsx:102-109 | the five filters are emptied, the offset becomes 0, sort and page size stay |
| AdminAuditPage.AuditPage.SetQuickRange | frontend/src/AdminAudit.jsx:111-119 | since and until become the given dates, the offset 0, and nothing else changes |
| AdminAuditPage.AuditPage.PrevPage | frontend/src/AdminAudit.jsx:168-171 | nothing at offset 0; otherwise one page back, with the offset staying ≥ 0 |
| AdminAuditPage.AuditPage.NextPage | frontend/src/AdminAudit.jsx:173-176 | nothing when offset + limit ≥ count; otherwise one page on, with the offset below count and the page within the total |
| AdminAuditPage.AuditPage.ChangeLimit | frontend/src/AdminAudit.jsx:178-181 | the page size changes and the offset becomes 0 |
| AdminAuditPage.AuditPage.Load | frontend/src/AdminAudit.jsx:75-90 | a success takes the server's count and clears the message; a failure sets count 0 and the error message; the controls do not change |
| AdminAuditPage.PageStep | frontend/src/AdminAudit.jsx:175 | advancing by one page from a page boundary lands on the next boundary, one page number on |
| AdminActivityPage.ParamsAsWritten | frontend/src/AdminActivity.jsx:27-33 | as written, limit and offset are always sent, and no `since` or `until` ever is |
| AdminActivityPage.DateRangeIgnoredAsWritten | frontend/src/AdminActivity.jsx:30-31 | as written, the server reads no date bound whatever dates are chosen |
| AdminActivityPage.Params | frontend/src/AdminActivity.jsx:27-33 | limit and offset are always sent; the trimmed action iff it is not blank; each date iff it is set, under the names the server reads; no other name is sent (corrected: Finding 5) |
| AdminActivityPage.DateRangeArrives | frontend/src/AdminActivity.jsx:30 | with the corrected names the server bounds by the chosen start date |
| AdminActivityPage.NextNeverEnabledAsWritten | frontend/src/AdminActivity.jsx:41 | as written, the total read is the number of items on the page, so Next is never enabled |
| AdminActivityPage.NextEnabledIffMoreRows | frontend/src/AdminActivity.jsx:25 | with `count` read, the total is the number of selected rows and Next is enabled iff rows remain after this page |
| AdminActivityPage.ListedAsAsked | frontend/src/AdminActivity.jsx:39 | the server answers the page's query with the JSON page of `limit` rows from `offset` and the full count (corrected: Finding 5) |
| AdminActivityPage.JsonListing | frontend/src/AdminActivity.jsx:39 | without `format` the server answers with the JSON page for the limit and offset it read |
| AdminActivityPage.PageJsonFields | frontend/src/AdminActivity.jsx:40-41 | the server's body has `count` and `items` but no `total` |
| AdminActivityPage.ServerPagesAsAsked | frontend/src/AdminActivity.jsx:28 | the server pages with exactly the page size and offset the page sent |
| AdminActivityPage.FormatIsJson | frontend/src/AdminActivity.jsx:39 | without a `format` parameter the server does not take the CSV branch |
| AdminActivityPage.ChainResultOk | frontend/src/AdminActivity.jsx:63-68 | the result is ok iff the server answered a truthy `ok`; a failure with a reason shows "Break at id=X: reason" |
| AdminActivityPage.RemovedRouteFails | frontend/src/AdminActivity.jsx:69-76 | a failed call whose body has no reason and no message shows "Verification failed" |
| AdminActivityPage.ActivityPage.constructor | frontend/src/AdminActivity.jsx:8-22 | the page starts with no filters, 20 rows from offset 0, total 0, "Loading..." |
| AdminActivityPage.ActivityPage.Prev | frontend/src/AdminActivity.jsx:206 | the offset becomes max(0, offset − limit), strictly smaller; filters and total stay |
| AdminActivityPage.ActivityPage.Next | frontend/src/AdminActivity.jsx:209 | the offset grows by limit and stays below total; filters and total stay |
| AdminActivityPage.ActivityPage.ChangeLimit | frontend/src/AdminActivity.jsx:133 | the page size changes, the offset becomes 0 and Prev is disabled |
| AdminActivityPage.ActivityPage.ApplyFilters | frontend/src/AdminActivity.jsx:82-87 | the offset becomes 0 and the filters stay |
| AdminActivityPage.ActivityPage.ClearFilters | frontend/src/AdminActivity.jsx:89-94 | the three filters are emptied and the offset becomes 0; the page size stays |
| AdminActivityPage.ActivityPage.Load | frontend/src/AdminActivity.jsx:35-51 | a success takes the items and the server's count, with "No admin activity found." for an empty result; a failure clears the rows, keeps the total and shows the error (corrected: Finding 3) |
| AdminActivityPage.ActivityPage.VerifyChain | frontend/src/AdminActivity.jsx:58-80 | the result shown is `ChainResult` of the answer, and verifying ends |
| AdminActivityPage.ClearedQuery | frontend/src/AdminActivity.jsx:89-94 | after clearing, only limit and offset are sent (corrected: Finding 5) |

## Left out

- I/O is not modelled: HTTP transport, cookies as browser state, `window.location`, the `setInterval` timer handle, `console` and `print` output. Each becomes an event, a parameter or a returned value.
- Database sessions, commits, rollbacks and database errors are not modelled. The 500 answers for `SQLAlchemyError` and unexpected exceptions in `backend/privacy.py` are left out, except a body that is not an object or has non-text fields.
- AuthServer.ReadRegisterForm and the `AuthDb` handlers `Register`, `ChangePassword`, `ChangeEmail`, `AdminChangeRole`, `ResendOtp` and `AdminResendOtp` read each body field as text or absent. The failures of a malformed body are not modelled. A truthy field that is not text, such as `{"email": 5}`, makes `.strip()` raise, and the handler answers 500 (`auth.py:41-42`, `auth.py:121-122`, `auth.py:241-242`, `auth.py:274`, `auth.py:402-403`). A non-empty body that is not an object, such as `[1]`, fails the same way at `data.get`. A body that is not JSON gets Flask's own 400 in `register` and `admin_change_role`, which call `get_json()` without `silent` (`auth.py:119`, `auth.py:401`).
- Foreign libraries are parameters, not models: SHA-256, `json.dumps`/`loads`, Fernet, bcrypt, pyotp TOTP, JWT encode/decode, `secrets.token_urlsafe`, `strptime`/`fromisoformat`, JavaScript `Date`.
- The handlers `login`, `verify_otp`, `admin_login`, `admin_verify_otp`, `me`, `admin_list_users` and `admin_stats` in `auth.py` are not modelled. Their logic is the TOTP check, JWT minting and a read-only listing, all foreign. Their log entries are covered by the chain model.
- `privacy_summary`, `get_privacy_settings` and `_ensure_profile` in `backend/privacy.py` are not modelled. They are read-only views or the same create-if-missing step as `_ensure_settings`.
- Date and time formats are not modelled: the `isoformat() + "Z"` text, time zones and sub-second timestamps in the admin chain. Rows are stored at whole seconds.
- PrivacyApi.ToBool: the float branch of `_to_bool` (`backend/privacy.py:39-40`) is left out, because JSON numbers are integers in this model.
- Base.PyInt: the model reads optional sign plus ASCII digits. It does not model Python's `int` accepting underscores and non-ASCII digits.
- Base.Lower: ASCII-only; non-ASCII case mapping in `lower()`/`toLowerCase()` is not modelled.
- AdminAudit.Matches: `ilike` treats `%` and `_` in the action text as wildcards. The model matches the text literally, and likewise for the e-mail lookup at `backend/admin_audit.py:31`.
- AdminAudit.SortRows: the order of ties under a sort is the one the model proves (ascending id). SQLite does not promise it for the listing.
- AdminAudit.CsvTable: CSV quoting by `csv.writer` is left out. The model gives each record's cells, not the quoted text.
- The export's `json.dumps(..., indent=2)` layout and download file name are left out. So is the CSV `Content-Disposition` header.
- AdminAudit.PyStr: `str()` of a list or an object in the export's `admin_id` is represented only by its first character, which is all `int()` needs to refuse it.
- React rendering, the row tables, the stats block, `exportCsv`/`exportJson` downloads and the `useEffect`-triggered loads in the admin pages are not modelled. A load is the `Load` method called with the server's reply.
- AdminAuditPage.AuditPage.SetQuickRange: the current date and the `toISOString` slicing are parameters (`startDate`, `endDate`).
- AdminAuditPage.CountOf: a `count` that is not an integer is read as 0 (`|| 0` keeps any truthy value in the source).
- AdminActivityPage.NumberOr: a `count` that is not an integer is read as 0.
- AdminActivityPage.RowsOf: an `items` value that is not an array gives no rows.
- AdminChain.AdminActivityLog.VerifyAdminChain: the failure report carries the id, the reason and the count, but not the `expected`/`got` or `prev_expected`/`prev_got` fields of `verify_admin_chain` (`backend/models_admin.py:176-200`). Those fields are diagnostics and change no verdict.
- AuthServer.AuthDb.ChangeEmail: the success reply's `email` field (`auth.py:295`) is not modelled. The reply is the status and message; the new address is stated on the users table.
- The route guards, forms and other pages of the client are not modelled. They only call the API and the modelled auth store.

## Findings

| source | as written | input that shows it | evidently intended | confidence | as-written member | corrected member |
|---|---|---|---|---|---|---|
| models_privacy.py:82-91 | `append_activity` computes `row_hash` before the row is inserted, so `self.ts` is still None (the column default applies at insert) and the digest covers `"ts": null` | any first event for a user: `verify_chain` recomputes with the stored timestamp and reports "row_hash mismatch" at that row | hash the timestamp the row is stored with, as the admin chain does (the comment at backend/models_admin.py:109) | not executed | ActivityChain.AsWrittenFirstRowFails | ActivityChain.AppendsVerify |
| auth.py:368 | `admin_verify_otp` and `admin_change_role` (auth.py:425) pass `target_id` as an integer; the digest covers the integer while the `String(64)` column stores its text | one successful admin login: verifying that admin's chain gives a hash mismatch at the first row | hash `target_id` in the form it is stored (text) | not executed | AdminChain.IntTargetIdBreaksChain | AdminChain.AppendsVerify |
| frontend/src/AdminActivity.jsx:41 | the page reads `total`, but the server sends `count` (backend/admin_audit.py:114-119), so the total is the number of items on the page | 30 matching rows, page size 20, offset 0: total 20, so Next is disabled | read the server's `count` | not executed | AdminActivityPage.NextNeverEnabledAsWritten | AdminActivityPage.NextEnabledIffMoreRows |
| backend/admin_audit.py:109 | `min(limit or 50, 500)` lets a negative limit through, and SQLite reads `LIMIT -1` as no limit | `GET /admin/activity?limit=-1` lists every selected row | a page size between 1 and 500 | not executed | AdminAudit.NegativeLimitListsEverything | AdminAudit.PageIsCapped |
| frontend/src/AdminActivity.jsx:30-31 | the page sends the dates as `from` and `to`, but the server reads `since` and `until` (backend/admin_audit.py:43-44) | choose a start date: the listing is not bounded by it | send `since` and `until` | not executed | AdminActivityPage.DateRangeIgnoredAsWritten | AdminActivityPage.DateRangeArrives |
