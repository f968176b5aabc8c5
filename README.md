# CharityPulse in Dafny

This project models the CharityPulse backend, an Express/Mongoose service for charity
fundraising events. It covers:

- the account-security rules: registration, the ordered login gate with its
  failed-attempt counter and fifteen-minute lockout, MFA enrolment and the second login
  step, and single-use password-reset tokens that expire after an hour;
- the admin gate, which decides on the role stored for the caller, and the admin routes
  behind it (the user listing without passwords, the event listing, revocation);
- the event rules: the ownership gate shared by update, delete and close, where a missing
  event is reported before a foreign one; delete is refused while pledges exist; the
  organizer's list, the public list and the single event with their pledge totals;
- pledge validation in its order (amount, then missing fields, then the event lookup, then
  the closed check) and insertion;
- the three reports: pie data, the donor grouping by lower-cased email with the top five,
  the summary, and the CSV export's empty guard;
- three pieces of client logic: the `AuthProvider` token/user state machine with its
  role-based redirect, the event card's description truncation and link, and the
  navigation bar's auth pages, greeting and dashboard link.

The model follows the source's own form:

- **Handler rules are pure functions.** The rule of each handler is a function from the
  collection (and the request) to the reply and the collection it saves, with its
  contract stated case by case: `AuthRoutes`, `MfaRoutes`, `AdminRoutes`, `EventRoutes`,
  `PledgeRoutes` and `Reports`.
- **Handlers that mutate are classes.** They act on store classes with `seq` fields,
  proved equal to those functions: `Accounts.AccountStore` for `users`, and
  `Events.EventStore` for `events` and `pledges`.
- **Loops are methods.** The donor map that `reports.js` builds with `forEach` is the
  method `Reports.GroupDonors`, whose `while` loop calls the callback `Reports.CountDonation` on an index `map`. It is proved
  equal to the specification function `Reports.Grouped`, and the grouping properties are
  lemmas about that function.
- **The frontend provider is a class.** `AuthContext.AuthProvider` is a class whose fields
  are the React state, local storage and the router's pushes.

Ids and time:

- An account's id is its position in the store, since accounts are never deleted.
- Events carry explicit ids drawn from a counter.
- Time is an integer `now` in milliseconds.
- Amounts are whole numbers, and progress is exact `real` arithmetic.

Parameters stand in for bcrypt, speakeasy, JWT and random bytes:

- a computed hash, a `compare` function, a TOTP `verify` function and a random token;
- the signed payload `Token(id, role)`;
- `decode` on the client.

Behaviour of the source that the proofs make explicit:

- **Password resets:** the reset token is cleared on use, so a second use is refused.
- **The login counter:**
  - it is reset only by a correct password, so one wrong password after a lockout lapses
    locks the account again at once;
  - `/login/2fa` consults neither revocation, nor lockout, nor `mfaEnabled`.
- **Admin listing:** the user listing still carries `mfaSecret` and the reset token, since
  only the password is removed.
- **Event ownership:** a non-owner gets 401, not 403.
- **The public list:** it appends `'...'` to every non-empty description, including short
  ones, and the card then cuts a 98–99 character description again.
- **The summary:** its progress guard is `targetGoal > 0`, while the event routes test the
  goal for truthiness, so the two disagree on negative goals.
- **The CSV export:** it never looks the event up, so the pledges of a deleted event
  still export.
- **The `AuthProvider` state machine:**
  - `login` stores the token before decoding it and never checks its expiry;
  - a stored token without `user` claims is set as the token state and then removed from
    storage;
  - the backend signs `{ id, role }` with no email, so the navigation bar's greeting is
    empty for every session the backend opens.

## Model

| member | source | states |
|---|---|---|
| UserModel.ParseRole | src/backend/models/User.js:13-17 | exactly the three enum names Organizer, Admin and User are accepted, and each maps back to its own name |
| UserModel.NewAccount | src/backend/models/User.js:4-43 | a new account keeps the given email, hash and role; the counter is 0, MFA is off, the account is not revoked, every optional field is unset, and the account invariant holds |
| UserModel.FindByEmail | src/backend/routes/auth.js:23 | `findOne({ email })`: none exactly when no account has the email; otherwise the found account has it, and with unique emails it is the only one |
| UserModel.FindByResetToken | src/backend/routes/auth.js:206-209 | none exactly when no account holds the token with an expiry strictly after `now`; otherwise the found one does |
| AuthRoutes.Register | src/backend/routes/auth.js:13-56 | an empty email or password gives 'Please enter all fields' and an existing email gives 'User already exists', with the store unchanged in both; success happens iff the fields are present, the email is new and the role (default Organizer) is in the enum; a role outside the enum gives the 500 'Server error' with the store unchanged; success appends exactly one new account, returns the stored role and a token for the new id, and keeps the store invariant |
| AuthRoutes.AttemptLogin | src/backend/routes/auth.js:67-123 | the checks run in order: revoked gives 403, then locked (`lockoutUntil > now`) gives 403, then the password; a refused account is not written; a wrong password adds exactly 1 to the counter and sets the lockout to now + 15 min iff the count reaches 5, otherwise leaving it unchanged; a correct password clears the counter and the lockout, then asks for MFA iff it is enabled, otherwise issuing Token(id, role); only those two fields ever change |
| AuthRoutes.Login | src/backend/routes/auth.js:58-128 | an unknown email gives 'Invalid credentials' and no change; otherwise the reply and the saved account are the login gate's on the found account, and the store invariant is kept |
| AuthRoutes.RefusedIgnoresPassword | src/backend/routes/auth.js:67-76 | a revoked or locked account gets the same reply whatever the password, and is not written |
| AuthRoutes.RelockAfterLapse | src/backend/routes/auth.js:79-83 | the counter is not reset when a lockout lapses, so one more wrong password locks the account again for 15 minutes |
| AuthRoutes.FailuresBelowThreshold | src/backend/routes/auth.js:79-83 | fewer than 5 wrong passwords only count, with no lockout set |
| AuthRoutes.FiveFailuresLock | src/backend/routes/auth.js:10-11 | five wrong passwords on a clean account lock it until 15 minutes after the fifth, and inside that window even the correct password is refused as locked without touching the account |
| AuthRoutes.WrongPasswordSplit | src/backend/routes/auth.js:79-84 | a run of wrong passwords is the composition of its two halves |
| AuthRoutes.RegisterThenLogin | src/backend/routes/auth.js:20-49 | registering without a role and then logging in with the same password gives a token for the new id with role Organizer |
| AuthRoutes.LoginTwoFactor | src/backend/routes/auth.js:130-171 | an unknown id gives 404; an absent secret gives 500; a token with the stored role is issued iff the secret is set and the code verifies, otherwise 'Invalid token, login failed'; nothing is written |
| AuthRoutes.TwoFactorIgnoresAccountState | src/backend/routes/auth.js:134-146 | the second step's reply does not depend on revocation, the counter, the lockout or `mfaEnabled` |
| AuthRoutes.ForgotPassword | src/backend/routes/auth.js:173-199 | the reply is the same message whether or not the email exists; when it exists, the token and an expiry of now + 1 h are set on that account only, overwriting any earlier token |
| AuthRoutes.ResetPassword | src/backend/routes/auth.js:201-228 | succeeds iff some account holds a live token; it then sets the new hash and clears both token fields on the found account; on failure nothing changes; the store invariant is kept |
| AuthRoutes.ResetTokenSingleUse | src/backend/routes/auth.js:206-219 | a consumed token is refused on any later use |
| AuthRoutes.ForgotThenReset | src/backend/routes/auth.js:183-219 | a reset within the hour after a request succeeds and sets the new password on that email's account |
| AuthRoutes.ResetTokenExpires | src/backend/routes/auth.js:185-208 | from one hour after the request, the token is refused and nothing changes |
| MfaRoutes.SetupMfa | src/backend/routes/mfa.js:9-31 | on the caller's account, stores the new secret and sets `mfaEnabled` to false even when it was enabled, and changes nothing else; without an account it gives 500 |
| MfaRoutes.VerifyMfa | src/backend/routes/mfa.js:33-61 | no stored secret gives 'MFA not set up' with no change; MFA is enabled iff the code verifies against the stored secret, which sets only `mfaEnabled`; a rejected code changes nothing; the store invariant (MFA enabled only over a stored secret) is kept |
| MfaRoutes.RejectedCodesChangeNothing | src/backend/routes/mfa.js:53-56 | any number of rejected codes leaves the store as it was: there is no counter and no lockout |
| MfaRoutes.SetupVerifyThenLogin | src/backend/routes/mfa.js:16-52 | setup followed by a matching verify enables MFA over that secret, and a correct password then asks for the second factor instead of issuing a token |
| AdminRoutes.AdminGate | src/backend/middleware/admin.js:4-17 | next iff the stored account of the caller has role Admin; 403 iff it exists with another role; 500 iff there is no account |
| AdminRoutes.AdminGateIgnoresTokenRole | src/backend/middleware/admin.js:6-8 | the role carried by the token plays no part in the decision |
| AdminRoutes.ProjectionLosesOnlyPassword | src/backend/routes/admin.js:14 | `select('-password')` drops the hash and nothing else |
| AdminRoutes.ListUsers | src/backend/routes/admin.js:11-20 | served iff the gate passes; every account is listed at its id, equal to the account once the hash is restored |
| AdminRoutes.OrganizerEmail | src/backend/routes/admin.js:28 | the populated organizer email is present iff the event has an organizer whose account exists, and it is that account's email |
| AdminRoutes.ListEvents | src/backend/routes/admin.js:23-35 | served iff the gate passes; a newest-first permutation of all events, each with its populated organizer email |
| AdminRoutes.Revoke | src/backend/routes/admin.js:38-54 | a refusing gate gives its reply, and an unknown id gives 404, both with no change; otherwise only the target's `isRevoked` is set, whatever the target's role |
| AdminRoutes.RevokeIdempotent | src/backend/routes/admin.js:45-46 | revoking twice leaves the same store as revoking once |
| AdminRoutes.RevokeThenLogin | src/backend/routes/admin.js:45-46 | after revocation, a login to that account gets 403 revoked and does not touch it, whatever the password |
| Accounts.AccountStore.constructor | src/backend/models/User.js:3 | an empty `users` collection satisfies the store invariant |
| Accounts.AccountStore.Register | src/backend/routes/auth.js:13-56 | the in-place handler replies and leaves the collection as `AuthRoutes.Register` does, and keeps the invariant |
| Accounts.AccountStore.Login | src/backend/routes/auth.js:58-128 | the in-place handler replies and leaves the collection as `AuthRoutes.Login` does, and keeps the invariant |
| Accounts.AccountStore.ForgotPassword | src/backend/routes/auth.js:173-199 | the in-place handler matches `AuthRoutes.ForgotPassword` and keeps the invariant |
| Accounts.AccountStore.ResetPassword | src/backend/routes/auth.js:201-228 | the in-place handler matches `AuthRoutes.ResetPassword` and keeps the invariant |
| Accounts.AccountStore.SetupMfa | src/backend/routes/mfa.js:9-31 | the in-place handler matches `MfaRoutes.SetupMfa` and keeps the invariant |
| Accounts.AccountStore.VerifyMfa | src/backend/routes/mfa.js:33-61 | the in-place handler matches `MfaRoutes.VerifyMfa` and keeps the invariant |
| Accounts.AccountStore.Revoke | src/backend/routes/admin.js:38-54 | the in-place handler behind the admin gate matches `AdminRoutes.Revoke` and keeps the invariant |
| EventModel.NewEvent | src/backend/models/Event.js:3-32 | a new event has the given fields, status Active and a start date of now, and passes the required validators |
| EventModel.NewPledge | src/backend/models/Pledge.js:3-24 | a new pledge has the given event, name, email and amount, and the date now |
| EventModel.PledgesOf | src/backend/routes/events.js:14 | `Pledge.find({ event })`: exactly the pledges of that event, each with its multiplicity |
| EventModel.TotalPledgedAppend | src/backend/routes/events.js:15 | appending a pledge adds its amount to the reduced total |
| EventModel.FindEvent | src/backend/routes/events.js:57 | `findById`: none iff no event has the id; otherwise the found event has it |
| EventModel.ByNewest | src/backend/routes/events.js:10 | `.sort({ startDate: -1 })`: a permutation of the events with non-increasing start dates |
| Sorting.SortDesc | src/backend/routes/reports.js:40 | the sort with comparator `b.amount - a.amount`: a permutation ordered by non-increasing key |
| EventRoutes.Progress | src/backend/routes/events.js:20 | 0 when the goal is 0; otherwise progress × goal = total × 100 |
| EventRoutes.CheckOwner | src/backend/routes/events.js:57-63 | a missing event is reported before ownership; an event is owned iff its organizer is the caller |
| EventRoutes.OrganizerlessEventIsNobodys | src/backend/routes/events.js:60 | an event without an organizer refuses every caller |
| EventRoutes.Refusal | src/backend/routes/events.js:58-62 | a missing event gives 404 and a foreign one 401 |
| EventRoutes.Create | src/backend/routes/events.js:32-51 | created iff title, description and target goal are present; the event belongs to the caller, is Active, starts now and is appended; otherwise 500 with no change; ids stay unique |
| EventRoutes.ApplyEdit | src/backend/routes/events.js:65-69 | `$set` of the four body fields: each given field is replaced, each absent one kept, and id, start date, organizer and status are unchanged |
| EventRoutes.Update | src/backend/routes/events.js:53-77 | 404, then 401, with no change; an owned event is replaced by its edit, which is returned |
| EventRoutes.Delete | src/backend/routes/events.js:79-104 | 404, then 401, then 'has pledges' while any pledge refers to the event, all with no change; removal happens iff the event is owned and has no pledges, and it removes exactly that position |
| EventRoutes.DeleteRemovesExactlyThatEvent | src/backend/routes/events.js:97 | after a removal the id is gone, one event fewer is stored, and every other event remains |
| EventRoutes.Close | src/backend/routes/events.js:106-125 | 404, then 401, with no change; an owned event that passes validation gets status Closed and nothing else changes |
| EventRoutes.CloseIdempotent | src/backend/routes/events.js:116-117 | closing twice gives the same reply and store as closing once |
| EventRoutes.FindEventSameIds | src/backend/routes/events.js:116-117 | changing an event in place without changing its id moves no lookup |
| EventRoutes.WithProgress | src/backend/routes/events.js:13-21 | each listed event carries the total of its own pledges and the progress of that total |
| EventRoutes.OrganizedBy | src/backend/routes/events.js:10 | `find({ organizer })`: exactly the caller's events |
| EventRoutes.MyEvents | src/backend/routes/events.js:8-30 | a newest-first permutation of exactly the caller's events, each with its total and progress |
| EventRoutes.MyEventsAreExactlyMine | src/backend/routes/events.js:10 | every listed event is the caller's and in the store, and every event of the caller is listed |
| EventRoutes.ListedDescription | src/backend/routes/events.js:138 | an empty description stays empty; otherwise the result is the first min(100, length) characters followed by '...' |
| EventRoutes.Publish | src/backend/routes/events.js:135-142 | the public projection: id, title and goal as stored, the listed description, the event's own total and its progress |
| EventRoutes.NotClosed | src/backend/routes/events.js:129 | `status: { $ne: 'Closed' }`: exactly the events that are not closed |
| EventRoutes.PublicEvents | src/backend/routes/events.js:127-150 | one entry per open event, the projection of a newest-first ordering of them |
| EventRoutes.PublicEventsAreExactlyOpen | src/backend/routes/events.js:129 | a closed event is never listed, and every open one is |
| EventRoutes.SingleEvent | src/backend/routes/events.js:152-172 | 404 iff the event is missing; otherwise the event, the total, the pledge count (the number of its pledges) and the progress `Progress(total, goal)`: 0 for a zero goal, otherwise total / goal × 100 |
| PledgeRoutes.CheckBody | src/backend/routes/pledges.js:10-16 | 'amount must be greater than 0' iff the amount parses to a number ≤ 0; otherwise 'fill all fields' iff a field is falsy, with a missing amount in this branch |
| PledgeRoutes.AddPledge | src/backend/routes/pledges.js:7-43 | the body checks first and then 404 and the closed check, with no change in any of them; a pledge is created iff all pass and the amount is a number, and exactly that pledge, with a positive amount and the date now, is appended |
| PledgeRoutes.BodyChecksPrecedeLookup | src/backend/routes/pledges.js:10-19 | a request refused by the body checks gets the same reply against every store and changes nothing |
| PledgeRoutes.PledgeRaisesTotal | src/backend/routes/pledges.js:27-38 | a stored pledge raises its event's total by its amount and count by one, and leaves every other event's pledges unchanged |
| Events.EventStore.constructor | src/backend/models/Event.js:3 | empty collections satisfy the id invariant |
| Events.EventStore.Create | src/backend/routes/events.js:32-51 | the in-place handler matches `EventRoutes.Create` and keeps ids unique; an id is allocated even when the save fails |
| Events.EventStore.Update | src/backend/routes/events.js:53-77 | the in-place handler matches `EventRoutes.Update` and leaves the pledges alone |
| Events.EventStore.Delete | src/backend/routes/events.js:79-104 | the in-place handler matches `EventRoutes.Delete` |
| Events.EventStore.Close | src/backend/routes/events.js:106-125 | the in-place handler matches `EventRoutes.Close` |
| Events.EventStore.AddPledge | src/backend/routes/pledges.js:7-43 | the in-place handler matches `PledgeRoutes.AddPledge` and leaves the events alone |
| Reports.PieChart | src/backend/routes/reports.js:15-23 | two slices, Raised = total and Remaining = max(0, goal − total) ≥ 0; together they make up the goal while it is not reached |
| Reports.LowerChar | src/backend/routes/reports.js:27 | `toLowerCase` on ASCII: upper-case letters move down by 32 and every other character is kept |
| Reports.Lower | src/backend/routes/reports.js:27 | lower-cases each character and keeps the length |
| Reports.LowerIdempotent | src/backend/routes/reports.js:27 | lower-casing a key twice is lower-casing it once |
| Reports.DonorName | src/backend/routes/reports.js:31 | `donorName \|\| 'Anonymous'`: never empty, and the given name when there is one |
| Reports.FindGroup | src/backend/routes/reports.js:29 | `donorMap.has`/`get`: none iff no group has the key, otherwise the found group has it |
| Reports.AddDonation | src/backend/routes/reports.js:26-37 | one `forEach` step keeps the group emails distinct |
| Reports.Grouped | src/backend/routes/reports.js:25-37 | the donor map after the `forEach` has distinct emails |
| Reports.GroupedKeys | src/backend/routes/reports.js:27-35 | there is a group for a key iff some pledge has that lower-cased email |
| Reports.GroupedAmounts | src/backend/routes/reports.js:36 | each group's amount is the amount donated under its key |
| Reports.DonatedByIsTotalFromDonor | src/backend/routes/reports.js:36 | the amount donated under a key is the total of exactly the pledges with that key |
| Reports.GroupedNames | src/backend/routes/reports.js:29-34 | each group is named after the first pledge with its key, or 'Anonymous' |
| Reports.FirstNameIsFirstDonor | src/backend/routes/reports.js:29-34 | that name is the name of the first pledge with the key |
| Reports.GroupedPreservesTotal | src/backend/routes/reports.js:15-18 | the group amounts sum to the event's total pledged |
| Reports.GroupDonors | src/backend/routes/reports.js:25-37 | the `forEach` loop over a map returns exactly the groups of `Grouped` |
| Reports.CountDonation | src/backend/routes/reports.js:26-37 | the callback on one pledge performs exactly one `AddDonation` step and keeps the map pointing at each key's group |
| Reports.TopDonors | src/backend/routes/reports.js:39-41 | min(5, number of groups) entries, ordered by non-increasing amount |
| Reports.TopDonorsAreTheLargest | src/backend/routes/reports.js:39-41 | every ranked entry is a group, and no group left out has more than any ranked one |
| Reports.TopDonorsDistinct | src/backend/routes/reports.js:39-41 | distinct group emails stay distinct in the ranking |
| Reports.ChartData | src/backend/routes/reports.js:8-50 | 404 iff the event is missing; otherwise the pie of its goal and total, and the top five of its donor groups |
| Reports.SummaryProgress | src/backend/routes/reports.js:71-74 | 0 unless the goal is positive; otherwise progress × goal = total × 100 |
| Reports.EventSummary | src/backend/routes/reports.js:52-80 | 404 iff the event is missing; otherwise its title, description, status name and goal, the total, the pledge count and the summary's progress |
| Reports.SummaryMatchesEventPage | src/backend/routes/reports.js:64-75 | the summary and the event page agree on total and count, and on progress for a positive goal; for a negative goal and a non-zero total the summary shows 0 where the page does not |
| Reports.CsvExport | src/backend/routes/reports.js:82-100 | 'No pledges found' iff the event's pledge query is empty, whether or not the event exists; otherwise one row of name, email, amount and date per pledge, in order |
| AuthContext.Restore | src/frontend/contexts/AuthContext.js:14-40 | an absent token is left alone; a user is restored iff the token decodes, has not expired (`exp*1000 < now` is false) and carries claims, with the token kept; an undecodable or expired token leaves user and token state empty and is removed from storage; a claimless one is set as the token state, with no user, and is removed from storage |
| AuthContext.RedirectByRole | src/frontend/contexts/AuthContext.js:57-63 | Organizer goes to /organiser/dashboard, Admin to /admin/dashboard, and any other role to / |
| AuthContext.AuthProvider.constructor | src/frontend/contexts/AuthContext.js:7-40 | after mount and its effect, user, token and storage are what `Restore` gives, `loading` is false and nothing was pushed |
| AuthContext.AuthProvider.Login | src/frontend/contexts/AuthContext.js:43-68 | the token is stored first and stays stored; on a decodable token the user and token are set and the role's page is pushed; on a decode failure the state and the route are unchanged |
| AuthContext.AuthProvider.Logout | src/frontend/contexts/AuthContext.js:70-75 | storage, user and token are cleared and /select-login is pushed |
| Layout.RedirectsAndAuthPages | src/frontend/components/Layout.js:10-12 | no page that `login` redirects to is an auth page, and /select-login is one |
| Layout.BeforeAt | src/frontend/components/Layout.js:16 | `split('@')[0]`: a prefix with no '@', followed in the input by '@' when shorter |
| Layout.GetUsername | src/frontend/components/Layout.js:14-17 | null iff there is no user or no (non-empty) email; otherwise the prefix before the first '@', or the whole email without one |
| Layout.IssuedTokenSession | src/frontend/components/Layout.js:15-16 | for a live token the backend issued, a user is restored, the greeting is null since no email is signed, and the dashboard link is shown iff the role is Organizer or Admin |
| EventCard.Truncate | src/frontend/components/EventCard.js:5-7 | a description of ≤ 100 characters is shown unchanged; a longer one becomes its first 100 characters plus '...', 103 in all; never more than 103 |
| EventCard.TruncateIdempotent | src/frontend/components/EventCard.js:5-7 | truncating twice is truncating once |
| EventCard.CardOverPublicList | src/frontend/components/EventCard.js:5-7 | over the public list's descriptions, the card keeps a long one as listed, shows d + '...' for 1–97 characters, and cuts a 98–99 character one again |
| EventCard.LinkTarget | src/frontend/components/EventCard.js:22 | the link is '/event/' followed by the id: 7 characters longer, starting with '/event/' and ending with the id |
| EventCard.LinkTargetInjective | src/frontend/components/EventCard.js:22 | distinct ids link to distinct pages |

## Left out

- bcrypt, speakeasy and JWT: hashing, the password compare, secret generation, TOTP
  verification, signing, the token's five-hour expiry and the QR image are replaced by
  parameters (a hash, `compare`, `secret`, `verify`, the payload). These are foreign
  library calls.
- `crypto.randomBytes`: the reset token is an input.
- The authentication middleware `src/backend/middleware/auth.js` is not part of this
  model. Its result is the `Caller` input.
- Mongoose and Express plumbing is not modelled: asynchronous queries, interleaved
  requests and the lost updates they allow, ObjectId cast errors on malformed ids (500),
  the logger, `server.js` and `index.js`.
- JavaScript numbers are not modelled: amounts and goals are whole numbers, so
  floating-point rounding, NaN, and partial parses such as `parseFloat("5abc")` are not.
  `PledgeRoutes.AmountInput` keeps only the three cases the route distinguishes.
- `AuthRoutes.Login`: a request without an email or password is a `findOne` on
  `undefined`. This is not modelled; the email is a string.
- `AuthRoutes.ResetPassword`: a missing new password makes bcrypt throw (500) after the
  lookup. The hash is an input, so this path is not modelled.
- `AuthRoutes.Register`: a failure of `jwt.sign` after the save (the account is kept and
  the reply is lost) is not modelled.
- `Sorting.SortDesc`: only the permutation and the descending order are proved. The
  order among equal keys is not: `Array.prototype.sort` in `reports.js` is stable, but
  MongoDB's `.sort({ field: -1 })` promises no order among equal keys.
- `Reports.EventSummary`: the `|| ''`, `|| 'Active'` and `|| 0` fallbacks apply only to
  documents that break the schema. Stored events always carry those fields, so the
  summary reports them as stored.
- `Reports.CsvExport`: the json2csv serialisation, the headers and the attachment name
  are left out. The rows carry the four exported fields.
- `EventCard.Truncate`, `EventRoutes.ListedDescription`, `Layout.BeforeAt`: strings are
  sequences of Unicode scalar values, while JavaScript's `length`, `substring(0, 100)` and
  `split('@')` count UTF-16 code units. On text with characters outside the Basic
  Multilingual Plane (emoji, say) the cut falls at a different place than in the source.
- `EventRoutes.ApplyEdit`: a body field that is absent is kept unchanged, on the reading
  that `$set` drops keys whose value is `undefined`. Whether Mongoose strips them or
  writes `null` depends on its version, which the source does not pin.
- `Reports.Lower`: only the ASCII letters are lower-cased. Unicode case mapping is not
  modelled.
- Rendering is left out: the React components' markup, the progress bar and charts, and
  every page under `src/frontend/pages` are not part of the core.
