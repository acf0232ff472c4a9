# Community registry: registration, login and session gate

This project models the request-handling core of a small community-registry web server
(`server.js`): families register through `POST /submit-form` and wait for an administrator's
approval; approved families log in with their email and date of birth; a session then
admits them to the dashboard until they log out.

Modules, one per concern of the handler code:

- `Wrappers` — `Option` and `Result`.
- `JsValues` — the JavaScript semantics the handlers rely on. A body field is `Absent`, a
  `Scalar` string or a `Seq` of strings. `Index` is the expression `v[i]`: it throws a
  TypeError on undefined, gives the `i`-th character of a string, and gives undefined past
  the end. `ToJsString` is `String(v)`. `parseInt` is an abstract parameter
  (`string -> Option<int>`, `None` for NaN), applied to `String(v)` as JavaScript does.
- `Dates` — a Date is milliseconds since the epoch, within JavaScript's valid range.
  `new Date(string)` is an abstract parameter (`None` for an Invalid Date).
  `toISOString().split('T')[0]` is represented by the UTC day number `t / 86400000`. The
  ISO date string and the day number determine each other, so comparing the strings is
  the same as comparing the day numbers. An Invalid Date gives `None`, which stands for
  the RangeError it throws.
- `Family` — form bodies, member and family records, stored records with their id,
  session users, and route responses.
- `Registration` — the `/submit-form` handler. `BuildMembers` is the `forEach`/`push`
  loop, written as a `while` loop and proved against the predicate `MembersFor`.
  `Submit` builds the member list, builds the record, hands it to an abstract `save` and
  answers.
- `Login` — the `POST /login` decision. The record store is a `seq<StoredFamily>`.
  `findOne` returns the first record in store order that has the email and status
  approved.
- `Routes` — the session as a class with one field `user: Option<SessionUser>`, and the
  five routes as its methods. It ends with client methods for the session lifecycle and
  for the registration → approval → login → logout example.

Two details of the code that the model keeps:

- The member list reads `bloodGroup` and `occupation` from the same body fields as the
  family head (`MembersShareHeadFields`). With a list of members and a plain string for
  the head's occupation, member `i`'s occupation is the `i`-th character of that string.
- In the list branch, a member field missing from the body throws on the first index.
  The handler catches this and answers 500 with V8's message "Cannot read properties of
  undefined (reading '0')". A list that is merely shorter does not throw. Its missing
  positions are undefined (`ShortListGivesUndefined`).

## Model

| member | source | states |
|---|---|---|
| `Registration.BuildMembers` | server.js:67-90 | throws exactly when `memberName` is a non-empty list and a member field is missing entirely, then with the error of reading index 0; otherwise the members are those `MembersFor` describes: one per list index with every field read at that index, one built from the unindexed fields for a non-empty string, none for an absent or empty name |
| `Registration.MemberAt` | server.js:70-78 | the object pushed for index `i` throws, reading index `i`, exactly when one of the six member fields is missing; otherwise it is member `i` as the field reads at index `i` give it |
| `Registration.MembersForDeterminate` | server.js:67-90 | the member-list description pins the list down: any two lists meeting it are equal |
| `Registration.ParallelListsMember` | server.js:68-79 | with parallel lists at least `i + 1` long, member `i` is `{name: memberName[i], relation: relation[i], age: parseInt(age[i]), ...}` element by element |
| `Registration.ShortListGivesUndefined` | server.js:69-78 | a `relation` list shorter than `memberName` yields undefined relations for the later members, and no error |
| `Registration.MembersShareHeadFields` | server.js:60-89 | the member `occupation` and `bloodGroup` come from the head's fields: equal to them for a single member, the `i`-th character of a string head value for a member list |
| `Registration.ProfileImage` | server.js:93 | the profile image is the uploaded file's path, or `''` when there is no file |
| `Registration.NewFamily` | server.js:92-109 | every constructed record has status pending, carries the given member list, and has the profile-image path or `''` |
| `Registration.Submit` | server.js:58-118 | a thrown member-building error builds no record and answers 500 with its message; otherwise the record is pending, has the profile image, the members described by `MembersFor`, the parsed `dob`, and each of the twelve other head fields (`familyHead` from `value`, `gender`, `phone`, `email`, `locality`, `city`, `occupation`, `gotra`, `nativePlace`, `bloodGroup`, `address`) copied from the same-named body field; the answer is the approval notice when `save` succeeds and 500 with the store's message when it fails |
| `Dates.NewDate` | server.js:96 | `new Date(v)` of a body field: undefined is an Invalid Date, a string is parsed as itself, a list as its comma-joined text |
| `Dates.DateOnly` | server.js:138-139 | the date-only value exists exactly when the date is valid, and is the UTC day on which the instant falls |
| `Dates.UtcDayIsCalendarDay` | server.js:138-139 | the date-only value of an instant is day `d` exactly when the instant lies within UTC day `d` |
| `Dates.SameDateOnly` | server.js:138-141 | two instants have equal date-only values exactly when some UTC day contains both, whatever their times of day |
| `Login.FindApproved` | server.js:135 | finds nothing exactly when no record has the email with status approved; otherwise finds the first such record |
| `Login.UserOf` | server.js:145 | the session user is the record's `{id: _id, email, name: familyHead}` |
| `Login.Decide` | server.js:128-146 | five mutually exclusive outcomes, each with an exact condition: missing credentials when email or dob is missing or empty; not found when no approved record has the email; failure when either date is invalid; incorrect dob when the date-only values differ; logged in, with the found record's `{id, email, familyHead}`, when they are equal |
| `Login.SameDayLogsIn` | server.js:138-146 | an approved record whose stored date of birth falls on the same UTC day as the submitted one logs in, at any times of day |
| `Login.OtherDayIsIncorrect` | server.js:138-143 | a submitted date on a different UTC day from the stored one is refused as an incorrect date of birth |
| `Login.UniqueApprovedRecordDecides` | server.js:135 | when exactly one approved record has the email, the lookup finds it, so store order does not matter |
| `Login.UnapprovedNeverLogsIn` | server.js:135-136 | with no approved record in the store, every login is refused for missing credentials or as not found or not approved |
| `Routes.Session.constructor` | server.js:18-22 | a new session has no user bound |
| `Routes.Session.Home` | server.js:52-55 | `/` redirects to the dashboard exactly when a user is bound, else sends the registration page |
| `Routes.Session.LoginPage` | server.js:121-124 | `GET /login` redirects to the dashboard exactly when a user is bound, else renders the login page with no error |
| `Routes.Session.SignIn` | server.js:127-152 | a successful decision binds `{id, email, name}` and redirects to the dashboard; every refusal renders its message and leaves the session unchanged; the store is only read |
| `Routes.Session.Dashboard` | server.js:155-158 | `/dashboard` redirects to the login page exactly when no user is bound, else renders the bound user |
| `Routes.Session.Logout` | server.js:161-163 | logout clears the binding unconditionally and redirects to the login page |
| `Routes.LogoutDeniesDashboard` | server.js:155-163 | after a logout the dashboard is denied |
| `Routes.LoginOpensDashboard` | server.js:145-157 | after a successful login the dashboard shows the bound user; after a refused one it is denied exactly when no user was bound before |
| `Routes.RegisterApproveLogIn` | server.js:58-163 | a registration with two listed members is acknowledged and stores two members, the first of which receives the head's occupation because the `occupation` list is shared; once the record is approved, logging in with its email and date redirects to the dashboard, the dashboard shows `{f1, a@x.com, Shah Family}`, logout redirects to the login page, and the dashboard is then denied |

## Left out

- Express and middleware set-up, CORS, static files, the view engine and `listen` (server.js:11-31, 166-167): framework plumbing.
- The session secret and cookie policy (server.js:18-22): configuration. Session expiry is not modelled.
- Multer disk storage and file naming (server.js:34-41): file I/O and the clock. The upload is an optional path.
- The database connection and the internals of `save` and `findOne` (server.js:44-49, 111, 135): a foreign driver. `save` is a parameter that accepts a record or fails with a message. `findOne` is the first match in store order, because MongoDB does not fix an order without a sort. A driver failure during `findOne` would also reach the generic login failure; it is not modelled.
- The `Family` schema's casting and validation (`./models/family`): `./models/family` is not part of this model. Records keep the body fields as submitted. Whether the store accepts a record, for example one with an Invalid Date, is up to the `save` parameter.
- The admin routes (`./routes/admin`) and the approve/reject transitions: `./routes/admin` is not part of this model. The example scenario sets the status to approved by hand.
- JavaScript's `parseInt` and `Date` string parsing: foreign library behaviour, kept abstract as parameters.
- MongoDB's array matching: a query on `email` also matches a record whose email is an array containing it. Only records whose email is that string are matched here.
- Login body fields in array form: `email` and `dob` are modelled as optional strings.
- Body fields nested into objects by the extended URL-encoded parser: only the three field shapes are modelled.
- JavaScript strings are UTF-16. Indexing a string here yields a Unicode scalar value, not a UTF-16 code unit.
- EJS rendering, HTML and console logging: only the rendered view, its error message, the redirect target or the response text is modelled.
