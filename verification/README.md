# Care-coordination record store

A model of the in-memory record store behind a care-coordination tracker in
which doctors assign tests and care tips to their patients, patients tick off
milestones, and the two exchange messages. In the original web application
the store is five module-level arrays seeded from JSON (`users`,
`milestones`, `tests`, `careTips`, `messages`) plus the "current user"
session of the auth provider. The two dashboards read these arrays through
`filter`, and they change them with `push` or by flipping a milestone's
`completed` flag.

Files and modules:

- `records.dfy` (`Records`): the record shapes of `src/types.ts`.
- `seqs.dfy` (`Seqs`): `filter` and `find`, with their characterising lemmas.
- `ids.dfy` (`Ids`): the `prefix + (length + 1)` id scheme and why its ids are fresh.
- `text.dfy` (`Text`): `String.prototype.trim` and the blank-message test.
- `auth.dfy` (`Auth`): the credential search, the duplicate-email test and the user record that signup builds.
- `projections.dfy` (`Projections`): the read-only views of both dashboards.
- `progress.dfy` (`Progress`): the milestone points total, the completed and remaining counts, and milestone toggling.
- `store.dfy` (`RecordStore`): the `Store` class. It holds the five collections as `seq` fields and the session as an `Option<User>` field. Its methods are login, signup, logout, test and tip creation, both message handlers and milestone toggling.

The model follows the code, which checks less than a stricter design would:

- Creating a test, tip or message does not check that the selected patient is assigned to the doctor.
- Toggling a milestone does not check who owns it: any milestone with the id can be flipped.
- There is no error for an unknown milestone id: nothing happens.
- A patient's message goes to `assignedTo`, or to the empty id when the patient is unassigned.
- Selecting the empty string counts as "no patient selected", because JavaScript treats `''` as false.

## Model

| member | source | states |
|---|---|---|
| Records.Role.Initial | src/context/AuthContext.tsx:39 | the signup prefix is the first character of the role's name: `d` exactly for doctors, `p` exactly for patients |
| Seqs.Filter | src/components/PatientDashboard.tsx:14-25 | `filter` keeps exactly the elements satisfying the predicate: membership iff the predicate holds, and each kept element as often as in the input |
| Seqs.FilterIsSubsequence | src/components/DoctorDashboard.tsx:27-47 | every filtered view keeps the collection's insertion order (it is a subsequence of the input) |
| Seqs.FindFirst | src/context/AuthContext.tsx:19-21 | `find` returns the first position whose element satisfies the predicate, or none exactly when no element does |
| Seqs.FilterAppend | src/components/DoctorDashboard.tsx:94 | filtering a collection after a push equals filtering the old collection followed by filtering the pushed part |
| Seqs.FilterOfFilter | src/components/DoctorDashboard.tsx:41-47 | filtering a filtered view by a second predicate equals one filter by both predicates |
| Seqs.FilterPartition | src/components/PatientDashboard.tsx:130-136 | the elements that satisfy a predicate and those that do not add up to the whole collection |
| Ids.Decimal | src/components/DoctorDashboard.tsx:56 | the decimal rendering of the count is non-empty, all digits, and has no leading zero; by Ids.DecimalValue the digits denote the count |
| Ids.DecimalValue | src/components/DoctorDashboard.tsx:56 | the digits of the rendering, read back in base ten, give exactly the number rendered |
| Ids.DecimalInjective | src/components/DoctorDashboard.tsx:56 | different counts render as different digit strings |
| Ids.NextId | src/components/DoctorDashboard.tsx:56 | the new id is the prefix followed only by digits, with no leading zero, and those digits denote the collection length plus one |
| Ids.NextIdFresh | src/components/DoctorDashboard.tsx:56 | if every id is `prefix + k` with 1 <= k <= n, then `prefix + (n+1)` is none of them |
| Ids.NextIdKeepsNumbered | src/components/DoctorDashboard.tsx:55-62 | appending the generated id keeps every id of the form `prefix + k` with k at most the new length |
| Text.Trim | src/components/DoctorDashboard.tsx:85 | trimming gives the empty string exactly when the content is whitespace only; a non-empty result starts and ends with non-whitespace |
| Text.TrimIsSlice | src/components/DoctorDashboard.tsx:85 | the trimmed content is a slice of the content with only whitespace before it and after it |
| Auth.FindUser | src/context/AuthContext.tsx:19-25 | login finds a user exactly when one has both the email and the password, and it finds the first such user in collection order |
| Auth.EmailTaken | src/context/AuthContext.tsx:31 | the duplicate test holds exactly when some user already has the email |
| Auth.UserId | src/context/AuthContext.tsx:39 | the signup id starts with the first letter of the role's name, and the rest is digits, with no leading zero, denoting the user count plus one |
| Auth.NewUser | src/context/AuthContext.tsx:37-40 | the new user record carries every field of the signup form unchanged, plus the generated id |
| Auth.SignupKeepsEmailsDistinct | src/context/AuthContext.tsx:31-42 | if emails are pairwise distinct before a signup that passes the duplicate test, they are still pairwise distinct after it |
| Auth.LoginAfterSignup | src/context/AuthContext.tsx:19-43 | after a signup passes the duplicate test, a login with the new email and password finds the new user at the end of the collection |
| Auth.SignupIdFresh | src/context/AuthContext.tsx:37-42 | if user ids are role initial plus k with k <= n, the signup id `initial + (n+1)` is new and the scheme still holds |
| Projections.DoctorTests | src/components/DoctorDashboard.tsx:27 | the doctor's tests are exactly the tests with that `doctorId`, with multiplicity, in insertion order |
| Projections.Inbox | src/components/DoctorDashboard.tsx:28-30 | an inbox is exactly the messages the user sent or received, with multiplicity, in insertion order; the patient dashboard's message view (src/components/PatientDashboard.tsx:20-22) is the same filter |
| Projections.DoctorTips | src/components/DoctorDashboard.tsx:31-33 | the doctor's tips are exactly the tips with that `doctorId`, in insertion order |
| Projections.AssignedPatients | src/components/DoctorDashboard.tsx:36-38 | the assigned patients are exactly the users with role patient whose single `assignedTo` id is the doctor's, in collection order |
| Projections.Conversation | src/components/DoctorDashboard.tsx:41-47 | with no selection the conversation is empty; otherwise it is an order-preserving subsequence of the doctor's inbox holding exactly the messages between doctor and patient, in either direction, each as often as in the whole collection |
| Projections.PatientMilestones | src/components/PatientDashboard.tsx:14-16 | the patient's milestones are exactly those with that `patientId`, in insertion order |
| Projections.PatientTests | src/components/PatientDashboard.tsx:17-19 | the patient's tests are exactly those with that `patientId`, in insertion order |
| Projections.PatientTips | src/components/PatientDashboard.tsx:23-25 | the patient's care tips are exactly those with that `patientId`, in insertion order |
| Projections.ConversationIsPairFilter | src/components/DoctorDashboard.tsx:41-47 | the conversation equals the whole message collection filtered by the pair, so messages between other users never enter it |
| Projections.ConversationAppend | src/components/DoctorDashboard.tsx:85-94 | pushing a message extends the conversation by exactly that message when it is between the pair, and leaves it unchanged otherwise |
| Projections.InboxAppend | src/components/PatientDashboard.tsx:31-42 | pushing a message puts it at the end of the inbox of each user it involves and leaves every other inbox unchanged |
| Projections.DoctorAndPatientViewsAgree | src/components/PatientDashboard.tsx:17-19 | the doctor's tests narrowed to one patient and that patient's tests narrowed to the doctor are the same sequence |
| Progress.TotalPoints | src/components/PatientDashboard.tsx:27-29 | when all points are non-negative, the total lies between 0 and the sum over all the milestones |
| Progress.TotalPointsIsCompletedSum | src/components/PatientDashboard.tsx:27-29 | the `reduce` total equals the sum of points over the completed milestones |
| Progress.CountsPartition | src/components/PatientDashboard.tsx:130-136 | the completed count plus the remaining count equals the number of milestones |
| Progress.MilestoneIndex | src/components/PatientDashboard.tsx:47 | the toggle's `find` locates the first milestone with the id, or none exactly when no milestone has it |
| Progress.ToggleFirst | src/components/PatientDashboard.tsx:46-51 | the toggle keeps the length and every field except `completed`, and it flips `completed` exactly on the first milestone with the id |
| Progress.ToggleUnknownId | src/components/PatientDashboard.tsx:46-51 | toggling an id that no milestone carries changes nothing |
| Progress.ToggleTwice | src/components/PatientDashboard.tsx:49 | toggling the same id twice restores the original collection |
| RecordStore.Store.constructor | src/context/AuthContext.tsx:16 | the store starts with the seed collections and with nobody logged in |
| RecordStore.Store.SessionId | src/components/DoctorDashboard.tsx:58 | `user?.id \|\| ''`: the logged-in user's id, and never a non-empty id that is not the session user's |
| RecordStore.Store.PatientReceiver | src/components/PatientDashboard.tsx:38 | `user?.assignedTo \|\| ''`: the patient's single assigned doctor id, and never a non-empty id the patient is not assigned to |
| RecordStore.Store.Login | src/context/AuthContext.tsx:18-28 | on a match, the session becomes the first matching user; otherwise the result is "invalid credentials" and the session is unchanged; users are never changed |
| RecordStore.Store.Signup | src/context/AuthContext.tsx:30-44 | a taken email gives "user already exists" with users and session unchanged. Otherwise exactly one user is appended, with id `role[0] + (n+1)`, and becomes the session. Distinct emails and the id scheme are preserved, and the new id is fresh |
| RecordStore.Store.Logout | src/context/AuthContext.tsx:46-48 | the session becomes none whatever it was, so a second logout changes nothing |
| RecordStore.Store.NewTest | src/components/DoctorDashboard.tsx:49-64 | with no selected patient, nothing changes. Otherwise one test is appended, with id `t + (n+1)`, the selected patient, the current user as doctor, the form's fields and `completed = false`. Earlier tests are unchanged and the id is fresh |
| RecordStore.Store.NewTip | src/components/DoctorDashboard.tsx:66-81 | with no selected patient, nothing changes. Otherwise one tip is appended, with id `ct + (n+1)`, the current user as doctor, the selected patient and the given creation time. The id is fresh |
| RecordStore.Store.SendDoctorMessage | src/components/DoctorDashboard.tsx:83-96 | blank content or no selection leaves the messages unchanged. Otherwise one message is appended, with id `msg + (n+1)`, the doctor as sender, the selected patient as receiver and the content untrimmed |
| RecordStore.Store.SendPatientMessage | src/components/PatientDashboard.tsx:31-44 | blank content leaves the messages unchanged. Otherwise one message is appended, with id `msg + (n+1)`, the patient as sender and `assignedTo` (or the empty id) as receiver |
| RecordStore.Store.ToggleMilestone | src/components/PatientDashboard.tsx:46-51 | the milestone collection becomes its toggle by the id: only the first milestone with the id changes, and only in `completed` |
| RecordStore.SignupThenLogin | src/context/AuthContext.tsx:18-44 | a signup with an unused email followed by a login with its credentials succeeds both times and leaves the new user logged in |

## Left out

- Rendering, tab state, the form fields and their resets, `alert`, and the icons are presentation. The `alert` for a missing selection and the silent return for a blank message both become a `Failed` outcome with no change.
- Role-based routing (`src/App.tsx`) is left out. The dashboards are only rendered for a logged-in user, so each view takes that user's id as a parameter.
- The progress percentage (`calculateProgress`) is left out: it is floating-point division and gives NaN with no milestones. The integer completed and remaining counts are modelled instead.
- Timestamps from the wall clock are opaque string parameters (`now`).
- The React context machinery is left out: `useAuth` throwing outside a provider, and the `async` wrapping of login and signup. The operations are synchronous methods that return an outcome.
- Loading the JSON seed data is left out: the constructor takes the initial collections.
- Passwords are compared as plain strings; there is no hashing.
- Milestone toggling replaces the sequence element. It does not mutate a shared object, so aliasing of that object through other arrays is not modelled. Every view is recomputed from the store.
- `points` is a JavaScript number. It is modelled as an integer: fractional points and floating-point addition are not modelled.
- Strings are sequences of Unicode scalar values, not UTF-16 code units. Every character `trim` removes is in the Basic Multilingual Plane, so the blank test is unaffected.
- RecordStore.Store.SendPatientMessage: requires that the sender's `assignedTo` is not the list form. JavaScript would store the array itself as `receiverId`, and a string-typed receiver cannot hold that. By the type's own comment, only doctors carry the list form.
- RecordStore.Store.PatientReceiver: gives the empty id when the patient's `assignedTo` is the list form, where JavaScript's `user?.assignedTo || ''` would give the array itself. Its only caller, SendPatientMessage, excludes that case.
- RecordStore.Store.SendDoctorMessage: its contract does not restate the effect on the conversation view. That effect is `Projections.ConversationAppend` applied to the appended message.
- RecordStore.Store.SendPatientMessage: likewise, the effect on the inbox is `Projections.InboxAppend`.
- Milestones are never created by the code (only by seed data), and `Test.results` is never set, so neither has an operation.
