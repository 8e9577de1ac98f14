# The admin dashboard's logic, modelled and proved

This project models the logic layer of the Telecam admin dashboard (`admin-dashboard/lib`) in Dafny and proves what
that code keeps. `dafny verify dfyconfig.toml` checks everything.

**Session** (`lib/auth/*`, `lib/api.ts`):

- `Session.dfy` is a state machine. Every piece of code between two `await`s is one step, any number of operations
  (load, interval refresh, login, logout, password change, other calls) are in flight at once, each with the values its
  closure has captured, and the server's refresh tokens are single-use. There is no lock in the code and none in the
  machine. `SessionSafety.dfy` and `SessionLifecycle.dfy` prove what every run keeps.
- `AuthProvider.dfy` is the code itself: a class with the provider's React state, the module variables and local
  storage as fields, and the methods of the provider and `apiFetch` calling each other in a circle. The answers of the
  server, and what other operations do to the page during each request, are a parameter. Every method is proved equal
  to a function without recursion, from which `ApiCalls.dfy` derives what one call can send and how it can end.
- `Refinement.dfy` joins them: an operation of the code, with any run of other operations of the machine taking place
  at each of its `await`s, is a run of the machine, so the code keeps what runs keep.
- `Requests.dfy` states in plain paths, headers and status codes what each operation sends and how it ends, and
  `Wire.dfy` that every request sent is the one the machine's operation stands for.
- `SessionOwner.dfy` and `SessionOwnerRuns.dfy` ask whose session it is: when the user shown is the one the tokens were
  issued to, and stays so however the operations under way are answered. `SessionMixups.dfy` shows how that fails.

**Codecs and sanitisers.** The text format in which a school's fields share one address column (`SchoolAddress.dfy`, and
written out in `SchoolText.dfy`) and the editing of a school through it (`SchoolForm.dfy`), splitting and building of
full names (`FullName.dfy`), users as stored and answers as parsed (`Users.dfy`, `ServerReplies.dfy`, `UserWire.dfy`),
the two metadata sanitisers (`AuditMetadata.dfy` and `AuditShape.dfy`, `AlertMetadata.dfy` and `AlertShape.dfy`), and the
alert normaliser, filters, summary and delivery index (`Alerts.dfy`, `AlertWire.dfy`, `AlertFilters.dfy`).

**Arithmetic.** Money text (`Money.dfy`), civil dates as defined in ECMA-262 5.1, sections 15.9.1.2 to 15.9.1.5 and
15.9.1.12 to 15.9.1.14 (`CivilDate.dfy`), and days remaining and extension of subscriptions (`Subscription.dfy`).

**Lists and routing.** Pagination (`Pagination.dfy`), the children of a parent (`Parents.dfy`), redirects and page
permissions, with the two pages that redirect by themselves (`Routes.dfy`). `Text.dfy`, `Json.dfy` and `Wrappers.dfy`
hold the shared vocabulary.

Where the code does not do what one would expect, the exact condition is proved:

- `formatMoney` followed by `toMinorUnits` gives the amount back only if it is not negative: the minus sign stands
  behind the currency code, where reading does not look for it.
- Extending a subscription adds the days it should only for clocks from 31 December 1999 on, because `Date.UTC` takes
  the years 0 to 99 for 1900 to 1999 and an expired end date may lie there.
- A bare street that contains the start marker is not read back; with at least one other field it is.
- Saving a school unchanged settles after one save if its address column held anything. Without an address the whole
  column is shown as the address, so the second save writes the column into itself; the third changes nothing more.
- A refresh under way outlives a logout and signs the user in again.
- If the server retires a refresh token without naming its successor, the page keeps the dead one.
- Nothing ties an answer to the session in which it was asked for. Even with an honest server one user can be shown over
  another's tokens, and this is ruled out exactly when no user is put in place while a refresh or a password change of
  another waits for its answer, and the page did not find one user in storage beside another's token.
- In JavaScript's numbers an amount is read back up to 100 * 2^46 minor units, and one more is off by one; the number
  branch is proved up to 100 * 2^45, a bound that suffices, and is off by one at 3840455820970320.
- A refresh token that the server names as empty stays in React state but not in storage.
- The alert sanitiser does not enter lists: what they hold is shown as it is.
- A first 401 clears the session only while the provider has its handlers registered.
- A user whose e-mail is only white space is accepted from the server but not from local storage.

## Model

| member | source | states |
|---|---|---|
| SessionSafety.StoredTokenIsGood | admin-dashboard/lib/auth/auth-context.tsx:65-211 | in every run against a rotating server, whatever overlaps and whatever is lost or refused, the stored refresh token is none, or live, or held by a refresh under way; with none under way it is none or live |
| SessionSafety.StepInOrder | admin-dashboard/lib/auth/auth-context.tsx:65-211 | each step of the page or the server keeps the order behind it: tokens in transit are live, unsent and pairwise different |
| SessionSafety.BeginRefreshInOrder | admin-dashboard/lib/auth/auth-context.tsx:86-93 | starting a refresh, however many are under way, keeps that order |
| SessionSafety.ProfileReplyInOrder | admin-dashboard/lib/auth/auth-context.tsx:101-108 | so does finishing or giving up one, even if another has replaced the stored token meanwhile |
| SessionSafety.RotationInOrder | backend/README.md:351 | so does the server's exchange of a token, which kills the old one |
| SessionSafety.SingleUse | backend/README.md:351 | a refresh token is good for one exchange, after which it is dead and no other refresh that carries it gets another |
| SessionSafety.OmittedTokenStrands | admin-dashboard/lib/auth/auth-context.tsx:94 | when an answer names no new token the old one is kept: it is live exactly if the server has not retired it, and the token then stored, having been sent, is good exactly if another refresh still holds it |
| SessionSafety.SessionAgrees | admin-dashboard/lib/auth/auth-context.tsx:65-173 | in every run from a mounted page, whatever the server answers, the module's access token is React's, there is a user exactly when there is an access token, with an equal stored copy, and a refresh token in React is the stored one exactly if it is not empty |
| SessionSafety.EmptyTokenSplits | admin-dashboard/lib/auth/auth-context.tsx:73-84 | completing a refresh makes React and storage differ exactly when the server has named an empty token |
| SessionSafety.NamedTokensAgree | admin-dashboard/lib/auth/auth-context.tsx:65-173 | with a server that names no empty token a refresh token in React is the stored one in every run |
| SessionSafety.LoadingEnds | admin-dashboard/lib/auth/auth-context.tsx:111-126 | in every run the loading flag is up only while a load is under way, and the end of any load takes it down |
| SessionOwnerRuns.OwnershipExactly | admin-dashboard/lib/auth/auth-context.tsx:65-211 | with a server that answers a token with data of its owner only, the user shown owns the tokens at every moment of a run, however any one operation then under way is answered, exactly when user and token left in storage are of one user and no step puts a user in place while a refresh or a password change of another waits for its answer (beside a refresh, a user whose stored copy can be read back) |
| SessionOwnerRuns.AgreeingLoginsAreSafe | admin-dashboard/lib/auth/auth-context.tsx:65-211 | so it is enough that what was left in storage is of one user and every login that succeeds while a refresh or a password change is under way is by that operation's own user |
| SessionOwnerRuns.OwnAnswersKeep | admin-dashboard/lib/auth/auth-context.tsx:86-159 | an operation that goes with the session keeps user and tokens together through all its own answers, whatever the others are up to |
| SessionOwnerRuns.RefreshCanMix | admin-dashboard/lib/auth/auth-context.tsx:93-107 | a refresh that waits while another user's copy is in storage shows that user over its own tokens, if the profile is lost |
| SessionOwnerRuns.PasswordCanMix | admin-dashboard/lib/auth/auth-context.tsx:143-158 | a password change sent with another user's token, or about to be repeated with it, shows that user over the tokens held |
| SessionOwnerRuns.MountedIsOneExactly | admin-dashboard/lib/auth/auth-context.tsx:111-126 | a mounted page is of one session exactly when user and token left in storage are of one user |
| SessionOwner.StepIsOneExactly | admin-dashboard/lib/auth/auth-context.tsx:65-211 | a step keeps the session and everything under way with one user exactly if it does not put a user in place while a refresh or a password change of another waits |
| SessionOwner.ReadBackKeepsId | admin-dashboard/lib/auth/storage.ts:26-44 | a stored user, if it is read back at all, keeps its id |
| SessionMixups.LatePasswordChangeMixes | admin-dashboard/lib/auth/auth-context.tsx:143-158 | a password change answered after a logout and another login shows the first user over the second one's tokens, in a session that looks complete |
| SessionMixups.AnyTwoUsersMix | admin-dashboard/lib/auth/auth-context.tsx:143-158 | any two admitted users whose data can be read are mixed up in this way, by answers a server writes |
| SessionMixups.StaleRefreshMixes | admin-dashboard/lib/auth/auth-context.tsx:96-107 | a refresh answered after a logout and another login, its profile lost, shows the second user over the first one's tokens |
| SessionSafety.StepIsSound | admin-dashboard/lib/auth/auth-context.tsx:65-173 | each step keeps the session either complete or signed out, stale closures of password changes included |
| SessionSafety.UserIsAlwaysAdmitted | admin-dashboard/lib/auth/auth-context.tsx:73-84 | in every run the user in state is active with a dashboard role, whatever was answered or stored |
| SessionSafety.LoginAllOrNothing | admin-dashboard/lib/auth/auth-context.tsx:128-141 | a login installs a complete session if its answer is readable and admitted and otherwise changes nothing |
| SessionLifecycle.StaysSignedOut | admin-dashboard/lib/auth/auth-context.tsx:86-91 | a cleared session with no refresh pending stays empty through every run until a login succeeds, late answers included |
| SessionLifecycle.StepStaysQuiet | admin-dashboard/lib/auth/auth-context.tsx:86-173 | one step from there: nothing but a successful login brings a user, a token or a stored value back |
| SessionLifecycle.RevivedExactly | admin-dashboard/lib/auth/auth-context.tsx:101-141 | an empty session comes back exactly by a successful login or by the end of a refresh still under way |
| SessionLifecycle.RefreshOutlivesLogout | admin-dashboard/lib/auth/auth-context.tsx:107-173 | logging out does not stop a refresh under way from signing the user in again |
| SessionLifecycle.OperationsTerminate | admin-dashboard/lib/api.ts:58-96 | in any run the code of an operation resumes at most as often as its rank, six times for a call with its refresh and repetition |
| SessionLifecycle.ResumingDescends | admin-dashboard/lib/api.ts:78-89 | each resumption lowers the rank of its operation and no other event changes it |
| AuthProvider.Tab.constructor | admin-dashboard/lib/auth/auth-context.tsx:57-63 | a mounted page: nothing in memory, loading, whatever storage holds |
| AuthProvider.Tab.ClearSession | admin-dashboard/lib/auth/auth-context.tsx:65-71 | the whole new state: memory, module token and storage emptied, the rest untouched |
| AuthProvider.Tab.ApplySession | admin-dashboard/lib/auth/auth-context.tsx:73-84 | denied exactly for users without access, and then nothing has changed; otherwise all six places are set |
| AuthProvider.Tab.RefreshSession | admin-dashboard/lib/auth/auth-context.tsx:86-109 | state, requests and result, with the profile's fallbacks and every way to throw |
| AuthProvider.Tab.LoadSession | admin-dashboard/lib/auth/auth-context.tsx:111-126 | as the refresh, with the loading flag cleared on every path and the session cleared on every failure |
| AuthProvider.Tab.IntervalElapsed | admin-dashboard/lib/auth/auth-context.tsx:204-206 | a failing interval refresh ends the session |
| AuthProvider.Tab.Login | admin-dashboard/lib/auth/auth-context.tsx:128-141 | state and the status thrown: 403 for a refused or not admitted user, 401 for everything else |
| AuthProvider.Tab.ChangePassword | admin-dashboard/lib/auth/auth-context.tsx:143-159 | state and whether it throws, for any captured access token, the refresh of a missing one included |
| AuthProvider.Tab.Logout | admin-dashboard/lib/auth/auth-context.tsx:161-173 | the session is cleared before the request, which carries the captured token and the token stored before |
| AuthProvider.Tab.HandleSessionExpired | admin-dashboard/lib/auth/auth-context.tsx:175-178 | clears the session |
| AuthProvider.Tab.RefreshAccessToken | admin-dashboard/lib/auth/session-store.ts:23-26 | nothing without a handler; with it, a throwing refresh ends the session and yields no token |
| AuthProvider.Tab.TriggerSessionExpired | admin-dashboard/lib/auth/session-store.ts:28-30 | clears the session exactly if a handler is registered |
| AuthProvider.Tab.ApiFetch | admin-dashboard/lib/api.ts:58-96 | the recursion through the refresh ends, by a measure on skipAuth and the retry mark, and equals its flat form in state, requests and outcome |
| AuthProvider.Tab.ClearAuthStorage | admin-dashboard/lib/auth/storage.ts:58-62 | both entries are removed |
| ApiCalls.CallTrace | admin-dashboard/lib/api.ts:58-96 | a call sends its request at most twice and refreshes at most once, in one order, the repetition differing only in the token; under skipAuth, when marked, or without a 401 it sends one request; the outcome is the first or the repeated answer |
| ApiCalls.RefusalExactly | admin-dashboard/lib/api.ts:78-93 | a first 401 is repeated exactly when the refresh gives a token, and ends as the repetition does; otherwise it throws that 401 with the session already empty, or untouched without handlers |
| ApiCalls.TokenGivenExactly | admin-dashboard/lib/auth/auth-context.tsx:86-109 | the refresh gives a token exactly when each step of it succeeds, and then the session holds it with an admitted user; otherwise the session is empty |
| ApiCalls.RefreshTrace | admin-dashboard/lib/auth/auth-api.ts:122-150 | a refresh sends at most the stored token and then a profile request bearing the access token it returns |
| Requests.CallSends | admin-dashboard/lib/api.ts:62-74 | the first request of any call: its path and body, and as bearer the token given, else the session's unless unauthenticated, an empty one making no header |
| Requests.SignedInCallSends | admin-dashboard/lib/api.ts:64-74 | a signed-in page calls with its access token |
| Requests.UnauthenticatedCallEnds | admin-dashboard/lib/api.ts:76-95 | a call without authentication ends by its one answer: data for 200 to 299, an error with status and body otherwise |
| Requests.MessageOfError | admin-dashboard/lib/api.ts:36-46 | the server's own error text, or one that names the status |
| Requests.OnlyUnauthorizedRefreshes | admin-dashboard/lib/api.ts:78 | a call not answered 401 sends one request and touches nothing |
| Requests.UnauthorizedRefreshes | admin-dashboard/lib/api.ts:78-79 | a call answered 401 sends the stored token to /auth/refresh next |
| Requests.RefreshSends | admin-dashboard/lib/auth/auth-api.ts:122-150 | what a refresh sends, path, header and body: the stored token, and then a profile request with the new access token |
| Requests.RefreshChooses | admin-dashboard/lib/auth/auth-context.tsx:93-108 | the user installed is the profile's, else the refresh answer's, else the stored one, and the tokens are the answer's, the old refresh token if it names none |
| Requests.LoadShows | admin-dashboard/lib/auth/auth-context.tsx:111-126 | what others see while the page loads, and what loading leaves for each end of the refresh |
| Requests.TickEnds | admin-dashboard/lib/auth/auth-context.tsx:204-206 | the interval refresh ends the session exactly if it throws |
| Requests.LoginEnds | admin-dashboard/lib/auth/auth-context.tsx:128-141 | the request of a login, exactly when it succeeds, throws 403 or throws 401, and what it leaves in each case |
| Requests.LogoutSends | admin-dashboard/lib/auth/auth-context.tsx:161-173 | the session is empty before the request, which carries the stored token and the captured bearer |
| Requests.PasswordChangeEnds | admin-dashboard/lib/auth/auth-context.tsx:143-157 | with a captured token: exactly when it throws, and that it replaces the user and its copy and nothing else |
| Requests.PasswordChangeRefreshes | admin-dashboard/lib/auth/auth-context.tsx:152-156 | without one it refreshes first, and throws if that throws |
| Requests.PasswordPath | admin-dashboard/lib/auth/auth-api.ts:152-164 | the path of a password change |
| Refinement.CallRefines | admin-dashboard/lib/api.ts:58-96 | a call of the code, with any machine run at each await, ends in the session a machine run ends in |
| Refinement.PasswordChangeRefines | admin-dashboard/lib/auth/auth-context.tsx:143-159 | the same of a password change with the closure of its authenticated view |
| Refinement.LoadRefines | admin-dashboard/lib/auth/auth-context.tsx:111-126 | the same of loading |
| Refinement.TickRefines | admin-dashboard/lib/auth/auth-context.tsx:204-206 | the same of the interval refresh |
| Refinement.LoginRefines | admin-dashboard/lib/auth/auth-context.tsx:128-141 | the same of a login |
| Refinement.LogoutRefines | admin-dashboard/lib/auth/auth-context.tsx:161-173 | the same of a logout |
| Refinement.RefreshedFollows | admin-dashboard/lib/auth/auth-context.tsx:86-109 | `refreshSession` and the machine's two answers lead to the same session and the same end |
| Refinement.RefusedFollows | admin-dashboard/lib/api.ts:78-89 | so do a refused call's refresh, repetition and failure |
| Refinement.FinishedIsReached | admin-dashboard/lib/auth/auth-context.tsx:65-211 | carrying one operation to its end among the others is a run of the machine, at the end of which it is gone |
| Refinement.AloneIsWoven | admin-dashboard/lib/auth/auth-context.tsx:65-211 | with nothing else going on the assumption of these results always holds |
| Wire.CallSends | admin-dashboard/lib/api.ts:62-86 | every request of a call, its refresh and its repetition is the one the machine's operation stands for: each call request bears the token that operation carries |
| Wire.RefreshSendsAsCarried | admin-dashboard/lib/auth/auth-context.tsx:93-102 | a refresh sends the token the operation holds and asks for the profile with the access token it brings |
| Wire.LoadSends | admin-dashboard/lib/auth/auth-context.tsx:111-120 | the same of loading |
| Wire.TickSends | admin-dashboard/lib/auth/auth-context.tsx:204-206 | the same of the interval refresh |
| Wire.LoginSends | admin-dashboard/lib/auth/auth-context.tsx:131 | the same of a login |
| Wire.LogoutSends | admin-dashboard/lib/auth/auth-context.tsx:161-167 | the same of a logout |
| Refinement.CodeRefines | admin-dashboard/lib/auth/auth-context.tsx:65-206 | every operation of the code, all six kinds, is a run of the machine in which each step, of the others, the server and its own, obeys whatever condition is put on steps |
| Refinement.CodeAdmits | admin-dashboard/lib/auth/auth-context.tsx:73-84 | no operation of the code leaves a user in state without access |
| Refinement.CodeKeepsWhole | admin-dashboard/lib/auth/auth-context.tsx:65-173 | every operation of the code leaves memory and storage in agreement |
| Refinement.CodeStaysSignedOut | admin-dashboard/lib/auth/auth-context.tsx:86-91 | begun in an ended session with no refresh pending, no operation of the code brings anything back unless a login succeeds |
| Refinement.CodeKeepsTokenGood | admin-dashboard/lib/auth/auth-context.tsx:65-211 | against a rotating server every operation of the code leaves a stored token that is none, live, or held by a refresh under way |
| Users.StoredUserReadsBack | admin-dashboard/lib/auth/storage.ts:26-44 | a stored user is read back as itself exactly when id and e-mail are not empty, the e-mail is trimmed and a name is not empty |
| Users.NamedUserIsRestored | admin-dashboard/lib/auth/session-store.ts:73-97 | every user the server names is restored from storage unless the e-mail is blank |
| Users.AdmittedExactly | admin-dashboard/lib/auth/auth-api.ts:166-174 | access is for exactly the active users with a dashboard role |
| Users.RoleReadsBack | admin-dashboard/lib/auth/session-store.ts:57-64 | normalising a role's own name gives the role |
| Users.StatusReadsBack | admin-dashboard/lib/auth/session-store.ts:66-71 | normalising a status's own name gives the status |
| Users.NameIsCanonical | admin-dashboard/lib/auth/permissions.ts:123-132 | canonical names are fixed points of trimming, upper-casing and replacing |
| UserWire.UserReads | admin-dashboard/lib/auth/session-store.ts:36-97 | every field of a user under all the keys it may stand under, in their order, in the record itself and under `user` |
| UserWire.OnlyRecordsAreUsers | admin-dashboard/lib/auth/session-store.ts:32-34 | nothing but a record is read as a user |
| UserWire.RoleSpellings | admin-dashboard/lib/auth/session-store.ts:57-64 | every role in any case, with hyphens or spaces, the admin roles also as one word |
| UserWire.OtherRoles | admin-dashboard/lib/auth/session-store.ts:57-64 | no other name and no other value is a role |
| UserWire.StatusSpellings | admin-dashboard/lib/auth/session-store.ts:66-71 | statuses in any case and with white space around; everything else counts as active |
| ServerReplies.LoginReplyReads | admin-dashboard/lib/auth/auth-api.ts:22-55 | a login answer, in either spelling and envelope, is read with each token as itself, and refused exactly when a token or the user is missing |
| ServerReplies.RefreshReplyReads | admin-dashboard/lib/auth/auth-api.ts:57-90 | so is a refresh answer, of which only the access token is required |
| ServerReplies.ProfileReads | admin-dashboard/lib/auth/auth-api.ts:92-103 | a profile is read the same from the answer itself and from under `user` |
| Users.ParseLogin | admin-dashboard/lib/auth/auth-api.ts:22-55 | whatever the answer, what is accepted has two non-empty tokens |
| Users.ParseRefresh | admin-dashboard/lib/auth/auth-api.ts:57-90 | whatever the answer, what is accepted has a non-empty access token |
| SchoolAddress.RoundTripExactly | admin-dashboard/lib/admin/schools-normalizer.ts:56-94 | exactly which fields survive encoding and decoding, over all fields: trimmed, single-line values free of the end marker, none blank, and a bare street free of the start marker |
| SchoolAddress.StoredTextSettles | admin-dashboard/lib/admin/schools-normalizer.ts:70-94 | for every text, decoding, encoding and decoding again changes nothing (blank as absent) exactly when a meta field was found or the street has no start marker |
| SchoolAddress.EncodedDecodes | admin-dashboard/lib/admin/schools-normalizer.ts:56-94 | with a meta field present, carriable fields come back, blanks as absent, whatever markers the street contains |
| SchoolAddress.BareStreetDecodes | admin-dashboard/lib/admin/schools-normalizer.ts:56-94 | without a meta field they do exactly when the street has no start marker |
| SchoolAddress.DecodedIsCarriable | admin-dashboard/lib/admin/schools-normalizer.ts:70-94 | whatever text is stored, what is read from it can be written |
| SchoolAddress.MarkedStreetIsShorter | admin-dashboard/lib/admin/schools-normalizer.ts:70-94 | a text with a start marker yields a strictly shorter street |
| SchoolAddress.OverlappingMarkers | admin-dashboard/lib/admin/schools-normalizer.ts:70-94 | markers that share their dashes give no fields and the street behind them |
| SchoolText.StoredTimezoneReads | admin-dashboard/lib/admin/schools-normalizer.ts:12-94 | the stored text of a time zone and a street, written out, is read as these and nothing else |
| SchoolText.StoredCityReads | admin-dashboard/lib/admin/schools-normalizer.ts:12-94 | the same of a city |
| SchoolText.StoredContactNameReads | admin-dashboard/lib/admin/schools-normalizer.ts:12-94 | the same of a contact name |
| SchoolText.StoredContactEmailReads | admin-dashboard/lib/admin/schools-normalizer.ts:12-94 | the same of a contact e-mail |
| SchoolText.StoredNotesRead | admin-dashboard/lib/admin/schools-normalizer.ts:12-94 | the same of notes |
| SchoolText.WrittenText | admin-dashboard/lib/admin/schools-normalizer.ts:56-68 | the exact text written for a school with every field, in the source's order |
| SchoolText.UnclosedBlockReads | admin-dashboard/lib/admin/schools-normalizer.ts:75-78 | a block without an end marker runs to the end of the text and leaves no street |
| SchoolText.LineReads | admin-dashboard/lib/admin/schools-normalizer.ts:81-91 | key and value before and after the first colon, trimmed; the five keys, and no others |
| SchoolText.LineWithoutColon | admin-dashboard/lib/admin/schools-normalizer.ts:82-83 | a line without a colon changes nothing |
| SchoolText.LinesReadInOrder | admin-dashboard/lib/admin/schools-normalizer.ts:81-92 | of two lines for one key the later counts |
| SchoolText.LeadingTextIsIgnored | admin-dashboard/lib/admin/schools-normalizer.ts:71-78 | whatever stands before the first start marker is passed over |
| SchoolAddress.KeyLineDecodes | admin-dashboard/lib/admin/schools-normalizer.ts:79-91 | a written line sets exactly its field, whatever colons the value holds |
| SchoolAddress.EncodeSchoolAddress | admin-dashboard/lib/admin/schools-normalizer.ts:56-68 | the pushes compute the encoding |
| SchoolAddress.DecodeSchoolAddress | admin-dashboard/lib/admin/schools-normalizer.ts:70-94 | the loop over the lines computes the decoding, absent text as empty |
| SchoolAddress.AssignField | admin-dashboard/lib/admin/schools-normalizer.ts:82-91 | one field is assigned, unknown keys change nothing |
| SchoolForm.UnchangedSavesSettle | admin-dashboard/lib/school-form.ts:49-101 | for every stored column the schema accepts: after one save exactly if it was not blank, always after two |
| SchoolForm.NestedOnce | admin-dashboard/lib/admin/schools-normalizer.ts:96-132 | without an address the second save writes the column twice over |
| SchoolForm.FormReadsBack | admin-dashboard/lib/school-form.ts:49-101 | exactly which form inputs come back after a save: those that fit on their lines, with an address given |
| SchoolForm.UnchangedSaveShows | admin-dashboard/lib/school-form.ts:49-101 | what the form shows after an unchanged save: the same, or the written column as the address |
| SchoolForm.ReopenedForm | admin-dashboard/lib/admin/schools-normalizer.ts:96-119 | the same for any saved form |
| SchoolForm.InputsShow | admin-dashboard/lib/school-form.ts:49-61 | every input shows its own field, the default time zone or the whole column |
| SchoolForm.EmptyInputs | admin-dashboard/lib/school-form.ts:49-61 | a school without an address column, or with a blank one, opens empty but for the time zone |
| SchoolForm.FilledFormSends | admin-dashboard/lib/school-form.ts:81-95 | the exact column a filled-in form sends |
| SchoolForm.RefusedExactly | admin-dashboard/lib/school-form.ts:8-22 | the schema refuses exactly a blank time zone and a contact e-mail that is none |
| FullName.SplitAfterBuild | admin-dashboard/lib/admin/children-normalizer.ts:35-43 | exactly which pairs of names come back from a built full name |
| FullName.BuildForm | admin-dashboard/lib/entity-form.ts:60-62 | building joins the trimmed parts with one space, or gives the only one |
| FullName.RebuiltIsCanonical | admin-dashboard/lib/admin/children-normalizer.ts:35-43 | building after splitting is idempotent on every string |
| FullName.UnchangedEditsSettle | admin-dashboard/lib/entity-form.ts:38-78 | saving an unchanged form settles after one save, whatever name the server holds |
| FullName.NamelessChild | admin-dashboard/lib/admin/children-normalizer.ts:47-58 | a child without a name is "Unknown child", any other keeps its name |
| FullName.FormShowsParts | admin-dashboard/lib/entity-form.ts:38-46 | the form shows the two parts of the name |
| Money.BirrRoundTrip | admin-dashboard/lib/admin/billing-utils.ts:2-28 | with exact division, reading a printed amount gives it back exactly when it is not negative |
| Money.DoubleReadsBack | admin-dashboard/lib/admin/billing-utils.ts:18-28 | with the quotient rounded to a double, every amount below 100 * 2^46 minor units is read back |
| Money.TextLimitIsSharp | admin-dashboard/lib/admin/billing-utils.ts:18-28 | one minor unit above that limit the rounded quotient is printed and read one too high |
| Money.DoubleNumberReadsBack | admin-dashboard/lib/admin/billing-utils.ts:3-6 | with quotient and product rounded to doubles, the number branch recovers every amount below 100 * 2^45 minor units |
| Money.NumberLimitMatters | admin-dashboard/lib/admin/billing-utils.ts:3-6 | at 3840455820970320 both roundings go up and it is one too high |
| Money.NearAmountReadsBack | admin-dashboard/lib/admin/billing-utils.ts:2-28 | any real amount closer than half a minor unit to c is printed and read back as c, without its sign unless the currency text is blank |
| Money.FormattedReadsBack | admin-dashboard/lib/admin/billing-utils.ts:2-28 | for any harmless currency text the amount comes back, without its sign unless the text is blank |
| Money.GroupedParses | admin-dashboard/lib/admin/billing-utils.ts:22-28 | grouping only adds commas to the digits of the number |
| Money.CommasStand | admin-dashboard/lib/admin/billing-utils.ts:22-28 | a comma before every third digit from the right and nowhere else, no superfluous zero |
| Money.PrintedForm | admin-dashboard/lib/admin/billing-utils.ts:22-28 | code, space, sign, grouped whole units, dot and two digits |
| Money.PrintedExample | admin-dashboard/lib/admin/billing-utils.ts:22-28 | 123450 prints as "ETB 1,234.50" |
| Money.TiesRoundAway | admin-dashboard/lib/admin/billing-utils.ts:24-27 | a tie is rounded away from zero |
| Money.NothingReads | admin-dashboard/lib/admin/billing-utils.ts:3-8 | empty and blank text, and numbers that are not positive, are zero |
| Money.CommaAnywhere | admin-dashboard/lib/admin/billing-utils.ts:7 | a comma typed anywhere changes nothing |
| Money.ExtraDigitsTruncate | admin-dashboard/lib/admin/billing-utils.ts:11-15 | fraction digits after the second are dropped, whatever stands before the dot |
| Money.NumberAndTextAgree | admin-dashboard/lib/admin/billing-utils.ts:2-16 | in exact arithmetic the branches for numbers and for text agree on whole minor units |
| CivilDate.CivilRoundTrip | admin-dashboard/lib/admin/billing-utils.ts:35-36 | the UTC fields of any day are a real calendar date and lead back to the day |
| CivilDate.CivilDateIsFound | admin-dashboard/lib/admin/billing-utils.ts:35-36 | every calendar date names one day, whose fields it is |
| CivilDate.YearLength | admin-dashboard/lib/admin/billing-utils.ts:35-36 | the closed formula for the first day of a year agrees with the leap-year rule |
| CivilDate.YearIsLargestBegun | admin-dashboard/lib/admin/billing-utils.ts:35-36 | the year of a day is the largest that has begun |
| CivilDate.MakeDayMeetsStandard | admin-dashboard/lib/admin/billing-utils.ts:35-49 | MakeDay meets the standard's requirement for months and dates out of range |
| CivilDate.DayAndTime | admin-dashboard/lib/admin/billing-utils.ts:48-49 | day and time within the day make up the time value |
| CivilDate.Epoch | admin-dashboard/lib/admin/billing-utils.ts:35-36 | day 0 is 1 January 1970 |
| CivilDate.LeapDay2000 | admin-dashboard/lib/admin/billing-utils.ts:35-36 | 2000 has a leap day |
| CivilDate.NoLeapDay1900 | admin-dashboard/lib/admin/billing-utils.ts:35-36 | 1900 has none |
| CivilDate.MonthLengths | admin-dashboard/lib/admin/billing-utils.ts:35-36 | the lengths of the months in every year |
| CivilDate.Milliseconds | admin-dashboard/lib/admin/billing-utils.ts:37-50 | the length of a day and the range of time values |
| Subscription.ExtensionsAddUpExactly | admin-dashboard/lib/admin/billing-utils.ts:30-51 | at a fixed clock every extension adds exactly its days, for every stored end, exactly when the clock is not before 31 December 1999 |
| Subscription.ExtensionAddsDays | admin-dashboard/lib/admin/billing-utils.ts:30-51 | from that day on, days remaining after extending are the old ones (0 if expired, absent or invalid) plus the days |
| Subscription.EarlyClockFails | admin-dashboard/lib/admin/billing-utils.ts:35-37 | before it, an end and an extension for which they are not |
| Subscription.ExtensionsCompose | admin-dashboard/lib/admin/billing-utils.ts:41-51 | extending by a and then b is extending by a + b, range errors included |
| Subscription.SignedExtensionsCompose | admin-dashboard/lib/admin/billing-utils.ts:41-51 | with negative counts exactly when the first result is not in the past |
| Subscription.SetUtcDateShifts | admin-dashboard/lib/admin/billing-utils.ts:49 | setting the date k further moves the time by exactly k days, across months and leap years |
| Subscription.DaysRemainingValue | admin-dashboard/lib/admin/billing-utils.ts:30-39 | from year 100 on, days remaining are the difference of the day numbers, floored at 0 |
| Subscription.DaysKnownExactly | admin-dashboard/lib/admin/billing-utils.ts:31-33 | there is no number of days exactly if the end is absent or no date |
| Subscription.ExtensionKeepsTime | admin-dashboard/lib/admin/billing-utils.ts:41-51 | an extension keeps the time of day of its base, moves its day by the count and fails exactly out of range |
| Subscription.UtcMidnight | admin-dashboard/lib/admin/billing-utils.ts:35-36 | `Date.UTC` gives midnight of the date from the year 100 on |
| Subscription.ExtendEndsAt | admin-dashboard/lib/admin/billing-utils.ts:41-51 | the base reassigned and the date advanced give the base plus whole days, or the range error |
| Subscription.AdvanceUtcDate | admin-dashboard/lib/admin/billing-utils.ts:48-49 | mutating the date moves it by whole days |
| AuditMetadata.SanitizingIsIdempotent | admin-dashboard/lib/admin/audit-logs-utils.ts:38-83 | sanitising twice is sanitising once, for records and for values under any key |
| AuditMetadata.SanitizedIsPresentable | admin-dashboard/lib/admin/audit-logs-utils.ts:57-83 | at every depth, through lists, sensitive keys hold the mask and no empty record or secret-looking list item is left |
| AuditMetadata.FixedExactlyWhenPresentable | admin-dashboard/lib/admin/audit-logs-utils.ts:57-83 | a record is left alone exactly when it is already so |
| AuditMetadata.KeysKept | admin-dashboard/lib/admin/audit-logs-utils.ts:67-71 | the keys a record keeps, in order, are all but those of nested records with nothing to show |
| AuditShape.SanitizedExactly | admin-dashboard/lib/admin/audit-logs-utils.ts:57-83 | at every depth, lists included, the sanitised record is the one record related to the input: kept keys in order, masks under sensitive keys, nested records and lists shown in turn, everything else unchanged |
| AuditShape.RecordIsShown | admin-dashboard/lib/admin/audit-logs-utils.ts:62-82 | the sanitiser meets that relation |
| AuditShape.OneRecordIsShown | admin-dashboard/lib/admin/audit-logs-utils.ts:62-82 | and the relation leaves no choice |
| AuditShape.ValueIsShown | admin-dashboard/lib/admin/audit-logs-utils.ts:38-55 | a value on its own: null or the mask under a sensitive key, shown as in a list otherwise |
| AuditShape.SensitiveWords | admin-dashboard/lib/admin/audit-logs-utils.ts:3-28 | the words that make a key sensitive, in any case |
| AuditShape.SecretWords | admin-dashboard/lib/admin/audit-logs-utils.ts:45 | the words and the length that make a string look secret |
| AuditMetadata.EmptyExactlyWhenHollow | admin-dashboard/lib/admin/audit-logs-utils.ts:67-82 | a record sanitises to nothing exactly when it holds nothing but such records, all the way down |
| AuditMetadata.ItemKeySensitivity | admin-dashboard/lib/admin/audit-logs-utils.ts:49 | appending "[i]" never changes whether a key is sensitive |
| AuditMetadata.EntriesAreIndependent | admin-dashboard/lib/admin/audit-logs-utils.ts:62-81 | no entry influences another |
| AuditMetadata.SanitizeMetadataRecord | admin-dashboard/lib/admin/audit-logs-utils.ts:57-83 | the loop terminates with the sanitised record |
| AuditMetadata.SanitizeMetadataValue | admin-dashboard/lib/admin/audit-logs-utils.ts:38-55 | the recursion terminates with the sanitised value |
| AlertMetadata.KeysAreKept | admin-dashboard/lib/admin/alerts-normalizer.ts:69-91 | exactly the keys of the input are kept, in order, in every record entered |
| AlertShape.SanitizedExactly | admin-dashboard/lib/admin/alerts-normalizer.ts:69-91 | the sanitised record is the one record related to the input entry by entry, at every depth it enters |
| AlertShape.SensitiveWords | admin-dashboard/lib/admin/alerts-normalizer.ts:11-12 | the words that make a key sensitive, in any case |
| AlertShape.StreamIsMasked | admin-dashboard/lib/admin/alerts-normalizer.ts:83 | every stream address is masked, in any case |
| AlertShape.SignedLinkIsMasked | admin-dashboard/lib/admin/alerts-normalizer.ts:83 | so is every link with a signature on its first line |
| AlertShape.OthersAreKept | admin-dashboard/lib/admin/alerts-normalizer.ts:83 | no other string is |
| AlertMetadata.SanitizedIsClean | admin-dashboard/lib/admin/alerts-normalizer.ts:69-91 | nothing is left to mask in the record and the records nested directly in it; lists are not entered |
| AlertMetadata.DeepCleanExactly | admin-dashboard/lib/admin/alerts-normalizer.ts:69-91 | nothing is left to mask at any depth, lists included, exactly when every list reached under harmless keys held nothing to mask |
| AlertMetadata.ListEscapes | admin-dashboard/lib/admin/alerts-normalizer.ts:78-88 | a token in a record inside a list comes out as it was |
| AlertMetadata.FixedExactlyWhenClean | admin-dashboard/lib/admin/alerts-normalizer.ts:69-91 | a record is left alone exactly when there was nothing to mask outside its lists |
| AlertMetadata.SanitizingIsIdempotent | admin-dashboard/lib/admin/alerts-normalizer.ts:69-91 | sanitising twice is sanitising once |
| AlertMetadata.SanitizeMetadata | admin-dashboard/lib/admin/alerts-normalizer.ts:69-91 | the loop computes the sanitised record |
| Alerts.NormalizingIsIdempotent | admin-dashboard/lib/admin/alerts-normalizer.ts:101-128 | normalising a normalised alert returns it, whatever the server first sent |
| Alerts.NormalizedIsNormal | admin-dashboard/lib/admin/alerts-normalizer.ts:101-128 | every normalised alert has known severity and status, no blank texts and sanitised metadata |
| Alerts.NormalIsFixed | admin-dashboard/lib/admin/alerts-normalizer.ts:101-128 | the object form of any such alert normalises to the alert, past the server's own spellings |
| AlertWire.ServerAlertReads | admin-dashboard/lib/admin/alerts-normalizer.ts:101-128 | an alert as the server writes it, keys present or absent: each field is the value under its own key or the default |
| AlertWire.PlacesAndTimes | admin-dashboard/lib/admin/alerts-normalizer.ts:107-125 | in any record, the server's spelling of places and times wins over the dashboard's |
| AlertWire.WordsOfAlert | admin-dashboard/lib/admin/alerts-normalizer.ts:103-116 | id, title, message, severity, status and metadata come from their own keys |
| AlertWire.KindAndOpening | admin-dashboard/lib/admin/alerts-normalizer.ts:113-122 | the spellings of type and opening time, in their order |
| AlertWire.SeverityWords | admin-dashboard/lib/admin/alerts-normalizer.ts:39-45 | the three severities in any case, everything else unknown |
| AlertWire.StatusWords | admin-dashboard/lib/admin/alerts-normalizer.ts:47-53 | the three statuses in any case, everything else unknown |
| AlertWire.OtherValuesRead | admin-dashboard/lib/admin/alerts-normalizer.ts:39-53 | values that are no strings are read through their text |
| AlertWire.MetadataReads | admin-dashboard/lib/admin/alerts-normalizer.ts:55-67 | metadata as an object, as text, and what is none |
| AlertWire.NoRecord | admin-dashboard/lib/admin/alerts-normalizer.ts:101-128 | what is no record is an alert without anything |
| Alerts.ComputeAlertsSummary | admin-dashboard/lib/admin/alerts-normalizer.ts:191-218 | the counters are the lengths of the filtered lists; critical and warning ones without those resolved |
| Alerts.SingleChoices | admin-dashboard/lib/admin/alerts-normalizer.ts:246-288 | a filter with a single choice is the plain comparison |
| AlertFilters.FiltersAreIndependent | admin-dashboard/lib/admin/alerts-normalizer.ts:259-287 | an alert passes exactly if it passes each filter alone |
| AlertFilters.EmptyChoices | admin-dashboard/lib/admin/alerts-normalizer.ts:260-270 | empty choices, and "all" where it is one, let everything through |
| AlertFilters.ChoicesCompare | admin-dashboard/lib/admin/alerts-normalizer.ts:260-270 | every choice is compared with its own field |
| AlertFilters.SearchFinds | admin-dashboard/lib/admin/alerts-normalizer.ts:257-285 | the trimmed search text is looked for in any case |
| AlertFilters.SearchedTexts | admin-dashboard/lib/admin/alerts-normalizer.ts:272-283 | the seven texts searched, in their order |
| AlertFilters.Searched | admin-dashboard/lib/admin/alerts-normalizer.ts:281-282 | absent and empty texts are left out of what is searched |
| AlertFilters.FilteredInOrder | admin-dashboard/lib/admin/alerts-normalizer.ts:259 | filtering keeps the order and treats every alert on its own |
| AlertFilters.OneFiltered | admin-dashboard/lib/admin/alerts-normalizer.ts:259-287 | of a list of one alert that alert stays exactly if it passes |
| AlertFilters.WordsOfSummary | admin-dashboard/lib/admin/alerts-normalizer.ts:209-215 | which deliveries have failed and which alerts are resolved on a day |
| Text.WhiteSpaceIs | admin-dashboard/lib/admin/children-normalizer.ts:36 | the characters `trim` takes off, as ECMA-262 lists them |
| Alerts.IndexDeliveries | admin-dashboard/components/alerts/AlertsPage.tsx:85-93 | every id is listed with the order-preserving filter of the input, no list is empty and the lengths add up to the input's |
| Alerts.TotalWithout | admin-dashboard/components/alerts/AlertsPage.tsx:85-93 | the total does not depend on the order in which the lists are visited |
| Pagination.PagesPartition | admin-dashboard/lib/list-controls.ts:7-16 | pages 0 to pageCount - 1 put together are the list |
| Pagination.RangeIsTheSlice | admin-dashboard/lib/list-controls.ts:7-33 | for every requested page the range shown is exactly the slice of the clamped page, and not empty |
| Pagination.PageCountIsLeast | admin-dashboard/lib/list-controls.ts:13-16 | the page count is the least number of pages that hold every item, and at least one |
| Pagination.EdgeCases | admin-dashboard/lib/list-controls.ts:7-33 | no page size, no items, a page past the end |
| Pagination.ClampedPage | admin-dashboard/lib/list-controls.ts:18-21 | the nearest page there is |
| Parents.GetParentById | admin-dashboard/lib/admin/parents-api.ts:58-94 | for every combination of answers: the error, no detail, all linked children, or none at all, never some |
| Parents.LinkedAcrossIsListing | admin-dashboard/lib/admin/parents-api.ts:67-88 | the children found are exactly the linked ones, each once, in school-then-child order |
| Parents.LinkedPositions | admin-dashboard/lib/admin/parents-api.ts:69-87 | within a school they are the linked positions in ascending order |
| Parents.LinkShows | admin-dashboard/lib/admin/parents-api.ts:73-85 | what is shown of a linked child, field by field |
| Parents.JoinChildren | admin-dashboard/lib/admin/parents-api.ts:65-93 | the nested loops give the join exactly when every school's children can be read |
| Parents.Find | admin-dashboard/lib/admin/parents-api.ts:60 | the first parent with the id, if there is one |
| Routes.RedirectsSettle | admin-dashboard/lib/auth/guards.tsx:23-81 | from any page of the site two redirects at most, those of the root, the billing index and every guard included, lead to the visitor's destination, which shows its content exactly if the visitor has the permission it needs and the access-denied panel otherwise |
| Routes.NoLoop | admin-dashboard/lib/auth/guards.tsx:23-81 | further steps change nothing |
| Routes.VisitorsEnd | admin-dashboard/lib/auth/guards.tsx:23-81 | where each kind of visitor ends up, in plain paths |
| Routes.ShowsOrRedirects | admin-dashboard/lib/auth/guards.tsx:23-81 | a settled page shows something, content or the access-denied panel, exactly when it does not redirect |
| Routes.CreateSchoolGuardIsIdle | admin-dashboard/components/schools/CreateSchoolGuard.tsx:10-27 | the guard never redirects: inside the shell it is mounted only where RequirePermission has found the same permission |
| Routes.PermissionExactly | admin-dashboard/lib/auth/page-permissions.ts:34-46 | a page needs a permission exactly when its address starts with a prefix of the table: the special one if there is one, that entry's otherwise |
| Routes.PrefixNeeds | admin-dashboard/lib/auth/page-permissions.ts:3-21 | the permission of each prefix, written out |
| Routes.SpecialPages | admin-dashboard/lib/auth/page-permissions.ts:23-32 | the permissions of the special pages, written out |
| Routes.SpecialsExactly | admin-dashboard/lib/auth/page-permissions.ts:23-32 | only these pages are special, editing a school among them |
| Routes.EditPage | admin-dashboard/lib/auth/page-permissions.ts:28 | the page to edit a school with any id of one segment |
| Routes.ProtectedNeedsPermission | admin-dashboard/lib/routes.ts:49-70 | every protected path, whatever follows the prefix, needs a permission |
| Routes.ProtectedExactly | admin-dashboard/lib/routes.ts:48-70 | the protected paths, written out |
| Routes.EntriesAreDisjoint | admin-dashboard/lib/auth/page-permissions.ts:3-21 | no path matches two entries, so the order of the table does not matter |
| Routes.FirstMatchIsTheMatch | admin-dashboard/lib/auth/page-permissions.ts:41-43 | the search finds the entry that matches |
| Routes.QueryIsIgnored | admin-dashboard/lib/auth/page-permissions.ts:35 | a query does not change which entry matches |
| Routes.QueryIsCutOff | admin-dashboard/lib/auth/page-permissions.ts:35 | the address up to its first question mark is looked up |

## Left out

- React: rendering, effects and batching; `setState` takes effect at once, and the interval may fire at any moment,
  also when the effect would have stopped it. Navigation after logout is not part of the session model.
- Several tabs writing the same storage, and page reloads during a refresh.
- A password change in the machine keeps a captured access token, since only authenticated views offer it; the branch
  that refreshes a missing one is in `AuthProvider.Tab.ChangePassword` only. The machine takes the two handlers of the
  session store as registered; the class does not.
- HTTP: `resolveUrl`, headers other than Authorization, methods, device name and fingerprint; a request is its path,
  token and body.
- The backend, except that refresh tokens are single-use; it may revoke a token it has seen at any moment.
- A school's other columns (name, status, phone, counts), the partial update of `updateSchoolLimited`, the e-mail check
  of the form schema (a parameter), and what a browser's single-line input does to line breaks in a form value.
- Floating point beyond one rounding of a quotient and of a product: minor units are integers, exact in JavaScript up to
  2^53, and amounts are reals; `toLocaleString` is an exact en-US printer of the real it is given; infinite and NaN
  amounts and negative zero are not modelled.
- Refinement.CodeRefines: carries one operation of the code at a time, with steps of the machine for the others; that
  several operations of the code make up one run together is not stated.
- Parsing and printing of ISO dates; a stored end is absent, unparsable or a time value.
- Characters are code points, so the length of a text beyond the basic plane is not the one JavaScript counts.
- Letter case is ASCII only; white space is the full set of ECMA-262. `JSON.parse` is a parameter or the identity on
  values, keys of a record are distinct and in `Object.entries` order.
- Fields of children, parents and deliveries that the modelled functions only copy.
- Redirects that follow a form or add a query to the page they are on, and the framework's own handling of trailing
  slashes and of addresses without a page; the role table is any function from permissions to yes or no.
- Health scores, role tables, labels, audit categories and summaries, form schemas and queries: each follows at once
  from its definition.
- Alerts.IndexDeliveries: does not model that each list is updated in place and shared with the map, because the lists
  are never reachable from elsewhere while the index is built.
