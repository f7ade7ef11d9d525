# MemoryOS core, modelled in Dafny

MemoryOS is a personal memory and reminder application. A React client keeps a
global store, guards its private pages and validates its forms. A Flask server
registers and signs in users, and stores each user's memories and reminders.
Free accounts are limited to 100 memories; premium accounts have no limit.

This project models the decision logic of both halves as pure functions over
immutable data, and proves properties of them:

- **Client store** (`Store`): the state record, the closed set of actions, the
  reducer `Step`, and the start-up authentication check as a fixed sequence of
  dispatches over the outcome of fetching the current user.
- **Route guard** (`RouteGuard`) and the login page's return target
  (`LoginPage`): the three-way decision on the loading and authentication
  flags, and the `from` location handed from one to the other.
- **Forms and list pages** (`FormRules`, `LoginPage`, `RegisterPage`,
  `AddMemoryPage`, `AddReminderPage`, `RemindersPage`, `MemoryVaultPage`,
  `ListPages`):
  - validators, the tag and checkbox editors, the password-strength meter;
  - request bodies, the reminders filter pipeline, URL parameters and filter
    counts;
  - content previews, badge lookups and pagination controls.
- **Server handlers** (`AuthRoutes`, `MemoryRoutes`, `ReminderRoutes`,
  `UserRoutes`): each handler is a function from the stored data, the
  caller and the decoded request body to a status and the data after the
  request. `Db` holds the data model and the Python operations a handler
  applies to a body. Any exception is an answer of 500 that leaves the data
  unchanged.
- **Reminder model** (`ReminderModel`): completing, reopening, the overdue
  test and the serialised dictionary.
- **Shared modules**: `Wrappers`, `Json` (values and the truthiness of both
  languages), `Text` (the two whitespace sets, trimming, ASCII classes,
  substring search, `parseInt`) and `Seqs` (filtering and ordering by a key).

Some inputs the source reads from the environment are parameters here:
- the clock is `now`, an integer number of seconds;
- date parsing (`fromisoformat`, `new Date`) is a partial function `parse`;
- ISO rendering is `iso`;
- password hashing and checking are `hash` and `check`;
- the memory-type enumeration of the memory routes is `types`;
- the database's substring test is `like`;
- the text a stored tag list is searched as is `tagsText`.

Two server trees exist in the repository (`backend/` and `src/api/`); they are
treated as one backend over one set of tables.

## Model

| member | source | states |
|---|---|---|
| RouteGuard.Guard | frontend/src/components/ProtectedRoute.jsx:5-30 | the spinner is shown exactly while loading; the children exactly when not loading and authenticated; otherwise a replacing redirect to `/login` that carries the current location |
| RouteGuard.GuardReadsOnlyFlags | frontend/src/components/ProtectedRoute.jsx:10-29 | two stores with the same loading and authentication flags get the same view |
| RouteGuard.GuardKindIgnoresLocation | frontend/src/components/ProtectedRoute.jsx:24-26 | the location only decides where a redirect returns to, never which view is shown |
| RouteGuard.GuardAfterCheckAuth | frontend/src/components/ProtectedRoute.jsx:10-29 | after the start-up check from the initial store the guard never spins, and it renders the children iff a user was fetched |
| FormRules.MatchLooseEmail | frontend/src/pages/Login.jsx:46 | the left-to-right search answers true iff some `@` and a later `.` split the text as `/\S+@\S+\.\S+/` requires |
| FormRules.MixedCaseNeedsClasses | frontend/src/pages/Register.jsx:64 | a match of the three-lookahead pattern implies a lower-case letter, an upper-case letter and a digit all occur |
| FormRules.MixedCaseOnOneLine | frontend/src/pages/Register.jsx:64 | on text without line terminators the pattern matches iff all three classes occur |
| FormRules.MixedCaseLineBreak | frontend/src/pages/Register.jsx:64 | `"abcdefg\nA1"` holds all three classes yet fails the pattern, because `.` does not cross a line break |
| FormRules.TitleError | frontend/src/pages/AddMemory.jsx:85-89 | no error iff the trimmed title has at least 3 characters; "Title is required" iff the title is all whitespace; "Title must be at least 3 characters" iff the trimmed title has 1 or 2 characters |
| FormRules.ClearFieldError | frontend/src/pages/Login.jsx:33-38 | the same fields keep errors; the edited field's error becomes empty; every other error is unchanged |
| ListPages.NonEmptyParams | frontend/src/pages/MemoryVault.jsx:80-83 | only non-empty filter values are written, every non-empty one is, in their order |
| ListPages.ReadBackNonEmpty | frontend/src/pages/MemoryVault.jsx:12-14 | with distinct keys, reading a key back from the written parameters gives that filter's value, empty when it was empty |
| ListPages.CountNonEmpty | frontend/src/pages/MemoryVault.jsx:151 | the active-filter count is at most the number of filters and is zero iff every value is empty |
| ListPages.NonEmptyParamsCount | frontend/src/pages/MemoryVault.jsx:151 | as many parameters are written as the active-filter count says |
| ReminderModel.New | src/api/models/reminder.py:14-37 | a new reminder is pending with no completion instant, carries the given identifier, owner, title, description, type, trigger, repeat pattern and link, and both timestamps are the creation instant |
| ReminderModel.Touch | src/api/models/reminder.py:22 | the modification time moves to `now` exactly when some column changed |
| ReminderModel.MarkCompleted | src/api/models/reminder.py:39-42 | the reminder becomes completed at `now`, consistently, and nothing but the completion columns and the modification time changes |
| ReminderModel.MarkUncompleted | src/api/models/reminder.py:44-47 | the reminder becomes pending with no completion instant, and nothing but those columns and the modification time changes |
| ReminderModel.CompleteThenReopen | src/api/models/reminder.py:39-47 | completing a pending reminder and reopening it restores it apart from the modification time |
| ReminderModel.MarkingIsIdempotent | src/api/models/reminder.py:39-47 | reopening a pending reminder, or completing again at the completion instant, changes nothing |
| ReminderModel.IsoOrNull | src/api/models/reminder.py:60 | an optional instant renders as null exactly when it is absent, otherwise as its ISO text |
| ReminderModel.ToDict | src/api/models/reminder.py:54-69 | the dictionary has exactly the thirteen keys; the optional dates and repeat pattern are null exactly when absent; completion and overdue flags are as on the row |
| ReminderModel.ToDictConsistent | src/api/models/reminder.py:49-69 | for a consistent reminder, `completed_at` is null iff `is_completed` is false, and an overdue reminder is pending and has a trigger |
| MemoryRoutes.SearchStage | src/api/routes/memories.py:22-32 | the owner filter followed by the search filter keeps exactly the caller's memories whose title, content or tag text contains a non-empty search |
| MemoryRoutes.TypeStage | src/api/routes/memories.py:34-36 | adding the type filter keeps, among those, exactly the memories of the requested type when it is a value of the enumeration |
| MemoryRoutes.StagesAreOneFilter | src/api/routes/memories.py:21-40 | the query built filter by filter selects exactly the memories satisfying the conjunctive listing rule, in table order |
| MemoryRoutes.NewestFirst | src/api/routes/memories.py:43 | the result is a permutation of the input in non-increasing creation order |
| MemoryRoutes.ListMemories | src/api/routes/memories.py:10-43 | before pagination the list holds exactly the stored memories satisfying the listing rule, each as often as stored, newest first |
| MemoryRoutes.EmptyQueryListsOwn | src/api/routes/memories.py:22-43 | with no search, type or level the list holds exactly the caller's memories |
| MemoryRoutes.GetStats | src/api/routes/memories.py:210-240 | the total is the caller's memory count, and each per-type and per-level figure counts the caller's memories with that type or level |
| MemoryRoutes.StatsAddUp | src/api/routes/memories.py:216-234 | over well-formed data the per-type counts and the per-level counts each sum to the total |
| MemoryRoutes.LevelsCover | src/api/routes/memories.py:229-234 | the counts for levels 1 to 5 sum to the number of memories whose levels are in range |
| MemoryRoutes.CreateImportance | src/api/routes/memories.py:116-118 | the stored level is always from 1 to 5, and is the sent integer whenever that is in range |
| MemoryRoutes.CreateType | src/api/routes/memories.py:112-114 | a sent enumeration value is kept; anything else becomes "note" |
| MemoryRoutes.CreateFields | src/api/routes/memories.py:103-107 | reading succeeds iff the body is a dictionary whose title and content, when present, are strings; both are stripped |
| MemoryRoutes.CreateChecks | src/api/routes/memories.py:88-128 | refusals are 400, 403 or 500; 403 iff the account is free and already holds 100 memories; a memory is created iff the user exists, is under the limit, and the body is non-empty with readable fields and a non-empty stripped title; past the limit, 400 "No data provided" iff the body is empty and 400 "Title is required" iff the readable title strips to nothing, and no other 400 |
| MemoryRoutes.NewMemoryShape | src/api/routes/memories.py:120-128 | the new memory is the caller's, created now, with an identifier above every existing one, a level from 1 to 5 and the sent tags or an empty list |
| MemoryRoutes.CreatedMemoryShape | src/api/routes/memories.py:103-128 | a created memory is the caller's, with a fresh identifier, a stripped non-empty title, a type of the enumeration and a level from 1 to 5 |
| MemoryRoutes.CreateMemory | src/api/routes/memories.py:85-140 | 201 iff the checks pass, in which case exactly the new memory is appended; 403 iff at the free limit; 400 "No data provided" and 400 "Title is required" each exactly under CreateChecks' condition; every other answer leaves the data unchanged |
| MemoryRoutes.PremiumNeverLimited | src/api/routes/memories.py:93 | a premium account is never refused for its number of memories |
| MemoryRoutes.AppendMemoryCount | src/api/routes/memories.py:94 | appending a memory raises its owner's count by one and no one else's |
| MemoryRoutes.CreateKeepsInvariants | src/api/routes/memories.py:92-131 | creation keeps every free account within 100 memories and every memory well formed |
| MemoryRoutes.EditTitle | src/api/routes/memories.py:158-162 | the title step changes at most the title, and never to an empty one |
| MemoryRoutes.EditContent | src/api/routes/memories.py:164-165 | the content step changes at most the content |
| MemoryRoutes.EditType | src/api/routes/memories.py:167-170 | the type step changes at most the type, and only to a value of the enumeration |
| MemoryRoutes.EditTags | src/api/routes/memories.py:172-173 | the tags step changes at most the tags |
| MemoryRoutes.EditImportance | src/api/routes/memories.py:175-178 | the level step changes at most the level, and only to a value from 1 to 5 |
| MemoryRoutes.UpdateSetsPresentKeys | src/api/routes/memories.py:157-178 | an accepted update sets exactly the present keys (title stripped and non-empty, content stripped, type and level only when valid, tags as sent), keeps absent ones, and never changes identifier, owner or creation instant |
| MemoryRoutes.EmptyTitleRefused | src/api/routes/memories.py:158-161 | a title that strips to nothing is refused with 400 whatever else the body holds |
| MemoryRoutes.UpdateRejectsEmptyTitle | src/api/routes/memories.py:142-161 | at the handler, an owned memory sent a title that strips to nothing is answered 400 "Title cannot be empty" with the data unchanged |
| MemoryRoutes.UpdateKeepsWellFormed | src/api/routes/memories.py:157-178 | an accepted update keeps a memory's type in the enumeration and its level from 1 to 5 |
| MemoryRoutes.UpdateMemory | src/api/routes/memories.py:142-189 | the answer is 200, 400, 404 or 500; 404 iff the caller has no such memory; only 200 writes, saving the edited memory over its row; an owned memory with a non-empty body whose edits are accepted is answered 200; 400 "No data provided" iff an owned memory is sent an empty body; a refusal of the edits is answered with its own status and message |
| MemoryRoutes.UpdateKeepsInvariants | src/api/routes/memories.py:142-189 | updates keep every memory well formed and every free account within the limit |
| MemoryRoutes.UpdateOwnerKept | src/api/routes/memories.py:157-178 | an accepted update never changes the memory's owner |
| MemoryRoutes.ReplaceKeepsCount | src/api/routes/memories.py:180 | saving a row over rows of the same owner keeps every user's memory count |
| MemoryRoutes.Unlink | backend/models/memory.py:28 | exactly the reminders linked to the memory lose the link, and only they are touched |
| MemoryRoutes.DeleteMemory | src/api/routes/memories.py:191-208 | 404 iff the caller has no such memory, leaving the data unchanged; otherwise exactly that row goes, users are kept and linked reminders are unlinked |
| MemoryRoutes.DeleteRemovesAndUnlinks | src/api/routes/memories.py:196-202 | after a deletion the caller has no memory with that identifier, every other memory stays and no reminder links to it |
| MemoryRoutes.DeleteKeepsInvariants | src/api/routes/memories.py:191-208 | deletion keeps every reminder link valid, every memory well formed and every free account within the limit |
| ReminderRoutes.SaveReminder | backend/routes/reminders.py:194 | committing a changed reminder replaces exactly the caller's row with that identifier and keeps users and memories |
| ReminderRoutes.ListReminders | backend/routes/reminders.py:11-43 | before pagination the list is a permutation of the reminders satisfying the listing rule; a completed list is latest completion first, any other soonest trigger first with undated reminders last |
| ReminderRoutes.LatestKeyOrder | backend/routes/reminders.py:40-41 | ascending by the negated completion instant, keyless last, is `desc(completed_at)`: latest completion first, uncompleted last |
| ReminderRoutes.ListWith | backend/routes/reminders.py:39-65 | the list is answered iff the ordering term is one SQL accepts, with the reminders satisfying the listing rule; otherwise 500 "Failed to retrieve reminders" |
| ReminderRoutes.RenderedTriggerOrders | backend/routes/reminders.py:43 | the written ordering renders as `reminders.trigger_date NULLS LAST ASC`, the intended one as `reminders.trigger_date ASC NULLS LAST` |
| ReminderRoutes.WrittenOrderFails | backend/routes/reminders.py:39-65 | as written, the list is answered iff the status is "completed"; any other status gets 500 |
| ReminderRoutes.IntendedOrderLists | backend/routes/reminders.py:39-43 | with the intended ordering every status is answered with the ordered list |
| ReminderRoutes.TypeStage | backend/routes/reminders.py:22-26 | the owner filter followed by the type filter keeps exactly the caller's reminders of a known type asked for |
| ReminderRoutes.ListIsOneFilter | backend/routes/reminders.py:21-37 | the query built filter by filter selects exactly the reminders satisfying the conjunctive listing rule |
| ReminderRoutes.CompletedListFullyOrdered | backend/routes/reminders.py:29-41 | over consistent data every reminder of the completed list has a completion instant, in non-increasing order |
| ReminderRoutes.ListedMember | backend/routes/reminders.py:21-37 | every listed reminder is a stored one satisfying the listing rule |
| ReminderRoutes.CompletedAndPendingSplitAll | backend/routes/reminders.py:28-32 | the completed and the pending lists together are exactly the unfiltered list |
| ReminderRoutes.SoonestFirst | backend/routes/reminders.py:280 | the result is a permutation of the input in non-decreasing trigger order |
| ReminderRoutes.Upcoming | backend/routes/reminders.py:266-285 | exactly the caller's pending reminders triggering from now to `days` days later, both ends included, soonest first |
| ReminderRoutes.Overdue | backend/routes/reminders.py:290-305 | exactly the caller's pending reminders triggering strictly before now, soonest first |
| ReminderRoutes.UpcomingOverdueDisjoint | backend/routes/reminders.py:275-300 | at one instant no reminder is both upcoming and overdue |
| ReminderRoutes.OverdueAgreesWithModel | backend/routes/reminders.py:296-300 | a reminder is on the overdue list iff it is the caller's and the model's `is_overdue` holds, and each listed one serialises with `is_overdue` true |
| ReminderRoutes.OverdueStatusIsOverdueRoute | backend/routes/reminders.py:33-37 | the list's "overdue" status selects the same reminders as the overdue route |
| ReminderRoutes.ReadTrigger | backend/routes/reminders.py:106-112 | accepted iff the value is falsy or text the parser reads once every `Z` is `+00:00`; a falsy value gives no instant, accepted text the parsed one; 400 iff the parser rejects the text; other values raise |
| ReminderRoutes.CheckMemory | backend/routes/reminders.py:114-118 | a falsy link passes untouched; a truthy one passes only if it designates a memory of the caller; 404 iff a truthy, bindable link designates none; 500 iff it is a truthy list or dictionary |
| ReminderRoutes.CreateFields | backend/routes/reminders.py:92-97 | reading succeeds iff the body is a dictionary whose title, description and repeat pattern are absent or strings; the type defaults to "deadline", the link and trigger are the sent values or null |
| ReminderRoutes.CreateFieldsStripped | backend/routes/reminders.py:92-96 | the title, description and repeat pattern read are the stripped strings sent, an absent one reading as "" |
| ReminderRoutes.CreateType | backend/routes/reminders.py:102-104 | the type is always of the enumeration, and is the sent one when it is |
| ReminderRoutes.CreateChecks | backend/routes/reminders.py:85-129 | 400 "No data provided" iff the body is falsy; 500 when the fields cannot be read; 400 "Title is required" iff the stripped title is empty; otherwise the trigger and link checks decide; an accepted row has the new-row shape, holds the fields read as sent and was created now |
| ReminderRoutes.CreateFrom | backend/routes/reminders.py:106-129 | accepted iff the trigger reads, the link is bindable and, when truthy, designates a memory of the caller; 400 iff the trigger text does not parse; 404 iff the trigger reads and a truthy bindable link designates none; the row stores the stripped title and description, the type, the parsed trigger, a blank repeat pattern as null and the sent link |
| ReminderRoutes.Created | backend/routes/reminders.py:120-129 | the new row is the caller's, with the title, trigger and link given, pending and consistent, a known type, an identifier above every existing one, and no blank repeat pattern |
| ReminderRoutes.AppendKeepsConsistent | backend/routes/reminders.py:120-132 | appending a consistent row keeps every row consistent |
| ReminderRoutes.AppendKeepsLinks | backend/routes/reminders.py:114-132 | appending a row whose truthy link designates one of its owner's memories keeps every link valid |
| ReminderRoutes.FreshAbove | backend/routes/reminders.py:131-132 | the new identifier is above every identifier in the table |
| ReminderRoutes.CreateReminder | backend/routes/reminders.py:82-141 | 201 iff the checks pass, appending exactly one row, the caller's, pending, created now, holding the sent fields; 400 "No data provided" iff the body is falsy; every other answer leaves the data unchanged |
| ReminderRoutes.CreateRejectsBadTrigger | backend/routes/reminders.py:106-112 | a trigger text the parser rejects is answered 400 with the data unchanged |
| ReminderRoutes.TitledFields | backend/routes/reminders.py:92-99 | a dictionary with a usable title and no description or pattern yields its fields, with the sent trigger |
| ReminderRoutes.EditTitle | backend/routes/reminders.py:159-163 | the title step changes at most the title, to the stripped sent text, which is non-empty |
| ReminderRoutes.EditDescription | backend/routes/reminders.py:165-166 | the description step changes at most the description, to the stripped sent text |
| ReminderRoutes.EditType | backend/routes/reminders.py:168-171 | the type step changes at most the type, to the sent value only when it is of the enumeration |
| ReminderRoutes.EditTrigger | backend/routes/reminders.py:173-181 | the trigger step changes at most the trigger: a falsy value clears it, text sets the parsed instant; a sent trigger is refused with 400 "Invalid trigger date format" exactly when the trigger reader refuses it that way; any other refusal is a 500 |
| ReminderRoutes.EditRepeat | backend/routes/reminders.py:183-184 | the pattern step changes at most the pattern, and a blank one is cleared rather than stored |
| ReminderRoutes.EditMemory | backend/routes/reminders.py:186-192 | the link step changes at most the link, stores the sent value, and a new truthy link designates a memory of the caller; a sent link is refused with 404 "Associated memory not found" exactly when the memory check refuses it that way; any other refusal is a 500 |
| ReminderRoutes.UpdateEdits | backend/routes/reminders.py:158-192 | the edits change only the editable columns, refusals are one of 400 "Title cannot be empty", 400 "Invalid trigger date format", 404 "Associated memory not found" or 500, and a new truthy link designates a memory of the caller |
| ReminderRoutes.UpdateSetsPresentKeys | backend/routes/reminders.py:158-192 | an accepted update sets exactly the present keys (stripped non-empty title, stripped description, valid type, falsy trigger cleared, blank pattern cleared, link as sent) and keeps absent ones |
| ReminderRoutes.UpdateChecks | backend/routes/reminders.py:146-194 | 404 when the caller has no such reminder; an accepted row is the found row after the edits, its modification time moved only if something changed, with a link the column can store; 400 "No data provided" for an empty body; conversely, accepted edits of an owned reminder with a storable link are always saved; a refusal of the edits is passed through unchanged |
| ReminderRoutes.UpdateReminder | backend/routes/reminders.py:143-203 | 200 iff the checks pass, saving the edited row; a refusal of the checks is answered with its status and message and leaves the data unchanged |
| ReminderRoutes.UpdateRejectsEmptyTitle | backend/routes/reminders.py:159-162 | a title that strips to nothing is answered 400 with the data unchanged, whatever else the body holds |
| ReminderRoutes.UpdateRejectsBadTrigger | backend/routes/reminders.py:143-179 | when the title and description are acceptable, an unparseable trigger text is answered 400 "Invalid trigger date format" with the data unchanged |
| ReminderRoutes.UpdateRejectsForeignMemory | backend/routes/reminders.py:143-192 | when the earlier fields are acceptable, a truthy link that the column can store but that is not one of the caller's memories is answered 404 "Associated memory not found" with the data unchanged |
| ReminderRoutes.DeleteReminder | backend/routes/reminders.py:205-222 | 404 iff the caller has no such reminder, leaving the data unchanged; otherwise exactly the caller's rows with that identifier go and users and memories are kept |
| ReminderRoutes.Complete | backend/routes/reminders.py:224-243 | 404 iff the caller has no such reminder; otherwise the row is saved marked completed at now |
| ReminderRoutes.Uncomplete | backend/routes/reminders.py:245-264 | 404 iff the caller has no such reminder; otherwise the row is saved marked pending |
| ReminderRoutes.CompleteThenUncomplete | backend/routes/reminders.py:224-264 | with unique identifiers, completing a pending reminder then reopening it restores the table apart from that row's modification time |
| ReminderRoutes.SaveRowTwice | backend/routes/reminders.py:194 | saving the caller's row twice is the same as the second save alone |
| ReminderRoutes.FindOnlyRow | backend/routes/reminders.py:148 | with unique identifiers the lookup finds the caller's row with that identifier |
| ReminderRoutes.SaveKeepsConsistent | backend/routes/reminders.py:194 | saving a consistent row keeps every row's completion instant present iff it is completed |
| ReminderRoutes.CreateKeepsConsistent | backend/routes/reminders.py:82-141 | creation keeps every row's completion state consistent |
| ReminderRoutes.UpdateKeepsConsistent | backend/routes/reminders.py:143-203 | updates keep every row's completion state consistent |
| ReminderRoutes.CompletionKeepsConsistent | backend/routes/reminders.py:224-264 | completing and reopening keep every row's completion state consistent |
| ReminderRoutes.DeletionKeepsConsistent | backend/routes/reminders.py:205-222 | deleting a reminder, or a memory with its unlinking, keeps every row's completion state consistent |
| ReminderRoutes.CreateKeepsLinks | backend/routes/reminders.py:114-132 | creation keeps every truthy link designating a memory of the reminder's owner |
| ReminderRoutes.UpdateKeepsLinks | backend/routes/reminders.py:186-194 | updates keep every truthy link designating a memory of the reminder's owner |
| ReminderRoutes.CompletionKeepsLinks | backend/routes/reminders.py:205-264 | completing, reopening and deleting keep every truthy link valid |
| ReminderRoutes.SaveKeepsLinks | backend/routes/reminders.py:194 | saving over the caller's row a row with its old link or a valid one keeps every link valid |
| UserRoutes.FindSaved | backend/routes/users.py:55 | after saving a row over an existing identifier, looking the identifier up finds the saved row |
| UserRoutes.FindByEmailUnique | backend/routes/users.py:50 | in a table with unique addresses, looking up a row's address finds that row |
| UserRoutes.FindByEmailAfterSave | backend/routes/users.py:55 | with unique identifiers and addresses, a saved row that keeps its address is the row found by it |
| UserRoutes.SavedRowEmail | backend/routes/users.py:55 | saving a row that keeps its address leaves every row's address where it was |
| UserRoutes.SaveKeepsUsersConsistent | backend/routes/users.py:55 | saving an existing row whose address is its own or unused, and which is premium or within the limit, keeps every user invariant |
| UserRoutes.SaveKeepsEmails | backend/routes/users.py:46-55 | saving a row whose address is its own or unused keeps addresses unique |
| UserRoutes.SaveKeepsOwners | backend/routes/users.py:55 | saving a user row keeps every memory's owner existing |
| UserRoutes.SaveKeepsFreeLimit | backend/routes/users.py:186-187 | saving a row that is premium or within the limit keeps every free account within 100 memories |
| UserRoutes.ProfileName | backend/routes/users.py:41-43 | the name step changes at most the name, to the stripped sent text; it raises exactly when a present name is not text |
| UserRoutes.ProfileEmail | backend/routes/users.py:45-53 | the address step changes at most the address, only to one nobody holds; 409 exactly for a changed address another row holds; 500 exactly when a present address is not text |
| UserRoutes.ProfileChecks | backend/routes/users.py:30-53 | 404 iff the caller is unknown, 400 iff the body is empty; an accepted row is the caller's with only name and address changed as sent; once the name step passes, the answer is the address step's; 409 "Email already in use" iff a readable name comes with a changed address that another row holds |
| UserRoutes.UpdateProfile | backend/routes/users.py:26-64 | 200 iff the checks pass, saving the caller's row; 404 iff the caller is unknown; 409 "Email already in use" iff the address is changed to one another row holds; every other answer leaves the data unchanged |
| UserRoutes.ProfileKeepsUsersConsistent | backend/routes/users.py:26-64 | a profile update keeps every user invariant, in particular unique addresses |
| UserRoutes.ProfileSetsEmail | backend/routes/users.py:46-53 | an address nobody holds once stripped and lower-cased is stored in the caller's row |
| UserRoutes.ProfileSkipsEmailRule | backend/routes/users.py:46-53 | the profile route stores `x`, an address registration's format rule refuses |
| UserRoutes.PasswordChecks | backend/routes/users.py:70-93 | 404 iff the caller is unknown; accepted iff the caller exists, both passwords are given, the current one checks and the new one has eight or more characters; 401 iff the current one fails the check; 400 "No data provided" iff the body is empty, 400 "Current and new passwords are required" iff either is missing, 400 for a new password shorter than eight characters iff the current one checks, and no other 400 |
| UserRoutes.ChangePassword | backend/routes/users.py:66-103 | 200 iff accepted, storing the hash of the new password in the caller's row and nothing else; the missing-passwords and short-password 400s exactly under PasswordChecks' conditions; every other answer leaves the data unchanged |
| UserRoutes.WrongPasswordBeforeLength | backend/routes/users.py:87-93 | a wrong current password is answered 401 even when the new one is too short |
| UserRoutes.ShortNewPasswordRefused | backend/routes/users.py:84-93 | with the right current password, a new password of one to seven characters is answered 400 with the data unchanged |
| UserRoutes.ChangePasswordThenLogin | backend/routes/users.py:95-97 | with a hash check that recognises the hasher's output, the new password logs the active caller in |
| UserRoutes.ChangePasswordSkipsStrengthRule | backend/routes/users.py:91-93 | `aaaaaaaa`, which registration's strength rule refuses, is accepted as a new password |
| UserRoutes.PasswordChangeKeepsUsersConsistent | backend/routes/users.py:66-103 | a password change keeps every user invariant |
| UserRoutes.LimitOf | backend/routes/users.py:120 | no limit exactly for premium, otherwise 100 |
| UserRoutes.Features | backend/routes/users.py:127-133 | exactly the five listed features, each enabled exactly on premium |
| UserRoutes.GetSubscription | backend/routes/users.py:105-134 | nothing iff the caller is unknown; otherwise the caller's plan, memory and reminder counts, the plan's limit and features |
| UserRoutes.LimitShownIsLimitEnforced | backend/routes/users.py:120 | memory creation answers 403 exactly when the caller's count has reached the limit the subscription view shows |
| UserRoutes.Upgrade | backend/routes/users.py:139-160 | 404 iff the caller is unknown, 400 iff already premium, otherwise the caller's row is saved as premium; only 200 writes |
| UserRoutes.Downgrade | backend/routes/users.py:166-192 | 404 iff unknown; 200 iff premium with at most 100 memories, saving the row as free; a premium caller over the limit gets 400 naming the count; only 200 writes |
| UserRoutes.SaveSameRow | backend/routes/users.py:55 | with unique identifiers, saving a row already in the table changes nothing |
| UserRoutes.SaveTwice | backend/routes/users.py:55 | saving two versions of one row keeps only the second |
| UserRoutes.UpgradeThenDowngrade | backend/routes/users.py:139-192 | an upgrade followed by a downgrade within the limit succeeds and gives back the data as it was |
| UserRoutes.DowngradeThenUpgrade | backend/routes/users.py:139-192 | a downgrade followed by an upgrade succeeds and gives back the data as it was |
| UserRoutes.UpgradeLiftsLimit | backend/routes/users.py:139-160 | after an upgrade the caller sees no limit and every feature, and creation is never refused for the count |
| UserRoutes.PlanChangesKeepUsersConsistent | backend/routes/users.py:139-196 | upgrades and downgrades keep every user invariant, in particular free accounts within the limit |
| UserRoutes.FirstShown | backend/routes/users.py:215 | at most five elements, the leading ones, all of them when fewer |
| UserRoutes.FirstShownBound | backend/routes/users.py:213-216 | an element of an ascending sequence is among its first five or no smaller than the last shown |
| UserRoutes.Recent | backend/routes/users.py:213-216 | at most five of the caller's memories, as many as there are up to five, newest first, none left out newer than the last shown |
| UserRoutes.RecentBounds | backend/routes/users.py:213-216 | the first five of a newest-first ordering hold only the caller's memories and leave out none newer than the last |
| UserRoutes.Soonest | backend/routes/users.py:219-226 | at most five of the caller's reminders upcoming within seven days, soonest first, none left out sooner than the last shown |
| UserRoutes.SoonestBounds | backend/routes/users.py:219-226 | the first five of an ascending ordering of selected reminders leave out none sooner than the last |
| UserRoutes.GetDashboard | backend/routes/users.py:198-245 | nothing iff the caller is unknown; otherwise the overdue count is the overdue route's, with the recent memories and soonest reminders |
| UserRoutes.DashboardAgreesWithSubscription | backend/routes/users.py:209-241 | the dashboard exists iff the subscription view does, and its counts and limit are the subscription view's |
| UserRoutes.Deactivate | backend/routes/users.py:250-263 | 404 iff the caller is unknown, leaving the data unchanged; otherwise the caller's row is saved inactive |
| UserRoutes.DeactivatedUserCannotLogIn | backend/routes/users.py:260 | after deactivation no login with the caller's address gets 200, whatever the password |
| UserRoutes.DeactivateKeepsUsersConsistent | backend/routes/users.py:250-267 | deactivation keeps every user invariant |
| UserRoutes.RegisterKeepsUsersConsistent | backend/routes/auth.py:25-71 | registration keeps every user invariant: the new account is free and owns no memory |
| UserRoutes.AppendKeepsFreeLimit | backend/routes/auth.py:52-54 | adding a user that owns no memory keeps every free account within the limit |
| Store.DeleteById | frontend/src/store/GlobalProvider.jsx:120-124 | no record with the id is left, every record with another id is kept as many times as it occurs, and the order is kept |
| Store.ReplaceById | frontend/src/store/GlobalProvider.jsx:112-118 | same length; each record whose id equals the payload's id is replaced by the payload, every other one is kept in place |
| Store.RunAppend | frontend/src/store/GlobalProvider.jsx:61-196 | dispatching two runs one after the other is dispatching their concatenation |
| Store.StepFrame | frontend/src/store/GlobalProvider.jsx:61-196 | every action changes only the store fields it is listed as writing |
| Store.UnknownIsNoOp | frontend/src/store/GlobalProvider.jsx:193-194 | an unrecognised action type returns the state unchanged |
| Store.ErrorSuccessAsymmetry | frontend/src/store/GlobalProvider.jsx:66-76 | SET_ERROR sets the error and stops loading but keeps the success banner; SET_SUCCESS clears the error but keeps the loading flag |
| Store.SubscriptionOf | frontend/src/store/GlobalProvider.jsx:84 | the profile's truthy `subscription_type`, otherwise "free" |
| Store.LoginSuccessEffect | frontend/src/store/GlobalProvider.jsx:79-87 | LOGIN_SUCCESS stores the user, authenticates, records its subscription, stops loading, clears the error and keeps the lists, banner, assistant and dashboard |
| Store.LogoutResets | frontend/src/store/GlobalProvider.jsx:89-93 | LOGOUT from any state yields exactly the initial store, which is logged out |
| Store.UpdateUserMerges | frontend/src/store/GlobalProvider.jsx:95-100 | the patch's keys win, other profile keys are kept, the key set is the union, and a falsy patch subscription keeps the old one |
| Store.StepKeepsAuthConsistent | frontend/src/store/GlobalProvider.jsx:61-196 | authenticated-iff-user-present survives every action except UPDATE_USER while logged out |
| Store.UpdateUserWhileLoggedOut | frontend/src/store/GlobalProvider.jsx:95-100 | UPDATE_USER while logged out creates a user without authenticating, breaking authenticated-iff-user-present |
| Store.RunKeepsAuthConsistent | frontend/src/store/GlobalProvider.jsx:61-196 | any run without an anonymous profile update keeps authenticated-iff-user-present |
| Store.AddThenDeleteList | frontend/src/store/GlobalProvider.jsx:106-124 | prepending a record and then deleting its id restores a list without that id |
| Store.AddThenDeleteRestores | frontend/src/store/GlobalProvider.jsx:106-148 | ADD then DELETE of a fresh id restores the whole store, for memories and for reminders |
| Store.AddThenDeleteMemory | frontend/src/store/GlobalProvider.jsx:106-124 | ADD_MEMORY then DELETE_MEMORY of a fresh id restores the store |
| Store.AddThenDeleteReminder | frontend/src/store/GlobalProvider.jsx:130-148 | ADD_REMINDER then DELETE_REMINDER of a fresh id restores the store |
| Store.DeleteKeepsOthers | frontend/src/store/GlobalProvider.jsx:120-124 | DELETE_MEMORY leaves an ordered sub-list with no record of the id and every copy of every record of another id |
| Store.UpdateAbsentIsNoOp | frontend/src/store/GlobalProvider.jsx:112-142 | updating by an id no cached record has leaves both lists unchanged |
| Store.ToggleIsUpdate | frontend/src/store/GlobalProvider.jsx:150-156 | TOGGLE_REMINDER_COMPLETE is the same transition as UPDATE_REMINDER |
| Store.CheckAuthActions | frontend/src/store/GlobalProvider.jsx:206-222 | the start-up check dispatches SET_LOADING true first and false last, and a LOGIN_SUCCESS iff a user was fetched |
| Store.CheckAuthOutcome | frontend/src/store/GlobalProvider.jsx:206-222 | the check always ends not loading; with a user it is LOGIN_SUCCESS, otherwise only the loading flag changes |
| Store.CheckAuthFromStart | frontend/src/store/GlobalProvider.jsx:203-222 | from the initial store the check ends not loading, consistent, and authenticated iff a user was fetched |
| LoginPage.RedirectTarget | frontend/src/pages/Login.jsx:21 | a non-empty path: the `from` pathname when one is present and non-empty, otherwise `/dashboard` |
| LoginPage.RedirectRoundTrip | frontend/src/pages/Login.jsx:71-72 | the page the guard turned a visitor away from is the page a sign-in sends them back to |
| LoginPage.RedirectFallback | frontend/src/pages/Login.jsx:21 | with no navigation state, or one without `from`, the target is `/dashboard` |
| LoginPage.AlreadySignedIn | frontend/src/pages/Login.jsx:19-24 | the page navigates away iff the store is authenticated, and then to the redirect target |
| LoginPage.ValidateLogin | frontend/src/pages/Login.jsx:41-56 | an e-mail error iff the e-mail is empty or fails the loose pattern, with the matching message; a password error iff the password is empty |
| LoginPage.LoginAcceptance | frontend/src/pages/Login.jsx:41-56 | the form is accepted iff the e-mail matches the loose pattern and a password was typed |
| LoginPage.LoginHasNoLengthRule | frontend/src/pages/Login.jsx:50-52 | a one-character password passes the form |
| LoginPage.ClassifyLoginError | frontend/src/pages/Login.jsx:74-84 | "fetch" gives the connection text, else "Invalid credentials" the credentials text, else "User not found" the account text, else the message itself or the default when it is empty |
| LoginPage.ClassifyRange | frontend/src/pages/Login.jsx:74-84 | the shown text is one of the fixed texts or the raised message; the raised message is shown only when it holds none of the keys or is itself a fixed text |
| LoginPage.ClassifyFirstMatchWins | frontend/src/pages/Login.jsx:76-79 | a message holding both "fetch" and "Invalid credentials" is reported as a connection error |
| LoginPage.ServiceUnreachableNoFe | frontend/src/services/authService.js:24 | the service's unreachable-server message has no 'f' directly followed by 'e' |
| LoginPage.ServiceUnreachableNoCapitals | frontend/src/services/authService.js:24 | the service's unreachable-server message has no 'I' and no 'U' |
| LoginPage.ServiceUnreachableShownVerbatim | frontend/src/pages/Login.jsx:76-83 | the service's own unreachable-server message contains none of the three keys, so the page shows it as it is rather than the connection text |
| LoginPage.Submit | frontend/src/pages/Login.jsx:58-93 | an invalid form dispatches nothing; a valid one clears the error, then signs in and navigates, or sets the classified error and stays |
| LoginPage.SubmitEffect | frontend/src/pages/Login.jsx:58-93 | after a valid submission the store is not loading; a sign-in leaves it authenticated with the user and no error, a failure leaves exactly the classified error and the old user |
| RegisterPage.NameError | frontend/src/pages/Register.jsx:46-50 | no error iff the trimmed name has at least 2 characters; "Name is required" iff the name is all whitespace; the length message iff the trimmed name has 1 character |
| RegisterPage.EmailError | frontend/src/pages/Register.jsx:53-57 | no error iff the e-mail matches the loose pattern; "Email is required" iff it is empty, "Email is invalid" iff it is non-empty and does not match |
| RegisterPage.PasswordError | frontend/src/pages/Register.jsx:60-66 | no error iff at least 8 characters and the mixed-case pattern matches; "Password is required" iff empty; the length message iff 1 to 7 characters; the character-class message iff 8 or more characters without the pattern |
| RegisterPage.ConfirmError | frontend/src/pages/Register.jsx:69-73 | no error iff the confirmation is non-empty and equals the password; "Please confirm your password" iff it is empty, "Passwords do not match" iff it is non-empty and differs |
| RegisterPage.ValidateRegister | frontend/src/pages/Register.jsx:42-77 | the error object has only the four field keys, each present iff that field's rule fails and then holding that rule's message |
| RegisterPage.RegisterAcceptance | frontend/src/pages/Register.jsx:42-77 | the form is accepted iff trimmed name of 2 or more, loose e-mail, client password rule and matching non-empty confirmation all hold |
| RegisterPage.PasswordStrength | frontend/src/pages/Register.jsx:105-125 | an empty password has no level; otherwise the strength is the number of criteria met (at most 5) and the label is the level it indexes, capped at the fifth |
| RegisterPage.NonEmptyScoresAtLeastOne | frontend/src/pages/Register.jsx:109-124 | any typed password meets a criterion, so the meter never reads "Very Weak" |
| RegisterPage.AcceptedPasswordIsStrong | frontend/src/pages/Register.jsx:60-66 | every password the form accepts scores at least 4 and reads "Strong" |
| RegisterPage.Submit | frontend/src/pages/Register.jsx:79-103 | a request is sent iff the form is valid, with the name trimmed; success signs in and goes to `/dashboard`, failure sets the message or "Registration failed" |
| RegisterPage.SentNameIsTrimmed | frontend/src/pages/Register.jsx:88-92 | the name sent has at least 2 characters and no whitespace at either end |
| AddMemoryPage.Change | frontend/src/pages/AddMemory.jsx:45-59 | the named field takes the value, every other field and the tags are unchanged, and only that field's error is cleared |
| AddMemoryPage.TagKey | frontend/src/pages/AddMemory.jsx:61-73 | only Enter with a non-blank input acts; it then clears the input and the trimmed lower-cased tag is in the list, appended iff it was absent |
| AddMemoryPage.TagKeyKeepsNoDuplicates | frontend/src/pages/AddMemory.jsx:64-70 | a duplicate-free tag list stays duplicate-free |
| AddMemoryPage.RemoveTag | frontend/src/pages/AddMemory.jsx:75-80 | no copy of the tag is left, every other tag is kept as many times as it occurs, in order |
| AddMemoryPage.AddThenRemoveTag | frontend/src/pages/AddMemory.jsx:61-80 | adding a fresh tag and removing it again gives back the list |
| AddMemoryPage.ContentError | frontend/src/pages/AddMemory.jsx:91-93 | no error iff the content is not all whitespace; the error is "Content is required" |
| AddMemoryPage.ValidateMemory | frontend/src/pages/AddMemory.jsx:82-97 | only title and content keys; each present iff its rule fails and then holding that rule's message |
| AddMemoryPage.MemoryFormAcceptance | frontend/src/pages/AddMemory.jsx:82-97 | the form is valid iff the trimmed title has 3 or more characters and the content is not blank |
| AddMemoryPage.ValidBodyShape | frontend/src/pages/AddMemory.jsx:114-120 | a valid form sends a title of 3 or more characters and a non-empty content, neither padded with whitespace, and the tags as listed |
| AddMemoryPage.SliderImportanceInRange | frontend/src/pages/AddMemory.jsx:118 | an importance the slider set is sent as an integer from 1 to 5 |
| AddMemoryPage.InitialBody | frontend/src/pages/AddMemory.jsx:9-15 | the untouched form sends importance 3, type "note" and no tags |
| AddReminderPage.ToggleMethod | frontend/src/pages/AddReminder.jsx:70-78 | checking appends the value; unchecking removes every copy and keeps every copy of the other methods, in order |
| AddReminderPage.Change | frontend/src/pages/AddReminder.jsx:67-93 | an input sets its field; a `notification_methods` checkbox toggles the method list; any other checkbox changes nothing; only the event's error is cleared |
| AddReminderPage.CheckThenUncheck | frontend/src/pages/AddReminder.jsx:74-76 | checking an unselected method and unchecking it again restores the selection |
| AddReminderPage.DateError | frontend/src/pages/AddReminder.jsx:104-112 | "required" iff the date is empty; "in the future" iff the date and time (12:00 when empty) parse to an instant not after `now`; an unparseable date draws no error |
| AddReminderPage.ValidateReminder | frontend/src/pages/AddReminder.jsx:95-124 | only the four keys; title, date, time and methods each present iff their rule fails, holding the title rule's and the date rule's message, "Time is required" and "Select at least one notification method" |
| AddReminderPage.ReminderFormAcceptance | frontend/src/pages/AddReminder.jsx:95-124 | the form is valid iff title, date, time and at least one method pass their rules |
| AddReminderPage.Payload | frontend/src/pages/AddReminder.jsx:135-145 | building fails exactly when the date and time do not parse; an empty memory choice becomes null; title and description are trimmed, the trigger is the instant the date and time parse to, the frequency is the form's, and the advance notice is read with `parseInt` |
| AddReminderPage.ValidPayloadIsFuture | frontend/src/pages/AddReminder.jsx:104-145 | the payload of a valid form that parses lies strictly after `now`, with a title of 3 or more characters and some method |
| AddReminderPage.SubmitActions | frontend/src/pages/AddReminder.jsx:126-169 | an invalid form dispatches nothing; a valid one clears the error, then sets the success banner iff the payload was built, else the parse error |
| AddReminderPage.SubmitTarget | frontend/src/pages/AddReminder.jsx:153-160 | a submission navigates to `/reminders` exactly when it dispatched the success message |
| MemoryVaultPage.UrlOf | frontend/src/pages/MemoryVault.jsx:78-86 | the URL holds only non-empty filter values |
| MemoryVaultPage.UrlRoundTrip | frontend/src/pages/MemoryVault.jsx:12-14 | reloading the page from the URL it wrote restores the same filters |
| MemoryVaultPage.FetchParams | frontend/src/pages/MemoryVault.jsx:45-52 | the query always holds at least the page and page-size parameters |
| MemoryVaultPage.FetchParamsContent | frontend/src/pages/MemoryVault.jsx:45-52 | the query carries the page and page size, which read back as those numbers, and carries each filter iff it is non-empty, with its value |
| MemoryVaultPage.FilterPresence | frontend/src/pages/MemoryVault.jsx:80-83 | a filter's key is in the URL iff its value is non-empty |
| MemoryVaultPage.ActiveFiltersCount | frontend/src/pages/MemoryVault.jsx:151 | the count is at most 3, zero iff every filter is empty, and equals the number of URL parameters |
| MemoryVaultPage.ClearFilters | frontend/src/pages/MemoryVault.jsx:92-96 | after clearing, the count is 0 and the URL is empty |
| MemoryVaultPage.Truncate | frontend/src/pages/MemoryVault.jsx:142-145 | content up to the limit is unchanged; longer content becomes its first `maxLength` characters followed by "...", of length `maxLength + 3` |
| MemoryVaultPage.TruncateBoundAndIdempotent | frontend/src/pages/MemoryVault.jsx:142-145 | a preview is at most 3 longer than the limit and than the content, and previewing a preview changes nothing |
| MemoryVaultPage.ImportanceColor | frontend/src/pages/MemoryVault.jsx:107-116 | the colour is one of the five; any value that is not a level 1 to 5 gets "secondary" |
| MemoryVaultPage.ImportanceColorsAgree | frontend/src/pages/MemoryVault.jsx:32-39 | the badge colour of each menu option equals the menu's colour, and a level sent as a number or as its digit gets the same colour |
| MemoryVaultPage.DigitColorAgrees | frontend/src/pages/MemoryVault.jsx:107-116 | a level 1 to 5 gets the same colour as a number and as its one-digit text |
| MemoryVaultPage.TypeIcon | frontend/src/pages/MemoryVault.jsx:118-128 | an unknown type gets the note icon |
| MemoryVaultPage.TypeEmoji | frontend/src/pages/MemoryVault.jsx:130-140 | an unknown type gets the note emoji |
| MemoryVaultPage.TypeBadgesAgreeWithMenu | frontend/src/pages/MemoryVault.jsx:22-30 | every real type's badge icon and emoji equal the menu's; the "All Types" entry's symbols are not the badge's |
| MemoryVaultPage.PaginationControls | frontend/src/pages/MemoryVault.jsx:425-456 | controls exist iff there is more than one page; they list pages 1 to `pages`; "prev" is disabled iff on page 1, "next" iff on the last page |
| MemoryVaultPage.ControlsStayInRange | frontend/src/pages/MemoryVault.jsx:425-456 | from a page in range, every enabled control leads to a page in range, and the current page is listed |
| RemindersPage.PipelineIsConjunctive | frontend/src/pages/Reminders.jsx:84-99 | the three staged filters are one filter by the conjunction of the search, status and frequency rules |
| RemindersPage.PipelineResult | frontend/src/pages/Reminders.jsx:84-99 | the result holds exactly the loaded items meeting all three rules, as an order-keeping sub-list |
| RemindersPage.NoFiltersKeepsAll | frontend/src/pages/Reminders.jsx:84-99 | with every filter empty the list is shown as loaded |
| RemindersPage.FetchedPagination | frontend/src/pages/Reminders.jsx:101-107 | page 1 of 1, 12 per page, and a total that is the number of filtered items, at most the number loaded |
| RemindersPage.UrlOf | frontend/src/pages/Reminders.jsx:120-128 | the URL holds only non-empty filters, as many as the active-filter count |
| RemindersPage.UrlRoundTrip | frontend/src/pages/Reminders.jsx:11-13 | reloading the page from the URL it wrote restores the same filters |
| RemindersPage.ActiveFiltersCount | frontend/src/pages/Reminders.jsx:187 | the count is at most 3 and zero iff every filter is empty |
| RemindersPage.ClearFilters | frontend/src/pages/Reminders.jsx:134-138 | after clearing, the count is 0 |
| RemindersPage.StatusColor | frontend/src/pages/Reminders.jsx:156-164 | an unknown status gets "secondary" |
| RemindersPage.StatusEmoji | frontend/src/pages/Reminders.jsx:166-174 | an unknown status gets the clipboard emoji |
| RemindersPage.FrequencyEmoji | frontend/src/pages/Reminders.jsx:176-185 | an unknown frequency gets the repeat emoji |
| RemindersPage.BadgesAgreeWithMenus | frontend/src/pages/Reminders.jsx:21-36 | every status and frequency option's badge emoji and colour equal the menu's, the "any" option included |
| AuthRoutes.MatchShape | backend/routes/auth.py:10-11 | the scan answers true iff the text splits into a non-empty local part, `@`, a non-empty domain, a final `.` and two or more letters, each part drawn from its character class |
| AuthRoutes.MatchEmail | backend/routes/auth.py:9-11 | the computed answer agrees with `validate_email`, including the `$` that also matches before one final newline |
| AuthRoutes.ServerEmailPassesClient | backend/routes/auth.py:9-11 | every address the server accepts also passes the sign-up and login forms' `/\S+@\S+\.\S+/` test |
| AuthRoutes.ClientEmailIsLooser | backend/routes/auth.py:10 | `a@b.c` passes the forms' test but not the server's, whose top-level domain needs two letters |
| AuthRoutes.PasswordRulesAgree | backend/routes/auth.py:13-23 | on text without line breaks, `validate_password` accepts exactly what the sign-up form's length and lookahead checks accept |
| AuthRoutes.PasswordRulesDifferOnLineBreak | backend/routes/auth.py:17-22 | `"abcdefg\nA1"` passes the server's searches but fails the form's lookaheads |
| AuthRoutes.PasswordCheck | backend/routes/auth.py:13-23 | on a string the answer is the password rule; a true answer is only given for a string satisfying it; a non-string of length eight or more raises |
| AuthRoutes.RegisterFields | backend/routes/auth.py:33-35 | reading succeeds iff the body is a dictionary whose e-mail and name (when present) are strings, and the e-mail read is stripped and lower-cased |
| AuthRoutes.NewUser | backend/routes/auth.py:52-54 | the new row carries the e-mail, the name and the hash of the password, is free and active, and has an identifier above every existing one |
| AuthRoutes.FieldChecks | backend/routes/auth.py:38-49 | the checks let a user be created iff the e-mail is non-empty and valid, the password is a string meeting the rule, and no user has the address; 400 "Email and password are required" iff either is missing, then 400 "Invalid email format" iff the address is invalid, then 400 for a weak password iff the strength rule fails, so a 409 is only given for a valid, taken address with a strong password |
| AuthRoutes.RegisterChecks | backend/routes/auth.py:27-49 | an empty body gets 400 "No data provided"; a body whose fields cannot be read gets 500; otherwise the field checks decide |
| AuthRoutes.RegisterChecksAccept | backend/routes/auth.py:27-71 | a user is created iff the request is accepted, every refusal is 400, 409 or 500, and 409 means the address is valid and taken and the password passed the strength rule |
| AuthRoutes.Register | backend/routes/auth.py:25-71 | 201 iff the request is accepted, in which case exactly the new user is appended; every other answer leaves the data unchanged |
| AuthRoutes.RegisterKeepsUsersUnique | backend/routes/auth.py:47-54 | registration keeps addresses and identifiers unique and every memory owned, and a new user owns no memory |
| AuthRoutes.AppendUserKeepsUnique | backend/routes/auth.py:52-54 | appending a user with a fresh identifier and unused address keeps the user invariants and the user owns nothing |
| AuthRoutes.LoginFields | backend/routes/auth.py:81-82 | reading succeeds iff the body is a dictionary whose e-mail, when present, is a string |
| AuthRoutes.Login | backend/routes/auth.py:73-110 | nothing is written; 400 iff the body is empty or the e-mail or password is missing, with "Email and password are required" for the latter; 200 iff the user exists, the password checks and the account is active; "Account is deactivated" only for a caller who gave the right password; any other 401 means unknown address or wrong password |
| AuthRoutes.UnknownUserLooksLikeWrongPassword | backend/routes/auth.py:88-91 | an unknown address and a wrong password get identical replies |
| AuthRoutes.RegisterThenLogin | backend/routes/auth.py:25-110 | with a hash check that recognises the hasher's output, the body that registered a user logs in with 200 |
| AuthRoutes.FindByEmailAppend | backend/routes/auth.py:88 | looking up an unused address after appending a user with it finds that user |
| Db.PyGet | backend/routes/auth.py:33-35 | `get` succeeds exactly on a dictionary, giving the stored value for a present key and the default otherwise |
| Db.PyRead | backend/routes/reminders.py:159-160 | on a dictionary, the value under a present key or nothing; an exception only when the body is not a dictionary |
| Db.Strip | backend/routes/reminders.py:92-96 | `strip` succeeds exactly on strings and gives the stripped text |
| Db.StripField | backend/routes/reminders.py:92-96 | `get(key, '').strip()` succeeds iff the body is a dictionary where the key is absent or holds a string, and gives that string stripped |
| Db.StripLower | backend/routes/auth.py:33 | `strip().lower()` succeeds exactly on strings and gives the stripped, lower-cased text |
| Db.PyLen | backend/routes/auth.py:15 | `len` succeeds exactly on strings, lists and dictionaries, and on a string is its length |
| Db.FindUser | backend/routes/users.py:16 | a user is found only when it is a row with that identifier, and none is found iff no row has it |
| Db.FindByEmail | backend/routes/auth.py:48 | a user is found only when it is a row with that address, and none is found iff no row has it |
| Db.FindMemory | backend/routes/reminders.py:116 | a memory is found only when it has that identifier and owner, and none iff no row has both |
| Db.FindReminder | backend/routes/reminders.py:148 | a reminder is found only when it has that identifier and owner, and none iff no row has both |
| Db.FreshId | backend/routes/auth.py:52-54 | a new row's identifier is positive and above every identifier already in the table |
| Db.SaveUser | backend/routes/users.py:42-53 | committing a changed user replaces exactly the rows with its identifier and keeps memories and reminders |
| Text.TrimBy | backend/routes/auth.py:33-35 | the result is the input with a leading and a trailing run of white space removed, no white space left at either end, and empty iff the input was all white space |
| Text.PyStripIdempotent | backend/routes/reminders.py:92-96 | stripping text that has been stripped changes nothing |
| Text.ParseIntOfDecimal | frontend/src/pages/MemoryVault.jsx:45-52 | reading back the decimal text of a natural number gives that number |
| MemoryRoutes.UpdateEdits | src/api/routes/memories.py:157-178 | the edits of an update stop at the first refusal, which is 400 or 500 |

## Left out

- Rendering, styling, static pages (Home, LoadingSpinner), the routing table, `main.jsx`, `useGlobalState` and the Navbar: presentation and plumbing with no decision logic.
- Dashboard.jsx: a fetch plus a random placeholder figure.
- The authentication service clients and every `fetch`: their outcomes are inputs (a user, or an error message). HTTP, cookies, JWT handling and JSON parsing are not modelled.
- Flask, SQLAlchemy sessions, `jwt_required` and the application factories: the caller's identifier is a parameter and the database is a snapshot of sequences of records.
- Pagination (`paginate`, `page`, `per_page`): the list routes are modelled up to the ordered result before it is cut into pages.
- Ties in an `ORDER BY`: the model fixes one order among equal keys, and its contracts state only the permutation and the ordering, which is all the database promises.
- `get_profile`, `get_memory` (with its `last_accessed` update), `get_reminder`, `/me` and `logout`: single-row lookups or cookie handling with no decision beyond the 404 the other handlers share.
- The columns `updated_at` and `last_accessed` of memories, `is_encrypted` and `media_url`, and the timestamps of users: no handler decides anything on them. The `to_dict` of users and memories is not modelled.
- src/api/models/memory.py and the memory-type enumeration it declares are not part of this model. The constructor of backend/models/memory.py (`tags or []`) is used, and the enumeration is the parameter `types`.
- Error paths where the database itself fails (a failed query or commit): the model's database never fails, so a handler answers 500 only where the request body makes Python raise or a value cannot be stored.
- Floating-point JSON numbers: numbers are integers, so a float importance or identifier cannot be expressed.
- Lower-casing and `\d` are ASCII only. Python's and JavaScript's Unicode case mappings and Python's Unicode digits are not modelled.
- String lengths count characters, not JavaScript's UTF-16 code units.
- Object lookups with keys such as `constructor` that JavaScript objects inherit: a lookup table holds only its declared keys.
- Date and time arithmetic, time zones and ISO formatting: instants are integers and parsing and rendering are parameters.
- Salted password hashing: `hash` and `check` are parameters; only the property that `check` recognises `hash`'s output is assumed, where a lemma needs it.
- Text.ParseInt: reads decimal only. JavaScript's `parseInt` without a radix reads a "0x" prefix as hexadecimal; the advance-notice select only offers decimal values.
- ReminderRoutes.Upcoming: `days` is an integer parameter; reading it from the query string, which falls back to 7 for text that is not an integer, is not modelled.
- ReminderRoutes.CheckMemory: a `memory_id` sent as text is treated as designating no memory (404). Whether the database converts numeric text to an integer depends on the engine.
- AddMemoryPage.Body: carries no contract of its own; what it sends is stated by `ValidBodyShape`, `SliderImportanceInRange` and `InitialBody`.
- The dispatches and navigation of the memory form's `handleSubmit`: only the request body it builds is modelled.
- React effect scheduling and races between overlapping fetches: concurrency, not state-transition logic.

## Findings

| source | as written | input that shows it | evidently intended | confidence | as-written member | corrected member |
|---|---|---|---|---|---|---|
| backend/routes/reminders.py:43 | `asc(Reminder.trigger_date.nullslast())` wraps the NULLS LAST term in a direction, which the query builder writes after it: `ORDER BY reminders.trigger_date NULLS LAST ASC`, not a valid SQL ordering term, so the query raises and the handler answers 500 "Failed to retrieve reminders" | GET of the reminder list with no status, or with "pending" or "overdue" | `Reminder.trigger_date.asc().nullslast()`: soonest trigger first, undated reminders last, as the comment on line 39 says | medium; not executed; rests on how the query builder renders nested modifiers | ReminderRoutes.WrittenOrderFails | ReminderRoutes.IntendedOrderLists |

The rest of the model uses the intended ordering (`ReminderRoutes.ListReminders`, `ReminderRoutes.GetReminders`).
