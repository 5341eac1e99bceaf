# Study-request broker, modelled in Dafny

The system is a small web application. Students ask for study material
or answer keys, and a builder (the administrator) turns each request into
generated text.

- Students register and log in with a full name and a 10-digit phone number.
- The builder logs in with a fixed e-mail and password.
- A student submits a request from one of two forms: a study guide (subject, unit and material category) or an answer key (subject, unit and an attached file).
- The builder sees the queue split into pending and completed requests.
- The builder processes a request. It is marked PROCESSING, a text model generates the material, and the request is marked COMPLETED with that content.
- The builder also sees the registered students, each student's total number of requests and request history, and can edit a student's name and phone.

The model covers the following parts:

- **`Types`** (`types.dfy`): the records and enumerations. `Partial<…>` updates are patches, and `{ ...r, ...updates }` is `MergeRequest`/`MergeUser`.
- **`Constants`** (`constants.dfy`): the unit lists, the per-subject units, the material options and the builder credential pair.
- **`Seqs`** (`seqs.dfy`): order-preserving filter, `findIndex` and reversal.
- **`Records`** (`records.dfy`): the list operations shared by the store and the controller. These are the upsert, patch by id, the owner-copy rewrite, and the filters by owner.
- **`DataStore`** (`datastore.dfy`): the local branch of the record store, a class with two `seq` fields.
- **`Session`** (`session.dfy`): the top-level controller. It holds the logged-in user and its own copies of users and requests.
- **`Auth`** (`auth.dfy`): the login/registration form and its rule chain.
- **`StudentDashboard`** (`student_dashboard.dfy`): the request forms, the submit gating and the student's feed.
- **`BuilderDashboard`** (`builder_dashboard.dfy`): the queue projections, the student table, the sorted history, the two-step processing and the edit modal.
- **`Generation`** (`generation.dfy`): which prompt a request gets, and the text returned when the model call fails or answers with nothing.

Two facts about the code shape the model, and the model keeps both:

- The controller never calls the store. It persists its copies under its own keys (`edulink_*`), not the store's keys (`apfiles_*`). The store and the controller are therefore two separate models.
- The controller does not pass the edit and delete callbacks to the builder screen (`RenderBuilderScreen`). In the screen, `userCallbacks` records whether they were supplied. Without them, saving the edit modal and pressing a delete button call an undefined function: the call throws (`Threw`), nothing reaches the users, and the modal stays open.

The source names the request-type field `type`. Here it is `requestType`, because `type` is a Dafny keyword.

## Model

| member | source | states |
|---|---|---|
| Types.NonEmpty | App.tsx:70 | the result is present exactly when the text is present and non-empty, and is then the text |
| Types.MergeUser | services/dataStore.ts:45 | every field the patch sets takes the patch's value; every other field keeps the user's value |
| Types.MergeRequest | services/dataStore.ts:89 | every field the patch sets takes the patch's value; every other field keeps the request's value |
| Types.MergeTwice | App.tsx:78-82 | merging patch p and then patch q equals merging their combination, where q's keys win |
| Types.MergeIdempotent | services/dataStore.ts:88-90 | re-applying the same partial update changes nothing |
| Constants.SubjectUnits | constants.ts:7-12 | every subject maps to the standard unit list |
| Constants.UnitListsShape | constants.ts:3-4 | the standard units are "1" to "9" in order; the list with "All Units" has length 10, starts with the standard units, ends with "All Units" and contains every standard unit |
| Constants.FindOption | components/BuilderDashboard.tsx:59 | the lookup returns an option of that value from the list, and returns none exactly when no option has that value |
| Constants.MaterialOptionsComplete | constants.ts:14-19 | option values are pairwise distinct, every label is non-empty, and the lookup succeeds for every category |
| Records.ReadOrEmpty | services/dataStore.ts:13-16 | a key never written reads as the empty collection, otherwise as what was saved under that key |
| Records.IndexOfUser | services/dataStore.ts:30 | -1 exactly when no user has the id, otherwise the first index holding that id |
| Records.Upsert | services/dataStore.ts:29-36 | the saved user is present afterwards. An existing id keeps the length and its first entry becomes the user. An unknown id appends the user. Every user with another id, and later duplicates, stay where they were |
| Records.UpsertKeepsIdsUnique | services/dataStore.ts:29-36 | if ids were unique they remain unique after the upsert, and the saved user is the only entry with its id |
| Records.PatchUsers | services/dataStore.ts:44-46 | same length and order; users with the id are merged with the patch and the others are unchanged; an unknown id leaves the collection unchanged |
| Records.PatchRequests | services/dataStore.ts:88-90 | same length and order; requests with the id are merged with the patch and the others are unchanged |
| Records.PatchRequestsTwice | App.tsx:78-82 | two patches by the same id, where the first keeps the id, equal one patch by their combination |
| Records.SyncOwnerFields | services/dataStore.ts:105-112 | same length; every request of the user gets the new name and phone; a request differs from the original at most in those two fields; other users' requests are unchanged |
| Records.SyncIdempotent | services/dataStore.ts:105-112 | applying the owner-copy rewrite twice equals applying it once |
| Records.EditThenSyncAgrees | services/dataStore.ts:95-112 | after a user's name and phone are edited and propagated, every request owned by that user shows the new name and phone |
| Records.RequestsOf | components/BuilderDashboard.tsx:138 | exactly the requests owned by the user |
| Records.RequestsNotOf | services/dataStore.ts:66 | exactly the requests not owned by the user, so none is left for that user |
| Records.UsersExcept | services/dataStore.ts:65 | exactly the users with another id |
| Records.OwnerSplit | services/dataStore.ts:65-68 | a user's requests and the remaining requests together form the stored requests, as multisets |
| DataStore.LocalStore.constructor | services/dataStore.ts:9-16 | the users start as what is saved under `apfiles_users` and the requests as what is saved under `apfiles_requests`, or empty |
| DataStore.LocalStore.SaveUser | services/dataStore.ts:25-38 | the users become the upsert of the old users; the requests are unchanged |
| DataStore.LocalStore.UpdateUserPartial | services/dataStore.ts:40-48 | the users become the patched old users; the requests are unchanged |
| DataStore.LocalStore.DeleteUser | services/dataStore.ts:64-69 | the user is removed and so are all of its requests, in the same call |
| DataStore.LocalStore.AddRequest | services/dataStore.ts:77-81 | the request is appended; the users are unchanged |
| DataStore.LocalStore.UpdateRequest | services/dataStore.ts:87-91 | the requests become the patched old requests; the users are unchanged |
| DataStore.LocalStore.SyncUserToRequests | services/dataStore.ts:104-113 | the requests become the owner-copy rewrite of the old requests; the users are unchanged |
| Session.ScreenFor | App.tsx:86-104 | the login form exactly when nobody is logged in; the builder screen exactly for a builder; the student screen exactly for a student |
| Session.NewRequest | App.tsx:60-73 | status PENDING and no content. Id and time are the supplied ones. The owner's id, name and phone are copied on. The file name is present exactly when a file is given. The description is present exactly when non-empty |
| Session.SubmittedRequestWellFormed | components/StudentDashboard.tsx:27-54 | a request built from a submission the form lets through is well formed: a study guide has a category and an answer key a file name |
| Session.SubmissionJoinsFeed | App.tsx:75 | a new request ends its owner's feed and leaves every other user's feed unchanged |
| Session.ControllerWritesMissStore | App.tsx:30-36 | the controller's writes under `edulink_*` leave what the store reads under `apfiles_*` unchanged |
| Session.RenderBuilderScreen | App.tsx:92-97 | the builder screen is created without the user callbacks, on the requests tab, with nothing processing and no modal open |
| Session.App.constructor | App.tsx:9-28 | nobody logged in; the requests are what is saved under `edulink_requests` and the users what is saved under `edulink_users`, or empty |
| Session.App.HandleLogin | App.tsx:38-40 | the given user becomes the logged-in user; nothing else changes |
| Session.App.HandleRegister | App.tsx:42-44 | the new user is appended unchanged; nothing else changes |
| Session.App.HandleLogout | App.tsx:46-48 | nobody is logged in; nothing else changes |
| Session.App.HandleStudentRequest | App.tsx:50-76 | with nobody logged in, nothing happens. Otherwise the request built from the logged-in user is appended and earlier requests are unchanged |
| Session.App.HandleBuilderUpdate | App.tsx:78-82 | the requests become the patched old requests; nothing else changes |
| Auth.ValidatePhone | components/Auth.tsx:32-37 | the empty message exactly when the phone has 10 characters, otherwise the fixed message |
| Auth.TrimStart | components/Auth.tsx:74 | the result is a suffix of the input; only white space is dropped; it does not start with white space |
| Auth.TrimEnd | components/Auth.tsx:74 | the result is a prefix of the input; only white space is dropped; it does not end with white space |
| Auth.Trim | components/Auth.tsx:74 | the result is a slice of the input that neither starts nor ends with white space |
| Auth.TrimDropsOnlyWhiteSpace | components/Auth.tsx:74 | the result is the input with a prefix and a suffix removed, and every character of both is white space |
| Auth.TrimIdempotent | components/Auth.tsx:104 | trimming a trimmed name changes nothing |
| Auth.ToLower | components/Auth.tsx:74 | same length; ASCII capitals become lower case and every other character is kept |
| Auth.AllDigits | components/Auth.tsx:25 | true exactly when every character is a decimal digit (the empty text included) |
| Auth.FindAccount | components/Auth.tsx:72-75 | none exactly when no user has the phone and the same trimmed, lower-cased name; otherwise the first such user |
| Auth.PhoneInUse | components/Auth.tsx:84 | true exactly when some stored user has that phone |
| Auth.AccountExists | components/Auth.tsx:92-95 | true exactly when the login lookup finds an account |
| Auth.LoginDecision | components/Auth.tsx:70-81 | a login exactly when a matching account exists, and then of the first matching account; otherwise "not found" |
| Auth.RegisterDecision | components/Auth.tsx:83-110 | phone taken, already registered, or a registration; a registration only with the phone not in use, creating a student with the given id, the trimmed name and the phone |
| Auth.Decide | components/Auth.tsx:39-112 | The admin branch yields the fixed identity or an error, according to the credentials alone. Empty fields and bad phones are rejected. A login needs a valid phone and a name. A registration needs a phone not in use and creates a student with the trimmed name |
| Auth.AdminIgnoresStudentFields | components/Auth.tsx:44-56 | in login mode with an e-mail, the outcome is the same whatever the name, phone and user list |
| Auth.LoginFindsAccount | components/Auth.tsx:70-81 | whatever the password, student login succeeds exactly when a matching account exists, and logs in the first one |
| Auth.RegistrationRefusesUsedPhone | components/Auth.tsx:84-89 | registration with a phone in use is refused, whatever the name |
| Auth.RegistrationSucceeds | components/Auth.tsx:83-110 | with a name, a 10-character phone and the phone not in use, registration yields the student with the given id, the trimmed name and the phone |
| Auth.NeverAlreadyRegistered | components/Auth.tsx:91-100 | the "account already exists" outcome never happens |
| Auth.RegisterThenLogin | components/Auth.tsx:102-110 | after a registration, logging in with the same name and phone yields the registered user |
| Auth.AuthForm.constructor | components/Auth.tsx:13-20 | login mode, all fields and errors empty, and the phone all digits |
| Auth.AuthForm.HandlePhoneChange | components/Auth.tsx:22-30 | an all-digit edit is taken and clears both errors; any other edit changes nothing; the phone stays all digits |
| Auth.AuthForm.SetFullName | components/Auth.tsx:147 | only the name changes |
| Auth.AuthForm.SetEmail | components/Auth.tsx:225 | only the e-mail changes |
| Auth.AuthForm.SetPassword | components/Auth.tsx:235 | only the password changes |
| Auth.AuthForm.ToggleMode | components/Auth.tsx:252-261 | the mode flips, and the form and both errors are cleared |
| Auth.AuthForm.HandleSubmit | components/Auth.tsx:39-112 | the calls made, the general error and the phone error are those of the rule chain on the fields before the call; the fields themselves are unchanged |
| Auth.LogInStudent | components/Auth.tsx:70-81 | the calls and the message are those of the login decision |
| Auth.RegisterStudent | components/Auth.tsx:83-110 | the calls and the message are those of the registration decision |
| StudentDashboard.CurrentUnitList | components/StudentDashboard.tsx:25 | the standard units in the study-material view, the list with "All Units" otherwise; "All Units" is offered exactly outside that view |
| StudentDashboard.SubmissionFor | components/StudentDashboard.tsx:27-54 | Nothing is sent without subject and unit, nor a study guide without a category, nor an answer key without a file. The type follows the view. The category is forwarded only for a study guide. The description is forwarded only when non-empty |
| StudentDashboard.IsSubmitDisabled | components/StudentDashboard.tsx:67-72 | disabled exactly when the subject or unit is missing, a study guide has no category, or an answer key has no file |
| StudentDashboard.SubmitEnabledIffSubmitted | components/StudentDashboard.tsx:67-72 | on both forms the button is enabled exactly when submitting sends something |
| StudentDashboard.MyRequests | components/StudentDashboard.tsx:65 | exactly the logged-in student's requests |
| StudentDashboard.Dashboard.constructor | components/StudentDashboard.tsx:16-22 | the menu, with an empty form |
| StudentDashboard.Dashboard.OpenView | components/StudentDashboard.tsx:84 | only the view changes |
| StudentDashboard.Dashboard.ChangeSubject | components/StudentDashboard.tsx:134-137 | the subject is set and the unit cleared; nothing else changes |
| StudentDashboard.Dashboard.SelectUnit | components/StudentDashboard.tsx:152 | only the unit changes |
| StudentDashboard.Dashboard.SelectMaterial | components/StudentDashboard.tsx:169 | only the category changes |
| StudentDashboard.Dashboard.AttachFile | components/StudentDashboard.tsx:199 | only the file changes |
| StudentDashboard.Dashboard.EditDescription | components/StudentDashboard.tsx:216 | only the description changes |
| StudentDashboard.Dashboard.HandleRequest | components/StudentDashboard.tsx:27-54 | it returns what the form lets through. After a submission all five fields are empty; without one the form is unchanged; the view is kept |
| StudentDashboard.Dashboard.HandleBack | components/StudentDashboard.tsx:56-63 | back to the menu with every field cleared |
| Generation.InstructionFor | services/geminiService.ts:47-91 | mock exam, assignment and practice each select their own instruction; "all" or no category keep the comprehensive guide |
| Generation.BuildPrompt | services/geminiService.ts:8-106 | The answer-key prompt is used exactly for answer keys, and the file sentence appears only with a non-empty file name. A study guide gets its category's instruction. In both, the context block appears exactly when the description is non-empty |
| Generation.AnswerKeyIgnoresCategory | services/geminiService.ts:15-44 | an answer key's prompt does not depend on the material category |
| Generation.StudyGuideIgnoresAttachment | services/geminiService.ts:45-106 | a study guide's prompt does not depend on the attached file |
| Generation.GenerateStudyMaterial | services/geminiService.ts:6-118 | never empty: a failed call yields the system-error text, a missing or empty answer the fallback text, and any other answer its own text |
| BuilderDashboard.PendingRequests | components/BuilderDashboard.tsx:38 | exactly the requests not yet completed |
| BuilderDashboard.CompletedRequests | components/BuilderDashboard.tsx:39 | exactly the completed requests |
| BuilderDashboard.QueuePartition | components/BuilderDashboard.tsx:38-39 | the two lists together are the stored requests, as multisets, and their lengths add up |
| BuilderDashboard.QueueKeepsStoredOrder | components/BuilderDashboard.tsx:38-39 | both lists keep stored order: the lists of a concatenation are the concatenated lists |
| BuilderDashboard.ActivityLog | components/BuilderDashboard.tsx:263 | the completed requests, last stored first |
| BuilderDashboard.Students | components/BuilderDashboard.tsx:132 | exactly the users whose role is student |
| BuilderDashboard.StudentCount | components/BuilderDashboard.tsx:102 | the number of users minus the builders, zero exactly when every user is a builder |
| BuilderDashboard.RequestCount | components/BuilderDashboard.tsx:138 | the number of stored requests minus everybody else's, zero exactly when the student owns none |
| BuilderDashboard.InsertByNewest | components/BuilderDashboard.tsx:366 | the result has the same elements plus the inserted one |
| BuilderDashboard.InsertKeepsNewestFirst | components/BuilderDashboard.tsx:366 | inserting into a newest-first sequence keeps it newest first |
| BuilderDashboard.SortNewestFirst | components/BuilderDashboard.tsx:366 | the result is newest first and a permutation of the input |
| BuilderDashboard.InsertKeepsTies | components/BuilderDashboard.tsx:366 | the inserted request goes before every request with the same timestamp |
| BuilderDashboard.SortIsStable | components/BuilderDashboard.tsx:366 | requests with equal timestamps keep their stored order |
| BuilderDashboard.History | components/BuilderDashboard.tsx:359-366 | only the user's own requests, all of them, newest first |
| BuilderDashboard.CategoryLabel | components/BuilderDashboard.tsx:58-60 | no category has no label; every category shows its option's label, never the raw code |
| BuilderDashboard.EditPatch | components/BuilderDashboard.tsx:70-73 | the patch sets both the name and the phone and nothing else |
| BuilderDashboard.ProcessingEndsCompleted | components/BuilderDashboard.tsx:41-56 | Applying the two updates in order leaves every request with the id completed with the text, and otherwise unchanged. The result equals the completion update alone |
| BuilderDashboard.UneditedSaveChangesNothing | components/BuilderDashboard.tsx:62-76 | with unique ids, saving a stored user's own name and phone changes no user |
| BuilderDashboard.Dashboard.constructor | components/BuilderDashboard.tsx:20-36 | whether the user callbacks are supplied is kept; the requests tab, nothing processing, no modal open, empty edit fields |
| BuilderDashboard.Dashboard.SelectTab | components/BuilderDashboard.tsx:86-103 | only the tab changes |
| BuilderDashboard.Dashboard.BeginProcess | components/BuilderDashboard.tsx:42-43 | the request is marked as processing and PROCESSING is requested for its id. Every process button is then disabled, unless the id is empty |
| BuilderDashboard.Dashboard.ProcessDisabled | components/BuilderDashboard.tsx:231 | the process buttons are disabled exactly when a non-empty id is being processed |
| BuilderDashboard.Dashboard.FinishProcess | components/BuilderDashboard.tsx:46-55 | COMPLETED is requested with the generated text, which is never empty; the mark is cleared and the buttons are enabled |
| BuilderDashboard.Dashboard.HandleProcess | components/BuilderDashboard.tsx:41-56 | exactly two updates for the request: first PROCESSING, then COMPLETED with the generated text. Nothing is processing afterwards |
| BuilderDashboard.Dashboard.OpenEditModal | components/BuilderDashboard.tsx:62-66 | the user is being edited and the fields start from its name and phone |
| BuilderDashboard.Dashboard.SetEditName | components/BuilderDashboard.tsx:311 | only the edited name changes |
| BuilderDashboard.Dashboard.SetEditPhone | components/BuilderDashboard.tsx:320 | only the edited phone changes |
| BuilderDashboard.Dashboard.CloseEditModal | components/BuilderDashboard.tsx:327 | the modal closes; nothing else changes |
| BuilderDashboard.Dashboard.HandleSaveUser | components/BuilderDashboard.tsx:68-76 | With no user being edited, nothing is called. With one and the callbacks supplied, both edited fields are sent for that user's id and the modal closes. With one and no callbacks, the call throws and the modal stays open |
| BuilderDashboard.Dashboard.DeleteStudent | components/BuilderDashboard.tsx:157 | the student's id is passed on when the callbacks are supplied, otherwise the call throws; no state changes |
| BuilderDashboard.Dashboard.ViewHistory | components/BuilderDashboard.tsx:143 | only the user whose history is shown changes |

## Left out

- The cloud (Firestore) branch of every store operation and the configuration that selects it are not modelled; only the local branch is. In the cloud branch, deleting a user removes the user before the batch that removes its requests, so that delete is not atomic.
- `JSON.parse`/`JSON.stringify` are left out. Storage is a map from key to saved collection. The controller's effects that save its copies after each change are not run after each handler; `ControllerWritesMissStore` states only that those writes miss the store's keys.
- The text-model call is a parameter `model` from prompt to outcome (`ModelReply`). An exception is the outcome `Failed`.
- The two-second delay before completion is left out.
- The prompts' literal text and whitespace are left out. A prompt is modelled by which branch, instruction and fragments (file sentence, context block) it contains.
- `crypto.randomUUID()`, `Date.now()` and `Date.now().toString()` are parameters (`id`, `now`, `newId`).
- Auth.ToLower: lower-cases the ASCII letters only, not the full Unicode mapping of `toLowerCase`.
- The white space that `trim` removes is the ECMAScript set written out character by character.
- `handleProcess` runs asynchronously. Other handlers can run between its two halves, and `BeginProcess`/`FinishProcess` expose the state between them. Interleavings with other components are not modelled.
- `Partial<…>` updates carry only the record's own fields. A patch with extra keys is not representable.
- A thrown `TypeError` is the outcome `Threw`. What React does with an exception raised in an event handler is left out.
- The layout component and all rendering, styling, icons and Markdown display are left out.
