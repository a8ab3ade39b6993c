# Fitness tracker: a Dafny model of the client session, pages and server handlers

This project models the core of a small fitness-tracking web application in two parts.

The browser client (React):
- the shared HTTP client, with its persisted token, default `Authorization` header and 401 interceptor;
- the session store (the auth context);
- the sign-in, sign-up and profile pages;
- the workout authoring form;
- the exercise library's client-side filter.

The server (Flask):
- the account handlers (register, login, profile);
- the workout and workout-exercise handlers;
- the exercise-library handlers;
- the statistics handlers.

Each state the source updates in place is a Dafny `class`:
- the client;
- the session store;
- each page;
- the workout editor;
- the server's database.

Each class method is specified by a pure function of the state before and after, or by its whole new state. The lemmas state what the application promises about those functions. Server tables are sequences of rows in insertion order. `Database.Valid()` is the invariant every handler keeps:
- primary keys are distinct and below the next key;
- usernames and emails are each unique;
- every workout-exercise row refers to an existing workout and exercise.

HTTP requests are never performed. How a request settles (`Outcome`) is a parameter of the method that awaits it. Likewise parameters:
- the signed-in caller's id (the JWT identity);
- the password hash function;
- "today", and the current year and month.

Modules, one per source file or concern:
- `Wrappers`, `Text`, `Seqs`: an option type, string helpers (ASCII lowercase, whitespace trim, substring search, decimal integers, lexicographic order), and sequence filter and insertion sort.
- `HttpClient`: `services/api.js`.
- `Session`: `context/AuthContext.js`.
- `PageErrors`, `LoginPage`, `RegisterPage`, `ProfilePage`, `WorkoutForm`, `ExerciseLibrary`: the pages.
- `Tables`, `Pagination`: the server's rows, the store invariant and the query-argument reading.
- `AuthRoutes`, `WorkoutRoutes`, `ExerciseRoutes`, `StatsRoutes`: the server's handlers.

## Model

| member | source | states |
|---|---|---|
| HttpClient.BearerRoundTrip | frontend/src/services/api.js:44-50 | the Bearer header value carries exactly its token, and only the header built from a token carries it |
| HttpClient.HeaderFor | frontend/src/services/api.js:44-50 | a header is installed iff the token is truthy, and it carries that token |
| HttpClient.ServerError | frontend/src/context/AuthContext.js:69-72 | the server's error text is used iff the rejection has a response with a truthy `error` field; it is never empty |
| HttpClient.Client.constructor | frontend/src/context/AuthContext.js:17-18 | a fresh page has the persisted token, no header, no redirect |
| HttpClient.Client.SetAuthToken | frontend/src/services/api.js:44-50 | the header afterwards is the Bearer header of a truthy token, and absent otherwise |
| HttpClient.Client.Intercept | frontend/src/services/api.js:19-41 | the outcome passes unchanged; a 401 clears the token and the header and redirects to /login; nothing else changes (together: the browser state becomes `AfterResponse` of the old one); header/token agreement is kept |
| HttpClient.Client.AcceptAuthReply | frontend/src/services/api.js:70-72 | after the interceptor, a resolved reply with a truthy access token installs that token's header; a 401 clears token and header and redirects; otherwise nothing changes (the same code stands at api.js:100-102) |
| HttpClient.Client.Login | frontend/src/services/api.js:53-81 | the reply is passed on; a truthy access token installs its header; the stored token is touched only by a 401 |
| HttpClient.Client.Register | frontend/src/services/api.js:83-111 | the same header effect as login |
| HttpClient.Client.Logout | frontend/src/services/api.js:113-121 | deletes the header and always resolves to true |
| HttpClient.LogoutTwice | frontend/src/services/api.js:113-121 | logging out twice leaves the header deleted and the stored token and location untouched |
| HttpClient.ExercisesUrlReadBack | frontend/src/services/api.js:206-211 | for a muscle group without `&`, `#`, `+` or `%`, the server reads back the path, page, page size and, exactly when the client added it, the muscle group |
| HttpClient.ExercisesUrlArgs | frontend/src/services/api.js:206-211 | for such a muscle group, the server's argument lookups see the page, the page size and the muscle group the client sent |
| HttpClient.WorkoutsUrlReadBack | frontend/src/services/api.js:155-157 | the server reads back the path, page and page size fetchUserWorkouts sent |
| HttpClient.WorkoutPathRoutes | frontend/src/services/api.js:165-203 | a workout id rendered into a per-id path is the id the server's `<int:id>` route extracts |
| HttpClient.ExercisePathRoutes | frontend/src/services/api.js:220-252 | the same for the per-id exercise paths |
| Session.Opened | frontend/src/context/AuthContext.js:11-13 | a page opens with nobody signed in, loading, no error, no header |
| Session.Intercepted | frontend/src/services/api.js:33-39 | a 401 clears token and header and redirects; any other outcome changes nothing; the context fields are kept; agreement is kept |
| Session.LoggedOut | frontend/src/context/AuthContext.js:125-133 | token, header and user are gone; location, loading and error are kept; header and token agree |
| Session.ErrorText | frontend/src/context/AuthContext.js:69-72 | the recorded text is the server's error field when present, else the fallback |
| Session.InitWithoutToken | frontend/src/context/AuthContext.js:15-42 | with no truthy persisted token the initial load only ends loading |
| Session.InitWithToken | frontend/src/context/AuthContext.js:15-42 | with a truthy token: its header is sent; a fetched profile signs in; a failure logs out; loading ends; a 401 redirects |
| Session.LoginSuccess | frontend/src/context/AuthContext.js:58-68 | a successful login persists the token, installs its header, sets the user, clears the error and returns the user |
| Session.LoginWithoutToken | frontend/src/context/AuthContext.js:54-56 | a reply without a truthy token rejects with "Invalid response from server" and records only the generic login error |
| Session.LoginRejected | frontend/src/context/AuthContext.js:69-72 | a rejected login records the server's text or the fallback, keeps the user, and rethrows the same error |
| Session.RegisterLikeLogin | frontend/src/context/AuthContext.js:76-111 | register returns what login returns; on success both have the same effect; otherwise they differ only in the error text |
| Session.RegisterFailure | frontend/src/context/AuthContext.js:98-110 | a failed register records the server's text or the network fallback and rejects |
| Session.UpdateProfileEffects | frontend/src/context/AuthContext.js:113-123 | success replaces the user and clears the error; failure keeps the user and records the text; token and header change only on a 401 |
| Session.LogoutIdempotent | frontend/src/context/AuthContext.js:125-133 | logging out twice is logging out once |
| Session.OperationsKeepSynced | frontend/src/context/AuthContext.js:15-133 | every context operation keeps the default header in agreement with the persisted token |
| Session.WrongPasswordRedirects | frontend/src/services/api.js:33-39 | a login answered with 401 also drops the token and sends the window to /login |
| Session.SessionStore.constructor | frontend/src/context/AuthContext.js:11-13 | the provider mounts with nobody signed in, loading, no error |
| Session.SessionStore.Init | frontend/src/context/AuthContext.js:15-42 | the new state is `AfterInit` of the old one |
| Session.SessionStore.SignIn | frontend/src/context/AuthContext.js:44-111 | the new state and the result are `AfterSignIn` of the old state |
| Session.SessionStore.Login | frontend/src/context/AuthContext.js:44-74 | the new state and the result are `AfterLogin` of the old state |
| Session.SessionStore.Register | frontend/src/context/AuthContext.js:76-111 | the new state and the result are `AfterRegister` of the old state |
| Session.SessionStore.UpdateProfile | frontend/src/context/AuthContext.js:113-123 | the new state and the result are `AfterUpdateProfile` of the old state |
| Session.SessionStore.Logout | frontend/src/context/AuthContext.js:125-133 | the new state is `LoggedOut` of the old one |
| PageErrors.SubmitError | frontend/src/pages/Login.js:48-55 | the server's error text first, then the network message when the failure mentions "Network Error", else the page's fallback |
| PageErrors.AnsweredIsNotNetwork | frontend/src/pages/Register.js:63-70 | a server answer with a truthy error text is always shown verbatim |
| PageErrors.InvalidResponseShowsFallback | frontend/src/pages/Login.js:48-55 | the context's "Invalid response from server" error is shown as the page's fallback |
| LoginPage.MissingField | frontend/src/pages/Login.js:28-31 | the required message is reported iff a field is empty |
| LoginPage.Submitted | frontend/src/pages/Login.js:40-57 | success navigates home with no error; failure shows the chosen message; loading ends |
| LoginPage.WrongPasswordMessage | frontend/src/pages/Login.js:48-55 | a wrong password shows the server's message and the window is also sent to /login |
| LoginPage.ReplyWithoutTokenMessage | frontend/src/pages/Login.js:48-55 | a reply without a token shows the generic credentials message |
| LoginPage.Page.constructor | frontend/src/pages/Login.js:25-59 | empty fields, not loading, no error |
| LoginPage.Page.Submit | frontend/src/pages/Login.js:25-59 | a missing field only sets the message and leaves the session alone; otherwise the session becomes `AfterLogin` and the page `Submitted` |
| RegisterPage.Validation | frontend/src/pages/Register.js:27-39 | valid iff the passwords match and have at least 6 characters; a mismatch is reported before shortness |
| RegisterPage.MismatchTakesPrecedence | frontend/src/pages/Register.js:27-39 | a short, mismatched password reports the mismatch |
| RegisterPage.Submitted | frontend/src/pages/Register.js:59-73 | success navigates home; failure shows the chosen message; loading ends |
| RegisterPage.TakenUsernameMessage | frontend/src/pages/Register.js:63-70 | a taken username's server message is shown on the page and recorded by the context |
| RegisterPage.Page.constructor | frontend/src/pages/Register.js:41-74 | empty fields, not loading, no error |
| RegisterPage.Page.Submit | frontend/src/pages/Register.js:41-74 | an invalid form only sets the message; otherwise the session becomes `AfterRegister` and the page `Submitted` |
| ProfilePage.WithProfileField | frontend/src/pages/Profile.js:64-70 | only the named profile field changes |
| ProfilePage.WithPasswordField | frontend/src/pages/Profile.js:72-78 | only the named password field changes |
| ProfilePage.ProfileFieldLastWins | frontend/src/pages/Profile.js:64-70 | editing one field twice keeps the second value |
| ProfilePage.Shown | frontend/src/pages/Profile.js:133-139 | open, with the message, severity "success" unless one is given |
| ProfilePage.Closed | frontend/src/pages/Profile.js:141-146 | closed, message and severity kept |
| ProfilePage.CloseKeepsText | frontend/src/pages/Profile.js:133-146 | closing a shown notification keeps its text and severity |
| ProfilePage.SavedNamesAreLost | frontend/src/pages/Profile.js:87-93 | for every context user and every profile, the save as written leaves the context user as it was, because the context value has no `updateUser`; a typed first name that differs from the stored one is never merged |
| ProfilePage.MergeNames | frontend/src/pages/Profile.js:87-93 | the intended merge: first and last name replaced, every other field of the user kept |
| ProfilePage.MergeNamesIdempotent | frontend/src/pages/Profile.js:87-93 | merging the same names again changes nothing |
| ProfilePage.PasswordCheck | frontend/src/pages/Profile.js:107-111 | the mismatch message is reported iff the new password and its confirmation differ |
| ProfilePage.Page.constructor | frontend/src/pages/Profile.js:21-45 | empty profile and passwords, loading, closed notification |
| ProfilePage.Page.LoadProfile | frontend/src/pages/Profile.js:47-62 | a fetched profile replaces the form; a failure records the load error; loading ends; the client's token, header and location change only by a 401, as the interceptor does |
| ProfilePage.Page.HandleProfileChange | frontend/src/pages/Profile.js:64-70 | the profile becomes `WithProfileField` of the old one |
| ProfilePage.Page.HandlePasswordChange | frontend/src/pages/Profile.js:72-78 | the password data becomes `WithPasswordField` of the old one |
| ProfilePage.Page.ShowNotification | frontend/src/pages/Profile.js:133-139 | the notification becomes `Shown` |
| ProfilePage.Page.CloseNotification | frontend/src/pages/Profile.js:141-146 | the notification becomes `Closed` of the old one |
| ProfilePage.Page.SubmitProfile | frontend/src/pages/Profile.js:80-102 | the context user is unchanged in both outcomes (it equals the as-written save); success notifies; failure records the error and notifies; saving ends; the profile is kept; the client changes only by a 401 |
| ProfilePage.Page.SubmitPassword | frontend/src/pages/Profile.js:104-131 | a request is sent iff the passwords agree; success clears the fields; failure keeps them; a mismatch only notifies and leaves the client alone; a sent request changes the client only by a 401 |
| WorkoutForm.WithField | frontend/src/pages/WorkoutForm.js:91-97 | only the named form field changes; tags and exercises are kept |
| WorkoutForm.WithEntryField | frontend/src/pages/WorkoutForm.js:99-105 | only the named draft field changes |
| WorkoutForm.FindByName | frontend/src/pages/WorkoutForm.js:110-112 | the first exercise with the name, or none when no exercise has it |
| WorkoutForm.Seeded | frontend/src/pages/WorkoutForm.js:115-119 | the defaults with the exercise's name and description ("" when it has none) |
| WorkoutForm.SelectExercise | frontend/src/pages/WorkoutForm.js:107-122 | an empty or unknown name keeps the draft; a known one seeds it from its first match |
| WorkoutForm.AppendDraft | frontend/src/pages/WorkoutForm.js:124-133 | a named draft is appended after the existing exercises; an unnamed one is ignored |
| WorkoutForm.RemoveAt | frontend/src/pages/WorkoutForm.js:135-141 | exactly the element at the index goes; the others keep their order |
| WorkoutForm.AppendThenRemoveLast | frontend/src/pages/WorkoutForm.js:124-141 | removing a just-appended draft gives the list back |
| WorkoutForm.WithTag | frontend/src/pages/WorkoutForm.js:147-156 | the trimmed input is appended unless it is blank or already present |
| WorkoutForm.WithoutTag | frontend/src/pages/WorkoutForm.js:158-163 | every occurrence of the tag goes; every other tag stays with its multiplicity, in order |
| WorkoutForm.AddTagMembers | frontend/src/pages/WorkoutForm.js:147-156 | a non-blank input ends up among the tags and nothing else is added |
| WorkoutForm.AddTagKeepsDistinct | frontend/src/pages/WorkoutForm.js:147-156 | adding a tag keeps the tags duplicate-free |
| WorkoutForm.AddTagTwice | frontend/src/pages/WorkoutForm.js:147-156 | adding the same input twice adds it once |
| WorkoutForm.RemoveAddedTag | frontend/src/pages/WorkoutForm.js:147-163 | removing a tag that was just added gives the tags back |
| WorkoutForm.SubmitRequest | frontend/src/pages/WorkoutForm.js:165-183 | edit mode (a truthy route id) updates the workout's own path; otherwise a create is sent; the body is the form |
| WorkoutForm.Editor.constructor | frontend/src/pages/WorkoutForm.js:29-60 | the initial form, the default draft, and initial loading only in edit mode |
| WorkoutForm.Editor.LoadExercises | frontend/src/pages/WorkoutForm.js:62-70 | a success replaces the available exercises; a failure changes nothing on the page; the client changes only by a 401 |
| WorkoutForm.Editor.LoadWorkout | frontend/src/pages/WorkoutForm.js:72-85 | only in edit mode: a success replaces the form, a failure records the load error, loading ends, and the client changes only by a 401; outside edit mode nothing changes |
| WorkoutForm.Editor.HandleFormChange | frontend/src/pages/WorkoutForm.js:91-97 | the form becomes `WithField` of the old one |
| WorkoutForm.Editor.HandleCurrentExerciseChange | frontend/src/pages/WorkoutForm.js:99-105 | the draft becomes `WithEntryField` of the old one |
| WorkoutForm.Editor.HandleExerciseSelect | frontend/src/pages/WorkoutForm.js:107-122 | the draft becomes `SelectExercise` of the old one |
| WorkoutForm.Editor.AddExercise | frontend/src/pages/WorkoutForm.js:124-133 | a named draft is appended and the draft reset; an unnamed one changes nothing |
| WorkoutForm.Editor.RemoveExercise | frontend/src/pages/WorkoutForm.js:135-141 | the exercises become `RemoveAt` of the old ones |
| WorkoutForm.Editor.HandleTagInputChange | frontend/src/pages/WorkoutForm.js:143-145 | the tag input takes the value |
| WorkoutForm.Editor.AddTag | frontend/src/pages/WorkoutForm.js:147-156 | a blank input changes nothing; otherwise the tags become `WithTag` and the input is cleared |
| WorkoutForm.Editor.RemoveTag | frontend/src/pages/WorkoutForm.js:158-163 | the tags become `WithoutTag` of the old ones |
| WorkoutForm.Editor.Submit | frontend/src/pages/WorkoutForm.js:165-183 | the request the mode chose; success goes to the workout list; failure names the operation; loading ends; the client changes only by a 401 |
| ExerciseLibrary.FilterExercises | frontend/src/pages/ExerciseLibrary.js:54-74 | the two optional stages equal one filter by their conjunction |
| ExerciseLibrary.ShowAllByDefault | frontend/src/pages/ExerciseLibrary.js:54-74 | "All" with an empty term shows the fetched list exactly |
| ExerciseLibrary.FilterOnlyDeletes | frontend/src/pages/ExerciseLibrary.js:54-74 | the result is an order-preserving subsequence of the fetched list |
| ExerciseLibrary.ShownIff | frontend/src/pages/ExerciseLibrary.js:58-71 | shown iff fetched, in the group (unless "All") and matching the term (unless empty) |
| ExerciseLibrary.StagesCommute | frontend/src/pages/ExerciseLibrary.js:54-74 | searching before selecting the group gives the same list |
| ExerciseLibrary.FilterIdempotent | frontend/src/pages/ExerciseLibrary.js:54-74 | filtering the filtered list changes nothing |
| ExerciseLibrary.NoDescriptionSearchesName | frontend/src/pages/ExerciseLibrary.js:65-71 | without a description, only the name is searched |
| ExerciseLibrary.SearchIgnoresTermCase | frontend/src/pages/ExerciseLibrary.js:65-71 | the search ignores the term's case |
| Text.Trim | frontend/src/pages/WorkoutForm.js:147-156 | the result is the infix of the input at some offset with only white space before and after it, and it neither starts nor ends with white space; empty iff the input is all white space |
| Text.TrimIdempotent | frontend/src/pages/WorkoutForm.js:147-156 | trimming twice is trimming once |
| Text.Lower | frontend/src/pages/ExerciseLibrary.js:65-71 | every ASCII capital is lowered and nothing else changes |
| Text.LowerIdempotent | frontend/src/pages/ExerciseLibrary.js:65-71 | lowering twice is lowering once |
| Text.Includes | frontend/src/pages/ExerciseLibrary.js:65-71 | true iff the substring occurs at some position |
| Text.ParseIntToString | backend/app/api/workouts.py:12-13 | the server parses back every integer the client renders |
| Text.LexLeTotal | backend/app/api/exercises.py:13-18 | name order compares any two names |
| Text.LexLeTransitive | backend/app/api/exercises.py:13-18 | name order is transitive |
| Text.LexLeAntisymmetric | backend/app/api/exercises.py:13-18 | names ordered both ways are equal |
| Tables.Find | backend/app/api/workouts.py:32 | the first row satisfying the condition, or none when no row does |
| Tables.Database.constructor | backend/app/__init__.py:30-32 | an empty store satisfies the invariant |
| Tables.LinkedWorkoutDeleted | backend/app/models/workout.py:37 | deleting a workout with its rows (the cascade) keeps every remaining row's references valid |
| Pagination.ArgInt | backend/app/api/workouts.py:12-13 | the parsed argument, or the default when it is missing or does not convert |
| Pagination.PageSize | backend/app/api/workouts.py:12-13 | never above 100; the requested size whenever it is at most 100 |
| AuthRoutes.ByUsername | backend/app/auth/routes.py:16-17 | found iff some user has the username, at a row with that username |
| AuthRoutes.AddKeepsUnique | backend/app/auth/routes.py:16-29 | adding an account with an unused username and email keeps accounts unique |
| AuthRoutes.ReplaceKeepsUnique | backend/app/auth/routes.py:78-93 | a profile update that passed its checks keeps accounts unique |
| AuthRoutes.Register | backend/app/auth/routes.py:7-38 | a missing field gives 400; a taken username, then a taken email, gives 400; otherwise 201 with exactly one appended user and nothing else changed |
| AuthRoutes.Login | backend/app/auth/routes.py:40-60 | a missing field gives 400; with both fields the reply is 200 or the 401 invalid-credentials error; success only for a stored user with that username whose hash matches |
| AuthRoutes.LoginHidesWhichCheckFailed | backend/app/auth/routes.py:49-51 | an unknown username and a wrong password get the same 401 reply |
| AuthRoutes.StoredUserLogsIn | backend/app/auth/routes.py:49-57 | with unique usernames, every stored user logs in with any password whose hash it stores, and gets its own row |
| AuthRoutes.RegisteredUserLogsIn | backend/app/auth/routes.py:22-29 | a registered user logs in with the password it registered with |
| AuthRoutes.GetProfile | backend/app/auth/routes.py:62-68 | the caller's row, or 404 iff there is none |
| AuthRoutes.ById | backend/app/auth/routes.py:66 | found only at a row with that id; none only when no user has it |
| AuthRoutes.Revised | backend/app/auth/routes.py:84-93 | the present fields are applied; the id is kept; a new password is stored hashed |
| AuthRoutes.UpdateProfile | backend/app/auth/routes.py:70-98 | 404 for an unknown caller; a changed username, then email, already in use gives 400 and persists nothing; otherwise the caller's row alone is revised |
| WorkoutRoutes.ListWorkouts | backend/app/api/workouts.py:8-26 | exactly the caller's workouts, each as often as it is stored, newest first, with page and page size read as the handler reads them |
| WorkoutRoutes.OwnedWorkout | backend/app/api/workouts.py:32 | found only at a row with that id and the caller's user id |
| WorkoutRoutes.RowsOf | backend/app/api/workouts.py:28-34 | exactly the rows of that workout |
| WorkoutRoutes.GetWorkout | backend/app/api/workouts.py:28-34 | the caller's workout with its rows, or 404 iff the caller owns no workout with that id |
| WorkoutRoutes.CreateWorkout | backend/app/api/workouts.py:36-56 | no name gives 400; otherwise 201 with one appended workout owned by the caller, dated today unless given |
| WorkoutRoutes.Revised | backend/app/api/workouts.py:65-72 | the present keys overwrite their fields; id and owner are kept |
| WorkoutRoutes.EmptyUpdateKeepsWorkout | backend/app/api/workouts.py:65-72 | an update with no keys changes nothing |
| WorkoutRoutes.UpdateWorkout | backend/app/api/workouts.py:58-76 | 404 unless the caller owns it; otherwise only that row is revised |
| WorkoutRoutes.DeleteWorkout | backend/app/api/workouts.py:78-87 | 404 unless the caller owns it; otherwise the workout and all of its rows go, with 204 |
| WorkoutRoutes.DeleteRemovesWorkout | backend/app/api/workouts.py:78-87 | after the delete no workout has that id, no row refers to it, and every other workout is kept |
| WorkoutRoutes.AddExercise | backend/app/api/workouts.py:89-115 | 404 for another's workout, then 400 without an exercise id, then 404 for an unknown exercise; success iff none of these, with one appended row |
| WorkoutRoutes.RevisedEntry | backend/app/api/workouts.py:126-137 | the present keys overwrite their fields; id, workout and exercise are kept |
| WorkoutRoutes.RowAt | backend/app/api/workouts.py:122 | found only at a row with that id belonging to that workout |
| WorkoutRoutes.UpdateWorkoutExercise | backend/app/api/workouts.py:117-141 | 404 unless the caller owns the workout and the row belongs to it; otherwise only that row is revised |
| WorkoutRoutes.RemoveExercise | backend/app/api/workouts.py:143-153 | 404 unless the caller owns the workout and the row belongs to it; otherwise that row goes, with 204 |
| WorkoutRoutes.OthersWorkoutsNotFound | backend/app/api/workouts.py:32 | another user's workout is answered with 404 |
| ExerciseRoutes.ListExercises | backend/app/api/exercises.py:7-29 | exactly the exercises of the requested category (all without one), each as often as it is stored, ordered by name, with page and page size read as the handler reads them |
| ExerciseRoutes.ClientQueryIsUnfiltered | frontend/src/services/api.js:206-211 | the query the client sends is answered with every exercise: the handler never reads `muscle_group` |
| ExerciseRoutes.ClientQueryArgs | backend/app/api/exercises.py:10-12 | the handler reads back the page and page size the client sent and finds no `category` argument |
| ExerciseRoutes.ExerciseAt | backend/app/api/exercises.py:33 | found iff an exercise has that id (also the lookup of backend/app/api/workouts.py:99) |
| ExerciseRoutes.GetExercise | backend/app/api/exercises.py:31-34 | the exercise, or 404 iff there is none with that id |
| ExerciseRoutes.CreateExercise | backend/app/api/exercises.py:36-53 | no name gives 400; otherwise 201 with one appended exercise |
| ExerciseRoutes.Revised | backend/app/api/exercises.py:61-66 | the present keys overwrite their fields; the id is kept |
| ExerciseRoutes.ReviseIdempotent | backend/app/api/exercises.py:61-66 | applying an update twice is applying it once |
| ExerciseRoutes.UpdateExercise | backend/app/api/exercises.py:55-70 | 404 for an unknown id; otherwise only that row is revised |
| ExerciseRoutes.DeleteExercise | backend/app/api/exercises.py:72-84 | 404 for an unknown id, 400 while a workout uses it, otherwise it goes with 204, keeping every row's references valid |
| ExerciseRoutes.DeleteRemovesExercise | backend/app/api/exercises.py:72-84 | the deleted exercise is gone and every other one is kept |
| StatsRoutes.Mine | backend/app/stats/routes.py:15 | exactly the caller's workouts |
| StatsRoutes.TotalDurationAppend | backend/app/stats/routes.py:18 | the duration sum of two lists is the sum of their sums |
| StatsRoutes.TotalDurationSplit | backend/app/stats/routes.py:18-25 | splitting workouts by any condition splits the duration sum |
| StatsRoutes.Latest | backend/app/stats/routes.py:45-46 | none iff there are no workouts; otherwise a date some workout has, and no workout is later |
| StatsRoutes.LatestOfMine | backend/app/stats/routes.py:45-46 | the latest date is attained by and bounds every workout of the caller |
| StatsRoutes.UserRows | backend/app/stats/routes.py:28-35 | exactly the rows of the caller's workouts |
| StatsRoutes.JoinedName | backend/app/stats/routes.py:30-31 | the name of an exercise with the row's exercise id, and none iff no exercise has it |
| StatsRoutes.JoinedNames | backend/app/stats/routes.py:28-33 | each name occurs exactly as often as there are rows whose joined exercise has that name; every name is an exercise's; every row joins when the references are valid |
| StatsRoutes.Best | backend/app/stats/routes.py:36-40 | a candidate whose count is maximal |
| StatsRoutes.Mode | backend/app/stats/routes.py:36-42 | none iff no name; otherwise a name occurring at least as often as any other |
| StatsRoutes.SummaryStats | backend/app/stats/routes.py:9-54 | the caller's count; the total duration of the caller's workouts; the count of those dated within thirty days of today; zero duration and zero recent workouts without workouts; the latest date iff any workout; a most frequent exercise iff any joined row |
| StatsRoutes.CountSplit | backend/app/stats/routes.py:15-25 | splitting workouts by any condition splits their number |
| StatsRoutes.RecentSplit | backend/app/stats/routes.py:15-25 | the recent count takes exactly the caller's workouts dated on or after today minus thirty days; it and the count of the older ones add up to the total |
| StatsRoutes.NoFavouriteIffNoRows | backend/app/stats/routes.py:28-42 | with valid references, no favourite exercise exactly when the caller logged no row |
| StatsRoutes.LatestIsFirstListed | backend/app/stats/routes.py:45-46 | the latest date is the date of the first workout the workout list shows |
| StatsRoutes.LatestOfNewestFirst | backend/app/stats/routes.py:45-46 | for any list holding exactly the given workouts, newest first, the latest date is that of its head |
| StatsRoutes.LoopFormulaAgrees | backend/app/stats/routes.py:67-71 | the loop's month and year arithmetic equals counting back i months |
| StatsRoutes.MonthsBackFacts | backend/app/stats/routes.py:67-71 | every month is 1 to 12, in this year exactly for the months not after the current one, else in the previous year |
| StatsRoutes.FirstMonthIsCurrent | backend/app/stats/routes.py:67-71 | the first entry is the current month |
| StatsRoutes.MonthBeforePrevious | backend/app/stats/routes.py:67-71 | each entry is the calendar month before the previous entry |
| StatsRoutes.MonthsDistinct | backend/app/stats/routes.py:67-71 | the twelve months are distinct |
| StatsRoutes.StatFor | backend/app/stats/routes.py:73-85 | the month's year and number; its count never exceeds the caller's workouts and is positive when any of them falls in that month |
| StatsRoutes.StatForIsQuery | backend/app/stats/routes.py:73-85 | the month's count is the number of the caller's workouts dated in that month and its duration is their summed duration (a missing one adding 0) |
| StatsRoutes.MonthsUpToAt | backend/app/stats/routes.py:56-94 | the k-th of the first n months collected is the stats of the k-th month back |
| StatsRoutes.MonthFilter | backend/app/stats/routes.py:73-85 | the month's query, run as a filter, agrees with counting and summing the month's workouts one at a time |
| StatsRoutes.MonthlyStats | backend/app/stats/routes.py:56-94 | twelve entries, the i-th being the stats of the i-th month back |
| StatsRoutes.StatOf | backend/app/stats/routes.py:102-117 | id, name and category copied; the count is the number of rows that use the exercise; positive iff some row uses it |
| StatsRoutes.FilterCountsUses | backend/app/stats/routes.py:107-114 | counting the rows of an exercise by filter agrees with counting them one at a time |
| StatsRoutes.Tally | backend/app/stats/routes.py:107-114 | exactly the used exercises, each with its count |
| StatsRoutes.TallyOmits | backend/app/stats/routes.py:107-114 | an id no exercise has never appears in the tally |
| StatsRoutes.TallyDistinct | backend/app/stats/routes.py:107-114 | over exercises with distinct ids, the tally lists each exercise id at most once |
| StatsRoutes.ExerciseStats | backend/app/stats/routes.py:96-126 | exactly the exercises the caller used, with their counts, most used first, and each exercise id at most once when the exercise ids are distinct |

## Left out

- Network I/O: a request is never made. Its settled outcome, or the server's reply, is a parameter.
- Rendering, JSX, the route guard component, console logging and the ordering of concurrent asynchronous effects.
- Session.AfterInit, Session.AfterSignIn, WorkoutForm.SubmitError: these specification functions have no contract of their own. The lemmas beside them state their effects.
- JWT creation and verification: the caller's id is a parameter, and a successful register or login replies with the user row instead of a token.
- Password hashing is an arbitrary function parameter. Salting is not modelled.
- AuthRoutes.Register: a required key that is present but holds null (or a non-string) is not modelled. The check only tests key presence, and the database would then refuse the row. The same holds for the name in WorkoutRoutes.CreateWorkout and ExerciseRoutes.CreateExercise.
- Pagination.ArgInt: Python `int()` also accepts surrounding white space, a leading `+` and digit underscores. Only an optional `-` followed by decimal digits is modelled.
- WorkoutRoutes.ListWorkouts: cutting out the requested page is not modelled, nor the `total`, `pages` and `current_page` fields. The ordered rows, page number and clamped page size are.
- ExerciseRoutes.ListExercises: ordering by name uses code-point order, not the database's collation. Pagination is as for ListWorkouts.
- StatsRoutes.Mode: ties between equally frequent names go to the first in row order. The database leaves that order unspecified.
- StatsRoutes.ExerciseStats: the order among exercises with equal counts is left open.
- Dates are calendar records. "Today" and the current month are parameters. A malformed date string (a 500 from `strptime`) is not modelled.
- Weights and distances are `real` values that are only stored, never computed with.
- `created_at`, `updated_at` and the `to_dict` serialisation are not modelled.
- The user model file is not part of this model: a user is its id, username, email and password hash.
- Text.Lower folds ASCII letters only. JavaScript's `toLowerCase` folds all of Unicode. JavaScript strings are UTF-16 code units, while `seq<char>` holds code points.
- The change-password request posts to `/auth/change-password` (frontend/src/services/api.js:146). No server handler serves that path, so only the page's side of it is modelled.
- The client calls `/api/stats/*` (frontend/src/services/api.js:263-283). The statistics blueprint is mounted at `/stats` (backend/app/__init__.py:32), so those calls cannot reach the handlers. The handlers are modelled as mounted.
- The client sends `muscle_group`, while the exercise list handler reads `category`. ExerciseRoutes.ClientQueryIsUnfiltered proves the consequence.
- The client pages expect list replies to be arrays, while the server wraps them with paging fields. That reshaping is not modelled.
- Being signed in and having a header installed are not kept in step, because the code does not keep them so. A 401 drops the token and the header but leaves the context user. A login reply with a token but no user installs the header with nobody signed in. The model follows the code.
- HttpClient.Client.Login, HttpClient.Client.Register: a resolved reply always has a body here. In the source, a reply without one makes the wrappers throw a TypeError when they read `response.data.access_token` (frontend/src/services/api.js:70 and :100). Only the auth context's own requests test `!response.data` (frontend/src/context/AuthContext.js:54), and the model treats such a reply there like one without an access token.
- HttpClient.ExercisesUrlReadBack, HttpClient.ExercisesUrlArgs: only muscle groups without `&`, `#`, `+` or `%` are covered. The client does not encode the value, and the server would split at `&`, cut at `#`, and decode `+` and `%` escapes.
- HttpClient.PageQuery, HttpClient.ExercisesUrl, HttpClient.WorkoutsUrl, HttpClient.WorkoutPath, HttpClient.ExercisePath: these URL builders have no contract of their own. The read-back lemmas state what the server reads from the URLs they build.
- HttpClient.AfterResponse, Session.AfterLogin, Session.AfterRegister, Session.AfterUpdateProfile, ProfilePage.SavedUserAsWritten: these state functions have no contract of their own. The interceptor's ensures and the Session and ProfilePage lemmas state their effects.
- ExerciseLibrary.InGroup, ExerciseLibrary.MatchesSearch, WorkoutForm.EditMode, ExerciseRoutes.InUse, StatsRoutes.Since: these are the source's conditions written as predicates, with no contract of their own. ShownIff, SubmitRequest, DeleteExercise and RecentSplit state them.
- StatsRoutes.TotalDuration, StatsRoutes.MonthsBack, StatsRoutes.MonthCount, StatsRoutes.MonthDuration, StatsRoutes.UseCount, StatsRoutes.RowsNamed, StatsRoutes.MonthsUpTo: these reference definitions have no contract of their own. TotalDurationSplit, the month lemmas, MonthFilter, StatForIsQuery, MonthsUpToAt, FilterCountsUses and JoinedNames relate them to the handlers.

## Findings

| source | as written | input that shows it | evidently intended | confidence | as-written member | corrected member |
|---|---|---|---|---|---|---|
| frontend/src/pages/Profile.js:87-93 | the page calls `updateUser` from the auth context only if it exists. The context value (frontend/src/context/AuthContext.js:135-143) has no `updateUser`, so the call never happens and ProfilePage.Page.SubmitProfile leaves the context user unchanged. | context user `{firstName: "Ann", lastName: "Lee"}`, names typed "Anne" and "Leigh", save succeeds: the context user still says "Ann" | after a successful save, the context user carries the typed first and last names and keeps its other fields | not executed | ProfilePage.SavedNamesAreLost | ProfilePage.MergeNames |
