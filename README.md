# To-do app core in Dafny

This project models a small mobile to-do application with accounts. Users
sign up with an email and a password, log in, change their password and
edit a profile. They keep a list of timed tasks that they add, edit,
complete and delete. Everything is kept on the device, in a key-value store
under three keys: "tasks", "users" and "currentUser". The session lives in
a small client-state slice (`isLoggedIn`, `currentUser`).

The model covers:

- the form schemas;
- the handlers that read, change and write the stored lists;
- the task card's colour and countdown logic;
- the session reducers.

Modules:

- `Common`: an `Option`, JavaScript truthiness of stored strings, and decimal
  rendering of a number (the task id is `Date.now().toString()`).
- `FieldRules`: string lengths counted in UTF-16 code units, which is what
  the schema library's `min`/`max` compare. Also the password pattern, with
  its four look-aheads: `.` does not cross a line terminator, so each
  look-ahead is modelled that way.
- `AppStorage`: the task and user records and the three storage keys. Each
  key is either absent or holds a whole value that is written back in full.
- `Accounts`: the `find`/`findIndex` searches over the stored users.
- `Durations`: milliseconds split into whole hours and minutes, and the
  `Xh Ym` text.
- `TaskCard`: `getBorderColor`, `getTimeLeft` and the "Mark as Complete"
  confirmation.
- `HomeScreen`: the task list screen. Its `tasks` state is an `array` and it
  also holds the storage. The screen can load, toggle, delete and render.
- `TaskScreen` and `EarlierTaskScreen`: the add/edit form, in its current
  copy and its earlier copy. The earlier copy does not require a description.
- `Auth`: the session slice, as a reducer function and as a class whose
  fields the reducers update.
- `SignUpScreen`, `LoginScreen`, `ChangePasswordScreen`, `UserPanelScreen`:
  the account screens. Each has a schema and a handler. A `Submit...` member
  runs the handler only on values the schema accepts, as the form library
  does; `None` means nothing was submitted.

The clock is a parameter (`now`). The email syntax check of the schema
library is a parameter: a predicate `isEmail`.

## Model

| member | source | states |
|---|---|---|
| Common.Decimal | screens/TaskScreen.jsx:85 | the id text of a number is a non-empty run of digits with no leading zero, one digit exactly below ten |
| Common.ParseDecimalOfDecimal | screens/TaskScreen.jsx:85 | reading the decimal text of a number gives the number back |
| Common.DecimalInjective | screens/TaskScreen.jsx:85 | different creation times give different task ids |
| FieldRules.Utf16Length | screens/SignUpScreen.jsx:15-19 | a length as the schema counts it lies between the number of characters and twice that |
| FieldRules.Utf16LengthInBmp | screens/UserPanelScreen.jsx:26-27 | for characters in the Basic Multilingual Plane the schema's length is the character count |
| FieldRules.PasswordPattern | screens/SignUpScreen.jsx:20-23 | the four look-aheads of the password expression: a lower-case letter, an upper-case letter, a digit and a character that is neither, each before any line terminator |
| FieldRules.PasswordRule | screens/SignUpScreen.jsx:17-24 | the password field: 4 to 20 code units, the pattern, and not empty |
| FieldRules.EmailRule | screens/SignUpScreen.jsx:13-16 | the email field: the library's email check, at most 50 code units, and not empty |
| FieldRules.AcceptedPasswordHasAllClasses | screens/SignUpScreen.jsx:17-24 | an accepted password has 4 to 20 code units (2 to 20 characters) and contains a lower-case letter, an upper-case letter, a digit and a character that is neither |
| FieldRules.PatternOnOneLine | screens/SignUpScreen.jsx:20-23 | on a password without line terminators, the pattern holds exactly when all four classes occur |
| FieldRules.PatternStopsAtLineBreak | screens/SignUpScreen.jsx:21 | "Ab1!" matches, while "Ab!" followed by a line break and "1" does not, because `.` stops at the break |
| AppStorage.StoredUsers | screens/SignUpScreen.jsx:33 | the account list the screens read: the stored list, or an empty list when "users" is absent |
| AppStorage.StoredTasks | screens/TaskScreen.jsx:75 | the task list the form reads: the stored list, or an empty list when "tasks" is absent |
| Accounts.IndexOfEmail | screens/ChangePasswordScreen.jsx:53 | no index exactly when no user has the email; otherwise the first user with it |
| Accounts.IndexOfCredentials | screens/LoginScreen.jsx:32-34 | no index exactly when no user has both the email and the password; otherwise the first such user |
| Accounts.UniqueEmailIndex | screens/UserPanelScreen.jsx:77 | when emails are unique, the search finds the one user carrying the email |
| Accounts.NewAccount | screens/SignUpScreen.jsx:43 | the record sign-up appends carries the typed email and password and no other field |
| Durations.SplitMinutes | components/Home/TaskCard.jsx:54-56 | minutes below 60, and hours and minutes are the duration floored to whole minutes |
| Durations.SplitMinutesUnique | components/Home/TaskCard.jsx:54-56 | any hours and minutes, with minutes below 60, that add up to the whole minutes are the ones computed |
| Durations.SpanText | components/Home/TaskCard.jsx:58 | the span text has at least two characters and ends in "m" |
| Durations.SpanTextShowsHoursIffPositive | components/Home/TaskCard.jsx:58 | the text carries an hours part ("h") exactly when the hours are positive, and has the form "Xh Ym" or "Ym" |
| TaskCard.BorderColor | components/Home/TaskCard.jsx:15-34 | the grey fallback colour is never returned; the colour is "dodgerblue" exactly for a completed task and "lightgreen" exactly for an open task that has not started |
| TaskCard.StatusExactlyOne | components/Home/TaskCard.jsx:15-34 | every task is in exactly one of: done, not started, past due, final ten minutes, past half time, in progress |
| TaskCard.BorderColorIsStatusColor | components/Home/TaskCard.jsx:15-34 | the border colour is the colour of the task's status, so the grey fallback is never reached |
| TaskCard.HalfTimeTest | components/Home/TaskCard.jsx:30 | the real-valued half-time test agrees with `2 * elapsed >= total` |
| TaskCard.TimeLeftOf | components/Home/TaskCard.jsx:37-52 | each case of the countdown exactly when its condition holds, with a positive remaining time |
| TaskCard.TimeLeftText | components/Home/TaskCard.jsx:38-58 | the text ends in "m" exactly when it is a countdown (to the start or to the end) |
| TaskCard.GetTimeLeft | components/Home/TaskCard.jsx:37-59 | "Completed" exactly for a completed task, "Task is due" exactly for an open task whose start and end have passed, and a countdown otherwise |
| TaskCard.GetTimeLeftCases | components/Home/TaskCard.jsx:37-59 | the card's text in each case: completed, time to start, time to end floored to minutes, due |
| TaskCard.HandleToggleComplete | components/Home/TaskCard.jsx:61-81 | a completed task is toggled at once; an open task is toggled only on "Yes"; the id passed is the task's |
| HomeScreen.ToggleById | screens/HomeScreen.jsx:40-42 | the list keeps its length and order, and each position holds the same task, flipped when its id matches |
| HomeScreen.Flip | screens/HomeScreen.jsx:41 | a task keeps every field but its completion, which flips exactly when its id is the toggled one |
| HomeScreen.ToggleKeepsFields | screens/HomeScreen.jsx:40-42 | same length; each task keeps id, title, description and times, and its completion flips exactly when its id matches |
| HomeScreen.ToggleTwice | screens/HomeScreen.jsx:40-42 | toggling the same id twice restores the list |
| HomeScreen.ToggleKeepsIdOrder | screens/HomeScreen.jsx:40-42 | toggling keeps the sequence of ids |
| HomeScreen.DeleteById | screens/HomeScreen.jsx:58 | a task remains exactly when it was there and its id is not the deleted one |
| HomeScreen.DeleteKeepsOrder | screens/HomeScreen.jsx:58 | the remaining tasks are a subsequence of the old list, and no task with the id is left |
| HomeScreen.DeleteAbsentId | screens/HomeScreen.jsx:58 | deleting an id no task has leaves the list as it was |
| HomeScreen.DeleteIdempotent | screens/HomeScreen.jsx:58 | deleting the same id twice is the same as once |
| HomeScreen.Reversed | screens/HomeScreen.jsx:74 | reversing keeps the length |
| HomeScreen.ReversedAt | screens/HomeScreen.jsx:74 | position k of the reversed list holds the element from position n-1-k |
| HomeScreen.ReversedTwice | screens/HomeScreen.jsx:74 | reversing twice gives the list back |
| HomeScreen.ReversedFromIndices | screens/HomeScreen.jsx:74 | a list whose position k holds position n-1-k of another list is that list reversed |
| HomeScreen.ToggleOfReversedAt | screens/HomeScreen.jsx:40-74 | position k of the toggled reversed list is the flipped task from position n-1-k |
| HomeScreen.ReversedOfToggleAt | screens/HomeScreen.jsx:40-74 | position k of the reversed toggled list is the flipped task from position n-1-k |
| HomeScreen.ToggleOfReversed | screens/HomeScreen.jsx:40-74 | toggling a reversed list is reversing the toggled list |
| HomeScreen.ToggleAfterRenderSwapsSavedOrder | screens/HomeScreen.jsx:74 | after a render of two distinct tasks, a toggle saves them in the opposite order to the list that was loaded |
| HomeScreen.ReverseInPlace | screens/HomeScreen.jsx:74 | reversing an array in place: position k ends up holding what position n-1-k held |
| HomeScreen.HomeScreenState.constructor | screens/HomeScreen.jsx:19 | the screen starts with an empty task list |
| HomeScreen.HomeScreenState.SetTasks | screens/HomeScreen.jsx:43 | the state becomes a fresh array holding the list; the storage is unchanged |
| HomeScreen.HomeScreenState.LoadTasks | screens/HomeScreen.jsx:22-25 | a stored list replaces the state; without one the state stays as it was |
| HomeScreen.HomeScreenState.ToggleComplete | screens/HomeScreen.jsx:39-45 | the state and the stored "tasks" are both the toggled list; users and session are untouched |
| HomeScreen.HomeScreenState.DeleteTask | screens/HomeScreen.jsx:48-64 | on "Delete", the state and the stored "tasks" are both the list without the id; on "Cancel" nothing changes |
| HomeScreen.HomeScreenState.Render | screens/HomeScreen.jsx:73-74 | rendering reverses the state array in place and shows it |
| HomeScreen.HomeScreenState.VisibleTasks | screens/HomeScreen.jsx:74 | the list is shown newest first and the state is left alone |
| HomeScreen.HomeScreenState.OnCardToggle | components/Home/TaskCard.jsx:61-81 | a card's toggle reaches the screen's toggle exactly when the confirmation allows it |
| TaskScreen.InitialValues | screens/TaskScreen.jsx:35-40 | each field comes from the task being edited when that field is truthy; otherwise it is empty text or the clock, read once for the start and once for the end |
| TaskScreen.NewFormTiming | screens/TaskScreen.jsx:25-28 | an untouched new form passes the timing rule exactly when the second clock read is later than the first (or one read is 0) |
| TaskScreen.EndAfterStart | screens/TaskScreen.jsx:25-28 | the timing test: passes when either time is unset (0), otherwise only when the end is after the start |
| TaskScreen.TitleRule | screens/TaskScreen.jsx:15-17 | a title is not empty and has at most 30 code units |
| TaskScreen.TaskSchemaValid | screens/TaskScreen.jsx:14-29 | the task schema: title and description required, at most 30 and 150 code units, and the end after the start when both are set |
| TaskScreen.TaskSchemaMeaning | screens/TaskScreen.jsx:14-29 | accepted values have a title of 1 to 30 code units and a description of 1 to 150 (so also at most 30 and 150 characters), and the end is after the start whenever both are set; with a valid title and description and a time unset, the values are accepted |
| TaskScreen.FormatDuration | screens/TaskScreen.jsx:59-67 | no duration exactly when a time is unset or the end is not after the start |
| TaskScreen.DurationSplit | screens/TaskScreen.jsx:59-67 | the duration text, with minutes below 60, hours the whole hours, the floor bounds, and "h" exactly when hours are positive |
| TaskScreen.Overlay | screens/TaskScreen.jsx:80 | an edited task keeps its id and completion and takes the four form fields |
| TaskScreen.NewTask | screens/TaskScreen.jsx:85 | a new task is not completed, its id is the decimal text of the clock, and its fields are the form's |
| TaskScreen.EditTasks | screens/TaskScreen.jsx:78-81 | same length; a task with another id is unchanged; the edited one keeps its id and completion and takes the form's values |
| TaskScreen.OnSubmit | screens/TaskScreen.jsx:74-91 | only "tasks" is written: the edited list, or the old list with one new open task appended, whose id is the time and whose fields are the form's |
| TaskScreen.NewTaskIdsDiffer | screens/TaskScreen.jsx:85 | tasks added at different times get different ids |
| TaskScreen.Submit | screens/TaskScreen.jsx:72-74 | the submit handler runs exactly when the schema accepts the values |
| TaskScreen.AddedTaskEndsAfterStart | screens/TaskScreen.jsx:23-28 | a task added with both times set ends after it starts |
| EarlierTaskScreen.EarlierSchemaValid | components/TaskScreen.jsx:13-26 | the earlier schema: as the later one, except that the description may be empty |
| EarlierTaskScreen.LaterSchemaIsEarlierWithRequiredDescription | components/TaskScreen.jsx:13-26 | the later schema accepts exactly what the earlier one accepts with a non-empty description |
| EarlierTaskScreen.Submit | components/TaskScreen.jsx:69-88 | the same submit handler behind the earlier schema |
| EarlierTaskScreen.EmptyDescriptionOnlyEarlier | components/TaskScreen.jsx:17 | a task with an empty description is saved by the earlier form only |
| Auth.Reduce | redux/authSlice.js:13-24 | logout returns to the initial state; login and setUser log in with the payload as the user |
| Auth.SetUserIsLogin | redux/authSlice.js:13-24 | setUser has the same effect as login |
| Auth.ReachableStatesConsistent | redux/authSlice.js:4-24 | with non-null payloads, the session is logged in exactly when it has a user |
| Auth.NullPayloadInconsistent | redux/authSlice.js:13-16 | login with a null payload is logged in without a user |
| Auth.ConfirmLogout | components/Drawer/logoutButton.jsx:20-22 | logging out removes the stored session key, keeps the stored lists, and leaves the slice logged out with no user |
| Auth.AuthSlice.constructor | redux/authSlice.js:4-7 | the slice starts logged out with no user |
| Auth.AuthSlice.Login | redux/authSlice.js:13-16 | the fields become the reducer's result for login |
| Auth.AuthSlice.Logout | redux/authSlice.js:17-20 | the fields become the initial state |
| Auth.AuthSlice.SetUser | redux/authSlice.js:21-24 | the fields become the reducer's result for setUser |
| Auth.AuthSlice.Dispatch | redux/authSlice.js:28 | dispatching applies the reducer and keeps a consistent state consistent |
| SignUpScreen.SignUpSchemaValid | screens/SignUpScreen.jsx:12-25 | the sign-up schema: the email field and the password field |
| SignUpScreen.SignUpSchemaMeaning | screens/SignUpScreen.jsx:12-25 | an accepted email has 1 to 50 characters; an accepted password has 4 to 20 code units and all four classes |
| SignUpScreen.HandleSignUp | screens/SignUpScreen.jsx:30-52 | refused exactly when the email is already stored, and then nothing changes; otherwise the account is appended and login(email) is dispatched; unique emails stay unique |
| SignUpScreen.SubmitSignUp | screens/SignUpScreen.jsx:57-60 | a registration appends exactly one account with the typed email and password, which follows the password rule |
| LoginScreen.LoginSchemaValid | screens/LoginScreen.jsx:12-21 | the login schema: the email field, and a password of 4 to 20 code units with no pattern |
| LoginScreen.LoginAcceptsWeakerPasswords | screens/LoginScreen.jsx:17-20 | "abcd" passes the login schema but not the sign-up password rule |
| LoginScreen.HandleLogin | screens/LoginScreen.jsx:27-46 | logged in exactly when some stored account has both the email and the password; the user is the first match's email |
| LoginScreen.Dispatched | screens/LoginScreen.jsx:36-41 | a successful login dispatches login(email); a failed one dispatches nothing |
| LoginScreen.SubmitLogin | screens/LoginScreen.jsx:56-58 | the handler runs exactly when the schema accepts the values |
| LoginScreen.LoginAfterSignUp | screens/LoginScreen.jsx:32-34 | an account that sign-up just appended can log in |
| ChangePasswordScreen.ChangePasswordSchemaValid | screens/ChangePasswordScreen.jsx:12-33 | the change-password schema: both passwords follow the password field rule, the new one differs from the old, and the confirmation is required and equals the new one |
| ChangePasswordScreen.ChangePasswordSchemaMeaning | screens/ChangePasswordScreen.jsx:12-33 | both passwords have all four classes; the new one differs from the old one and the confirmation repeats it |
| ChangePasswordScreen.HandleChangePassword | screens/ChangePasswordScreen.jsx:41-76 | each guard's outcome exactly when its condition holds, and then nothing changes; on success only the first matching account's password becomes the new one |
| ChangePasswordScreen.SubmitChangePassword | screens/ChangePasswordScreen.jsx:83-85 | after a change exactly one account, whose password was the old one, changes, and only in its password |
| UserPanelScreen.ProfileSchemaValid | screens/UserPanelScreen.jsx:23-51 | the profile schema: every field present and not empty, each with its pattern or length rule |
| UserPanelScreen.NameRule | screens/UserPanelScreen.jsx:24-28 | a name is not empty, 2 to 30 code units, and only letters, white space and dots |
| UserPanelScreen.MobileRule | screens/UserPanelScreen.jsx:30-32 | a mobile number is exactly ten digits, the first 6 to 9 |
| UserPanelScreen.CountryCodeRule | screens/UserPanelScreen.jsx:34-36 | a country code is "+" followed by one to four digits |
| UserPanelScreen.AddressRule | screens/UserPanelScreen.jsx:38-40 | an address has at least five code units |
| UserPanelScreen.DobFormat | screens/UserPanelScreen.jsx:42-43 | a date of birth is two digits, "/", two digits, "/", four digits |
| UserPanelScreen.ProfileSchemaMeaning | screens/UserPanelScreen.jsx:23-51 | an accepted mobile number is ten digits starting 6 to 9, a country code is "+" and 1 to 4 digits, a name is letters, spaces and dots, and the name, address and email lengths are bounded |
| UserPanelScreen.NameLengthIsCharacterCount | screens/UserPanelScreen.jsx:24-28 | an accepted name has 2 to 30 characters |
| UserPanelScreen.LoadUser | screens/UserPanelScreen.jsx:71-79 | with no session or no users the form keeps its user; otherwise it takes the first account with the session's email, and keeps its user when there is none |
| UserPanelScreen.ReplaceByEmail | screens/UserPanelScreen.jsx:86-88 | every account with the email is replaced by the values; the others stay |
| UserPanelScreen.UpdateUser | screens/UserPanelScreen.jsx:81-94 | without users nothing changes; otherwise the loaded user's accounts become the values, the session becomes the new email, and tasks are untouched |
| UserPanelScreen.SubmitProfile | screens/UserPanelScreen.jsx:127-130 | the update runs exactly when the schema accepts the values |
| UserPanelScreen.ReloadAfterUpdate | screens/UserPanelScreen.jsx:71-94 | saving a profile and loading the panel again gives back the saved values |
| UserPanelScreen.PanelAfterLogoutKeepsUser | screens/UserPanelScreen.jsx:71-74 | after a logout the panel finds no session and keeps the form's user |

## Left out

- Storage I/O is modelled as values; the model does not capture awaiting, or interleaving between screens and focus events.
- JSON parsing and its failures are not modelled, nor the `try`/`catch` error alerts. A stored value is always a well-formed list.
- Navigation (`replace`, `goBack`, `navigate`) and alert texts are not modelled. Only the decisions behind them are.
- Validation messages are not modelled. Several schemas read message objects (for example `messages.Validate.userPanel`) that messages.js is not shown to define; the model assumes the schemas evaluate.
- UserPanelScreen.ProfileSchemaValid: the `dob` rule `.max(new Date())` is left out. On a string field the schema library's `max` is a length limit, so it compares the length of the text with the numeric value of the current date and always passes; leaving it out is therefore exact. That library code is not part of this model.
- FieldRules.EmailRule: the email syntax rule is the parameter `isEmail`, because the schema library's email expression is not part of this model.
- The date-picker flags of the task form, which end up inside saved tasks through `...values`, are not modelled. Nor are `formatPrettyTimestamp` and its locale formatting.
- Profile images (camera and gallery picking) are not modelled. A null image is an absent one.
- The rendering, styling and layout of every screen and component are not modelled, nor the input components. The logout button's confirmation alert is not modelled; its two effects are `Auth.ConfirmLogout`.
- `TaskCard.BorderColor` uses JavaScript numbers as unbounded integers. Timestamps beyond 2^53 are not considered.

## Findings

| source | as written | input that shows it | evidently intended | confidence | as-written member | corrected member |
|---|---|---|---|---|---|---|
| screens/HomeScreen.jsx:74 | `data={tasks.reverse()}` reverses the state array in place on every render, so `toggleComplete` and `deleteTask` then map or filter the reversed array and save it | two tasks [a, b] loaded, one render, then a toggle of b: the saved list is [b', a], in reverse order | show the list newest first without changing the state (`[...tasks].reverse()`), so the saved order stays the order of creation | not executed; medium | HomeScreen.HomeScreenState.Render, HomeScreen.ToggleAfterRenderSwapsSavedOrder | HomeScreen.HomeScreenState.VisibleTasks, HomeScreen.ToggleKeepsIdOrder |
