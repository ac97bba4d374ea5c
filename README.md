# mini-ai-dashboard in Dafny

A model of the logic of the mini-ai-dashboard React application, with proofs
about it. The application keeps its data in the browser's `localStorage`.
The model covers:

- three storage-backed stores:
  - per-user prompt arrays and a shared chat log (`LocalStorageService`);
  - per-user notification lists, newest first (`NotificationService`);
  - a shared user registry, uid → `{ email, registrationDate, lastLogin }`
    (`UserTrackingService`);
- the admin panel's `fetchAdminData`, which scans storage, joins prompts to
  registry entries and computes the usage statistics (`AdminPanel`);
- the handlers and decision rules of the UI files:
  - the prompt form (`PromptFormComponent`);
  - the team chat of the dashboard (`DashboardChat`);
  - the sign-in and sign-up pages with their error-code tables
    (`LoginPage`, `SignupPage`);
  - the route guard (`PrivateRoute`);
  - the theme toggle (`ThemeToggleComponent`);
  - the welcome carousel (`WelcomeSlider`).

Supporting modules:

- `Browser` models `localStorage` as a class whose field is a
  `map<string, Stored>`. `Stored` is either absent, raw text that
  `JSON.parse` rejects, or one of the JSON documents the services write.
  Raw text is the falsy `""`, the theme settings `dark` and `light`, or
  malformed JSON. Other valid JSON texts are not held by the model; see
  "Left out". The module also models `document.documentElement`'s
  class list and the events and alerts raised on `window`.
- `Records` holds the stored records.
- `Auth` holds the signed-in user and how an awaited sign-in settles.
- `Text` models JavaScript's `trim`, `startsWith`, `slice`,
  `split(sep)[0]` and the decimal rendering of clock readings.
- `Sequences` models insertion-ordered sets (JavaScript's `Set`) and
  enumeration orders.
- `Wrappers` holds `Option` and `Result`.

The model's choices:

- **Clock.** Every `Date.now()` reading is an explicit natural-number
  parameter. Where the source reads the clock twice (an id and a timestamp,
  or a registration date and a last login), the model takes two readings
  with the first no later than the second.
- **Enumeration order.** The browser chooses the order of
  `localStorage.key(i)` and `Object.keys`. The model picks it
  nondeterministically with `Sequences.Enumerate`. `FetchAdminData` returns
  the chosen orders as ghost values, so its contract can name them.
- **State changes.** Each operation that changes state is a method. A
  component's handlers are methods of the class that holds its state. The
  storage services' exported functions write the global `localStorage`, so
  they are module-level methods that take the `LocalStorage` object `st`
  and modify it. A pure function describes the new state, the
  method's `ensures` ties the new state to that function, and lemmas about
  the function state what the source promises.

## Model

| member | source | states |
|---|---|---|
| Browser.StoredKeysAreKeys | src/pages/AdminPanel.jsx:32-33 | On storage with no absent values, the keys that `localStorage.key(i)` enumerates are exactly the keys whose `getItem` is not `null`. |
| LocalStorageService.PromptsKeyInjective | src/services/localStorageService.js:14 | Different uids have different prompt keys `ai_dashboard_prompts_<uid>`. |
| LocalStorageService.ParsePromptArray | src/services/localStorageService.js:18-21 | An absent or empty value reads as `[]` and a stored array as itself. The read fails with a SyntaxError exactly when the value is other text; nothing catches that error. |
| LocalStorageService.SavePromptLocal | src/services/localStorageService.js:5-16 | The returned record, or the thrown error, and the new storage are those of `SavePrompt`. |
| LocalStorageService.SaveThenGet | src/services/localStorageService.js:5-21 | After a save, reading the same uid gives the old array followed by exactly one new record. That record carries the given uid and the given text verbatim, has the clock reading as its timestamp, and has the decimal clock reading as its id. A malformed array makes the save throw and leaves storage untouched. |
| LocalStorageService.SavePromptIsolation | src/services/localStorageService.js:14 | A save writes no key other than `ai_dashboard_prompts_<uid>`, so every other user's prompts read back as before. |
| LocalStorageService.ChatRecordFields | src/services/localStorageService.js:25-29 | A caller-supplied id overrides the generated one. The timestamp is always the clock reading, whatever the caller supplied. |
| LocalStorageService.ParseChatArray | src/services/localStorageService.js:35-38 | An absent or empty chat key reads as `[]`, and a stored chat array reads as its messages. The read fails exactly on other non-array text. |
| LocalStorageService.SaveChatLocal | src/services/localStorageService.js:23-33 | The returned record and the new storage are those of `SaveChat`. |
| LocalStorageService.SaveChatThenGet | src/services/localStorageService.js:23-38 | A chat save writes only `ai_dashboard_chat`. It appends exactly the new record to the shared log, or throws and changes nothing when the log is malformed. |
| NotificationService.NotificationsKeyInjective | src/services/notificationService.js:14 | Different uids have different notification keys. |
| NotificationService.GetUserNotifications | src/services/notificationService.js:22-30 | A stored notification array reads as its notifications. An absent, empty or malformed key reads as `[]`; the read never fails. |
| NotificationService.NewNotificationFields | src/services/notificationService.js:7-12 | A new notification is unread and carries the clock reading, whatever the caller supplied for `read` and `timestamp`. A caller-supplied id overrides the generated one. |
| NotificationService.AddNotification | src/services/notificationService.js:4-20 | Returns the new record and leaves the storage `NotificationAdded` describes. |
| NotificationService.AddThenGet | src/services/notificationService.js:6-14 | The list grows by exactly one. The new record is at index 0, and the earlier entries follow in their old order. |
| NotificationService.MarkRead | src/services/notificationService.js:35-37 | The length is unchanged. Each entry whose id matches becomes read, and every other entry is unchanged in place. |
| NotificationService.MarkNotificationAsRead | src/services/notificationService.js:32-42 | The new storage is the user's list, marked, written back under the user's key. |
| NotificationService.MarkReadIdempotent | src/services/notificationService.js:35-37 | Marking the same id twice is marking it once. |
| NotificationService.MarkReadAbsentId | src/services/notificationService.js:35-37 | Marking an id that no entry carries leaves the list unchanged. |
| NotificationService.MarkReadUnreadCount | src/services/notificationService.js:35-37 | Marking reduces the unread count by exactly the number of unread entries with that id, so the count never increases. |
| NotificationService.MarkedAsReadThenGet | src/services/notificationService.js:32-38 | Seen through storage: the list reads back marked, a second call changes nothing, and an unknown id leaves the list reading as before. |
| NotificationService.NotificationIsolation | src/services/notificationService.js:14-38 | Both writers change only `ai_dashboard_notifications_<uid>`, so every other key and every other user's list is unchanged. |
| UserTrackingService.GetUserRegistry | src/services/userTrackingService.js:19-27 | A stored registry object reads as its entries. An absent, empty or malformed registry reads as `{}`; the read never fails. |
| UserTrackingService.RegisterUser | src/services/userTrackingService.js:4-17 | The new storage is the registry with `registry[uid]` set, written back (`Registered`). |
| UserTrackingService.UpdateUserLogin | src/services/userTrackingService.js:29-39 | The new storage is that of `LoginUpdated`; nothing is written for an unknown uid. |
| UserTrackingService.RegisterSetsEntry | src/services/userTrackingService.js:6-12 | After registration the registry's uids are the old ones plus `uid`. `registry[uid]` is a fresh record with the given email, replacing any earlier registration date. Other entries and other keys are unchanged. |
| UserTrackingService.RegisterOverMalformedRegistry | src/services/userTrackingService.js:6-12 | Registering over a malformed registry keeps only the new user. |
| UserTrackingService.UpdateLoginEffect | src/services/userTrackingService.js:32-35 | For an unregistered uid, no storage key changes. For a registered uid, only that entry's `lastLogin` changes: its email and registration date, the other entries and the other keys are kept. |
| UserTrackingService.RegistryOrderPreserved | src/services/userTrackingService.js:7-11 | With a monotonic clock, registration and login updates keep every entry's `registrationDate <= lastLogin`. A new registration starts that way. |
| Sequences.SetAdd | src/pages/AdminPanel.jsx:36 | `Set.prototype.add` keeps the set without repeats, and the members afterwards are the old ones plus the new one. |
| Sequences.SetFromSeq | src/pages/AdminPanel.jsx:50 | `new Set([...])` holds each element of its argument exactly once. |
| Sequences.Enumerate | src/pages/AdminPanel.jsx:32-33 | The browser's key order lists every key exactly once. |
| Text.TrimFacts | src/components/PromptForm.jsx:15 | `trim` gives the slice between a white-space prefix and a white-space suffix, with no white space at either end. The result is empty exactly when the input is all white space. |
| Text.TrimIdempotent | src/components/PromptForm.jsx:26 | Trimming twice is trimming once. |
| Text.Take | src/pages/AdminPanel.jsx:58 | `slice(0, n)` is the prefix whose length is the smaller of `n` and the length of the string. |
| Text.BeforeFirst | src/pages/Dashboard.jsx:270 | `split('@')[0]` is the prefix before the first `@`, or the whole string when there is no `@`. |
| Text.DecimalString | src/services/localStorageService.js:8 | `Date.now().toString()` is a non-empty string of decimal digits. |
| Text.DecimalStringInjective | src/services/notificationService.js:8 | Different clock readings give different generated ids. |
| AdminPanel.ScanStorage | src/pages/AdminPanel.jsx:28-44 | On storage whose keys are exactly its stored items: after the loop over every storage key, `allPrompts` is `CollectPrompts` and `userIds` is `ScannedUids` of the order the browser chose. Whatever that order, a prompt is in `allPrompts` exactly when some prefixed key whose value parses holds it. `userIds` holds each prompt-key suffix exactly once and nothing else. |
| AdminPanel.ScannedUids | src/pages/AdminPanel.jsx:34-36 | The scanned uids hold no repeats. |
| AdminPanel.AdminPanelView.constructor | src/pages/AdminPanel.jsx:8-16 | The panel starts loading, with no users, no prompts and zero statistics. |
| AdminPanel.AdminPanelView.FetchAdminData | src/pages/AdminPanel.jsx:23-86 | On storage whose keys are exactly its stored items: sets `prompts` to the prompts of every well-formed prompt key, in the browser's key order, so a prompt is shown exactly when some prefixed key whose value parses holds it. Sets `users` to one joined row per uid of the union. Sets `stats` to `Statistics` of those rows, with `totalUsers` equal to the size of the union of prompt-key uids and registry uids. Clears `loading`. |
| AdminPanel.ScannedUidsElements | src/pages/AdminPanel.jsx:32-36 | The scanned uids are exactly the suffixes of the keys that start with `ai_dashboard_prompts_`. |
| AdminPanel.TotalUsersIsUnionSize | src/pages/AdminPanel.jsx:50-74 | `totalUsers` is the size of the union of the prompt-key uids and the registry's uids. |
| AdminPanel.PromptKeyUserAlwaysCounted | src/pages/AdminPanel.jsx:34-42 | A stored prompt key's uid is always among the users, even when the key holds malformed text, because it is added before parsing. |
| AdminPanel.CollectedPromptsOrigin | src/pages/AdminPanel.jsx:32-44 | A prompt is collected if and only if some scanned prefixed key whose value parses holds it. |
| AdminPanel.CollectOrderIrrelevant | src/pages/AdminPanel.jsx:32-39 | Any two key orders collect the same multiset of prompts, so `totalPrompts` does not depend on the order. |
| AdminPanel.MalformedKeyDropsItsPrompts | src/pages/AdminPanel.jsx:37-42 | Replacing a prompt key's value with unparsable or empty text removes exactly that key's prompts from the total. |
| AdminPanel.CollectIgnoresOtherKeys | src/pages/AdminPanel.jsx:34 | Writing a key without the prefix, or one that is not scanned, leaves the collected prompts unchanged. |
| AdminPanel.StoreKeysAndScanPrefix | src/pages/AdminPanel.jsx:34-35 | `savePromptLocal`'s key for a uid is scanned, and the uid taken from it is that uid. The notification, registry and chat keys are never scanned. |
| AdminPanel.SavePreservesWellKeyed | src/services/localStorageService.js:7-14 | After a save, every prompt under a prompt key still carries that key's uid. |
| AdminPanel.PromptCountsSumToTotal | src/pages/AdminPanel.jsx:53-75 | When every stored prompt carries its key's uid, the users' `promptCount`s add up to `totalPrompts`. |
| AdminPanel.PromptsOf | src/pages/AdminPanel.jsx:53 | `filter(p => p.uid === uid)` keeps exactly the prompts with that uid, in their order and with every copy: a prompt with that uid occurs as often as in the input, any other not at all. So `promptCount` is the exact number of that user's prompts. |
| AdminPanel.MaxTimestamp | src/pages/AdminPanel.jsx:61 | `Math.max` of a non-empty list is an upper bound that some prompt attains. |
| AdminPanel.MinTimestamp | src/pages/AdminPanel.jsx:63 | `Math.min` of a non-empty list is a lower bound that some prompt attains. |
| AdminPanel.DisplayEmail | src/pages/AdminPanel.jsx:58 | The displayed email is never empty. |
| AdminPanel.UserRows | src/pages/AdminPanel.jsx:52-65 | One row per uid, in the same order, each the join of that uid. |
| AdminPanel.LastActiveIsLatestPrompt | src/pages/AdminPanel.jsx:60-61 | For a user with prompts, `lastActive` is the latest of that user's prompt times. |
| AdminPanel.LastActiveWithoutPrompts | src/pages/AdminPanel.jsx:60-62 | For a user without prompts, `lastActive` is a non-zero `lastLogin`. Failing that it is a non-zero `registrationDate`, and failing both it is the clock. |
| AdminPanel.DisplayedEmail | src/pages/AdminPanel.jsx:58 | The email shown is the registry email when it is non-empty. Otherwise it is `user-` followed by the first eight characters of the uid and `@example.com`. |
| AdminPanel.JoinDateFacts | src/pages/AdminPanel.jsx:63 | `joinDate` is a non-zero `registrationDate`. Failing that it is the earliest of the user's prompt times when that is non-zero, and the clock when it is zero. With neither a registration date nor prompts it is the invalid date (`Math.min()` is Infinity), which is never counted as new today. |
| AdminPanel.OrphanUser | src/pages/AdminPanel.jsx:58-77 | A uid with no registry entry and no prompts has `promptCount` 0, the invalid join date and the clock as `lastActive`. It counts as active and never as new today. |
| AdminPanel.CountActive | src/pages/AdminPanel.jsx:76 | `activeUsers` is at most the number of users. |
| AdminPanel.CountActiveIsFilterLength | src/pages/AdminPanel.jsx:76 | `activeUsers` is the number of row indices whose `lastActive` is after `dayAgo`. |
| AdminPanel.CountJoinedSince | src/pages/AdminPanel.jsx:77 | `newUsersToday` is at most the number of users. |
| AdminPanel.CountJoinedSinceIsFilterLength | src/pages/AdminPanel.jsx:77 | `newUsersToday` is the number of row indices whose `joinDate` is a valid date at or after midnight. |
| AdminPanel.RoundedMean | src/pages/AdminPanel.jsx:78 | `(2p+u) div (2u)` is `p/u` rounded to the nearest integer, halves upwards, as `Math.round` does. |
| AdminPanel.RoundHalfUpUnique | src/pages/AdminPanel.jsx:78 | Rounding half up has exactly one answer. |
| AdminPanel.Statistics | src/pages/AdminPanel.jsx:73-79 | `totalUsers` is the number of rows and `totalPrompts` the number of prompts. `activeUsers` is the number of rows whose `lastActive` is after one day before `now`, and `newUsersToday` the number whose join date is valid and at or after midnight; both are at most `totalUsers`. `avgPromptsPerUser` is 0 without users and otherwise the rounded mean. |
| AdminPanel.StatusAgreesWithActiveCount | src/pages/AdminPanel.jsx:378-382 | With the same clock reading, the badge reads Active exactly for the users `activeUsers` counts (`now - lastActive < 1 day` iff `lastActive > now - 1 day`). |
| AdminPanel.TwoPromptExample | src/pages/AdminPanel.jsx:52-64 | A registered user with two prompts has `promptCount` 2, the later prompt time as `lastActive`, the registration date as `joinDate` and the registry email. |
| PromptFormComponent.SubmitGuardAgreement | src/components/PromptForm.jsx:63 | A signed-in user's enabled button always saves. White-space-only input never saves and always disables the button. Other input enables it when not loading. |
| PromptFormComponent.SavedTextIsTrimmed | src/components/PromptForm.jsx:26 | The stored text has no white space at either end and is unchanged by trimming again. |
| PromptFormComponent.PromptForm.constructor | src/components/PromptForm.jsx:9-10 | The form starts empty and not loading. |
| PromptFormComponent.PromptForm.Edit | src/components/PromptForm.jsx:55 | Typing replaces the input and nothing else. |
| PromptFormComponent.PromptForm.HandleSubmit | src/components/PromptForm.jsx:13-43 | With blank input or no user, nothing changes. Otherwise exactly the trimmed text is saved under the user's uid. `loading` goes true and then false. On success the input is cleared and exactly one `promptSaved` event is dispatched. On failure the input is kept, no event is dispatched, and the alert is shown. |
| DashboardChat.SenderName | src/pages/Dashboard.jsx:270 | The sender is never empty. It is the non-empty text before the first `@` of the email, or `You`. |
| DashboardChat.SenderFallback | src/pages/Dashboard.jsx:284 | The sender is `You` exactly when there is no user or no email, the email starts with `@`, or the text before its first `@` is `You`. |
| DashboardChat.SenderOfFullEmail | src/pages/Dashboard.jsx:270 | For `local@domain` with a non-empty local part, the sender is the local part. |
| DashboardChat.SendPathsAgree | src/pages/Dashboard.jsx:267-291 | The record sent is the trimmed input: never blank, and not starting with white space. That both send paths send this same `Draft` is stated by the contracts of `OnKeyPress` and `OnSendClick`. |
| DashboardChat.ChatPanel.constructor | src/pages/Dashboard.jsx:11-12 | The chat starts with no messages and an empty input. |
| DashboardChat.ChatPanel.Edit | src/pages/Dashboard.jsx:264 | Typing replaces the input and nothing else. |
| DashboardChat.ChatPanel.Send | src/pages/Dashboard.jsx:275-276 | Exactly one record is sent, then the input is cleared once the save resolves. |
| DashboardChat.ChatPanel.OnKeyPress | src/pages/Dashboard.jsx:267-278 | Only Enter with non-blank input sends the draft; any other key changes nothing. |
| DashboardChat.ChatPanel.OnSendClick | src/pages/Dashboard.jsx:281-293 | A click with non-blank input sends the draft; with blank input (a disabled button) nothing changes. |
| DashboardChat.ChatPanel.OnSnapshot | src/pages/Dashboard.jsx:23-30 | An empty snapshot saves the three sample messages in order and leaves the displayed list untouched. Any other snapshot replaces the displayed list. |
| LoginPage.FailureDetail | src/pages/Login.jsx:47 | The detail shown is never empty, and it is `err.message` whenever that is non-empty. |
| LoginPage.LoginErrorMessage | src/pages/Login.jsx:27-48 | The mapping is total and never empty. A listed code gives its fixed message. Any other code gives `Login failed: ` plus the detail. The fallback form appears exactly for unlisted codes. |
| LoginPage.LoginMessagesDistinct | src/pages/Login.jsx:27-45 | The six listed codes give pairwise different messages. |
| LoginPage.LoginFallbackMessage | src/pages/Login.jsx:46-47 | An unlisted code gives `Login failed: ` plus the message, or `Login failed: Please try again` when the message is empty or missing. |
| LoginPage.LoginForm.constructor | src/pages/Login.jsx:12-14 | The form starts empty and without an error. |
| LoginPage.LoginForm.HandleSubmit | src/pages/Login.jsx:16-50 | On success the returned uid's `lastLogin` is stamped, then `/dashboard` is navigated to. On failure storage is unchanged, nothing is navigated to, and the error is the table's message. |
| LoginPage.LoginStampsRegistry | src/pages/Login.jsx:23 | After a successful login, a registered user's `lastLogin` is the clock reading. |
| SignupPage.SignupErrorMessage | src/pages/Signup.jsx:25-43 | The mapping is total and never empty. A listed code gives its fixed message, and any other code gives `Signup failed: ` plus the detail. |
| SignupPage.SignupMessagesDistinct | src/pages/Signup.jsx:25-40 | The five listed codes give pairwise different messages. |
| SignupPage.SignupFallbackMessage | src/pages/Signup.jsx:41-42 | An unlisted code gives `Signup failed: ` plus the message, or `Signup failed: Please try again`. |
| SignupPage.SharedCodes | src/pages/Signup.jsx:26-40 | The codes both pages list are exactly `auth/invalid-email` and `auth/network-request-failed`. |
| SignupPage.PagesAgreeOnSharedCodes | src/pages/Signup.jsx:26-40 | Those shared codes give the same message on both pages. |
| SignupPage.LoginOnlyCodesFallBack | src/pages/Signup.jsx:41-42 | The four codes only the login page lists fall to the sign-up fallback. |
| SignupPage.SignupForm.constructor | src/pages/Signup.jsx:12-14 | The form starts empty and without an error. |
| SignupPage.SignupForm.HandleSubmit | src/pages/Signup.jsx:16-45 | On success the returned uid is registered with the email as typed, then `/dashboard` is navigated to. On failure storage is unchanged and the error is the table's message. |
| SignupPage.SignupRecordsTypedEmail | src/pages/Signup.jsx:21 | After sign-up the registry holds the uid with the typed email and both clock readings. |
| PrivateRoute.Decide | src/routes/PrivateRoute.jsx:4-14 | Exactly one of three outcomes. It redirects to login iff there is no user. It redirects to the dashboard iff the route is admin-only and the email is not the admin's. It renders the children otherwise. |
| PrivateRoute.NoUserGoesToLogin | src/routes/PrivateRoute.jsx:7 | Without a user every protected route goes to `/`. |
| PrivateRoute.AdminOnlyRestricts | src/routes/PrivateRoute.jsx:9-13 | An admin-only route admits only users a plain route admits. The admin is admitted to both. |
| PrivateRoute.AdminEmailCaseSensitive | src/routes/PrivateRoute.jsx:9 | The admin address in other letter case, or a missing email, is redirected to the dashboard. |
| ThemeToggleComponent.InitialDark | src/components/ThemeToggle.jsx:8-10 | The page starts dark for a saved `dark`. With nothing saved it follows the system preference. Any other saved value means light. |
| ThemeToggleComponent.ReloadKeepsToggledTheme | src/components/ThemeToggle.jsx:26-32 | After a toggle, a reload starts in the toggled theme whatever the system prefers. |
| ThemeToggleComponent.ToggleTwiceLeavesSetting | src/components/ThemeToggle.jsx:22-33 | Two toggles restore the theme but leave an explicit setting, so the system preference no longer decides. |
| ThemeToggleComponent.ThemeToggle.constructor | src/components/ThemeToggle.jsx:4 | The toggle starts light. |
| ThemeToggleComponent.ThemeToggle.Init | src/components/ThemeToggle.jsx:6-20 | `isDark` is the initial choice. The document has the `dark` class iff `isDark`, and the other classes are kept. |
| ThemeToggleComponent.ThemeToggle.Toggle | src/components/ThemeToggle.jsx:22-33 | `isDark` flips. The stored theme is `dark` iff the new `isDark` holds, and `light` otherwise. The `dark` class is present iff `isDark`, and the other classes are kept. |
| WelcomeSlider.JsRemainder | src/components/WelcomeSlider.jsx:49 | JavaScript's `%` is the remainder left by the quotient rounded toward zero (`a == trunc(a / n) * n + r`). It takes the sign of the dividend and has magnitude below the divisor. |
| WelcomeSlider.StepsInRange | src/components/WelcomeSlider.jsx:48-54 | On an index in range, next and previous stay in range. Next wraps the last slide to the first, previous wraps the first to the last, and otherwise they add or subtract one. |
| WelcomeSlider.StepsInverse | src/components/WelcomeSlider.jsx:48-54 | Previous undoes next, and next undoes previous. |
| WelcomeSlider.AdvanceIsModular | src/components/WelcomeSlider.jsx:37-39 | `k` advances from slide `i` land on `(i + k) mod 3`. |
| WelcomeSlider.ThreeAdvancesReturn | src/components/WelcomeSlider.jsx:6-38 | With the three slides, three advances return to the start. |
| WelcomeSlider.Slider.constructor | src/components/WelcomeSlider.jsx:4 | The carousel starts on the first slide. |
| WelcomeSlider.Slider.GoToSlide | src/components/WelcomeSlider.jsx:44-46 | `goToSlide(k)` sets the index to exactly `k`, and the counter shows `k + 1` of 3. |
| WelcomeSlider.Slider.NextSlide | src/components/WelcomeSlider.jsx:48-50 | The index becomes `(i + 1) % 3` and stays in range. |
| WelcomeSlider.Slider.PrevSlide | src/components/WelcomeSlider.jsx:52-54 | The index becomes `(i - 1 + 3) % 3` and stays in range. |
| WelcomeSlider.Slider.TimerTick | src/components/WelcomeSlider.jsx:37-39 | The timer tick takes the same step as `nextSlide`. |

## Left out

- The Firestore services (`firestoreService.js`, `chatService.js`, `userService.js`) are not part of this model. The chat's `saveMessage` is the `sent` record of `ChatPanel`, and `listenToMessages` delivers its snapshots to `OnSnapshot`. Whether an awaited `saveMessage` resolved is the `saved` parameter of `Send`.
- Timers and polling are modelled as single steps: the slider's 5-second interval is `TimerTick`. The admin panel's 10-second refresh and its second fetch on mount are repeated calls of `FetchAdminData`.
- Concurrent tabs writing `localStorage` are not modelled; each operation is taken as atomic.
- `setMockData` and the catch branch of `fetchAdminData` (src/pages/AdminPanel.jsx:87-91) are left out. Over the stored values the model holds, nothing in that try block throws: each parse has its own try, and the registry read catches its own errors.
- Valid JSON texts other than the documents the services write are not held by `Browser.Stored`. These are `null`, numbers, strings, other objects, and arrays of other values. The source behaves as follows on them:
  - The registry key holding `null`: `getUserRegistry` returns `null`. `Object.keys(null)` then throws at src/pages/AdminPanel.jsx:50, so the admin panel falls into `setMockData`. In `registerUser` the assignment `registry[uid] = …` (src/services/userTrackingService.js:7), and in `updateUserLogin` the read `registry[uid]` (src/services/userTrackingService.js:32), throw a `TypeError` on `null`, which their own catches swallow.
  - A notification key holding `null`: `unshift` in `addNotification` and `map` in `markNotificationAsRead` throw, and their catches swallow it.
  - A prompt key holding `null`: `push` in `savePromptLocal` throws uncaught, so the prompt form shows its failure alert. In the admin scan, `push(...null)` throws inside the inner try, so the key adds nothing but its uid.
  - A prompt key holding a number or a non-array object: the spread at src/pages/AdminPanel.jsx:39 throws and is caught, so the key adds nothing but its uid.
  - A prompt key holding a JSON string: the spread adds its characters to `allPrompts`.
  - A prompt array holding `null`: `p.uid` at src/pages/AdminPanel.jsx:53 throws, so the panel falls into `setMockData`.
  - The text `[]` is a valid JSON array. The model holds it as an empty prompt array.
- JSON encoding and decoding are not modelled. Storage holds typed documents or raw text. A stored document of a different shape than its reader expects reads as malformed here, whereas `JSON.parse` would hand back whatever that document is.
- `Date` objects, `toLocaleDateString`, `toLocaleTimeString` and the computation of local midnight are parameters (`now`, `midnight`, the chat's `time` text). `window.matchMedia` is the `prefersDark` parameter.
- AdminPanel.AdminPanelView.FetchAdminData: one clock reading `now` stands for the `Date.now()` fallbacks of lines 62-63 and the reading of line 68, which are separate readings in the source.
- AdminPanel.JoinDate: a `Date` whose time value is outside JavaScript's range (more than 8.64e15 ms from the epoch) is not modelled as invalid; only `new Date(Infinity)` is.
- AdminPanel.LastActive: a prompt timestamp outside JavaScript's `Date` range makes `new Date(Math.max(…))` at src/pages/AdminPanel.jsx:61 an Invalid Date; the model keeps the number.
- AdminPanel.IsActive: for such an Invalid Date the source's test at src/pages/AdminPanel.jsx:76 compares `NaN` and is false; the model compares the number and can count the user as active.
- AdminPanel.StatusLabel: for such an Invalid Date the badge at src/pages/AdminPanel.jsx:382 reads "Inactive"; the model can read "Active".
- Text.Take: counts Dafny characters, whereas `slice(0, 8)` at src/pages/AdminPanel.jsx:58 counts UTF-16 code units; a uid with characters outside the Basic Multilingual Plane is cut differently.
- AdminPanel.RoundedMean: computes `Math.round(p / u)` exactly in integers; the rounding error of the floating-point division is not modelled.
- AdminPanel.AdminPanelView.constructor: the source leaves `avgPromptsPerUser` undefined until the first fetch; the model starts it at 0.
- A uid that is also the name of a property of `Object.prototype` (such as `constructor`) is treated as unregistered, as a map would, and not as JavaScript's object lookup would.
- SignupPage.SignupErrorMessage: does not state, as `LoginPage.LoginErrorMessage` does, that a listed code never yields the fallback's `Signup failed: ` form; the proof that the listed messages differ rests on their lengths alone.
- Errors thrown by `localStorage.setItem` (a full quota) are not modelled. Every write succeeds, so the try/catch blocks of `addNotification`, `markNotificationAsRead`, `registerUser` and `updateUserLogin` never reach their catch branches.
- `console.log` and `console.error` calls have no effect in the model.
- All JSX and styling are left out, and so are the dashboard's fixed statistics cards, `Header.jsx`, `NotificationBell.jsx`, `PromptList.jsx`, `App.jsx` and the `ui/` components.
- WelcomeSlider.Slider.GoToSlide: accepts any integer, as the source does; only the dots call it, each with its own index.
