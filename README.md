# Taskov core, modelled in Dafny

Taskov is a task manager built as a Next.js/React app. This project models
the logic at its core and proves facts about it. Markup, the hosted backend
and browser storage are not part of the model.

- **The in-memory task store** (`TaskContext`). A `TaskStore` class holds the
  `tasks` sequence. Its five operations are add (prepend), update (merge a
  patch into the tasks with an id), toggle `completed`, delete by id, and
  clear. Each new sequence is a function of the old one: `NewTask`,
  `UpdateAll`, `ToggleAll`, `DeleteAll`.
- **The Kanban status machine** (`KanbanBoard`). A task's column is derived
  from its `completed` and `inProgress` flags. A move writes a fixed pair of
  flags per target column. The drag-end handler ignores cancelled drops and
  drops back in place.
- **Roles and permissions**:
  - `Permissions`: the capability table and the ownership check;
  - `UsePermissions`: the hook that defaults the role;
  - `RoleGuard`: the render-or-fallback component;
  - `AuthContext`: the backend-user normaliser and the authentication flags.
- **Forms and views over the task list**:
  - `Signup`: sign-up validation and the submit handler;
  - `TaskForm`: prefill and submit;
  - `ListView`: search and filters;
  - `Dashboard`: the recent and upcoming top-three lists;
  - `StatCards` and `Analytics`: the counts and chart data;
  - `CalendarPage`: date keys and the month grid;
  - `CalendarView`: month stepping, events per day and the grid built by two
    loops;
  - `Theme`: the initial theme and the toggle.

Shared helper modules follow the JavaScript semantics the app relies on:

- `Lists`: `filter`, `map`, `slice` and a stable `sort`, as JavaScript's
  `Array.prototype.sort` is.
- `Text`: `trim`, `toLowerCase`, `includes`, `startsWith`,
  `split('@')[0]`, `padStart`, `String(n)`, UTF-16 length and truthiness.
  `toLowerCase` maps every capital in U+0000–U+017F (Basic Latin, Latin-1,
  Latin Extended-A) and U+0370–U+04FF (Greek and Coptic, Cyrillic) to its
  one-character small letter, except `İ`. See "Left out" for the rest.
- `Gregorian`: the proleptic Gregorian calendar of `Date`, with months 0–11
  and weekdays 0–6 from Sunday.

Tasks carry two fields beyond the store's declared type, because the views
read them:

- `inProgress`, read by the Kanban board; an absent value reads as `false`.
- `category`, read by the list view and analytics; no form sets it.

`createdAt` is an integer timestamp. A due date stays the stored ISO text,
because the calendar matches it by prefix.

Three details of the wiring and the table are modelled as the code is written:

- The permissions hook reads `user` from the authentication context. The
  context only provides `currentUser`, so as wired every user is a viewer
  (`UsePermissions.AsWiredIsViewer`).
- The `guest` role of the authentication context has no row in the
  capability table. For a guest the hook's `permissions` is undefined, and
  its `hasPermission` throws (`UsePermissions.GuestHasNoRow`).
- The capability table is a plain object literal, so indexing it by a role
  named like an `Object.prototype` member (`"toString"`, `"constructor"`,
  `"__proto__"`, …) finds that inherited member, not `undefined`. For such a
  role `hasPermission` answers `undefined` without throwing, and `RoleGuard`
  shows the fallback (`UsePermissions.InheritedNameAnswersUndefined`,
  `RoleGuard.InheritedNameGetsFallback`).

The sign-up page calls `signUp`, which the authentication context does not
provide; it provides `signup`. As wired, that call throws
(`Signup.AsWired`). `HandleSubmit` is specified for every outcome of the
call.

The clock, the fresh id, the browser's saved theme and its dark-mode
preference are parameters. So is the parsing of a due date into a time
(`timeOf` in `Dashboard`).

## Model

| member | source | states |
|---|---|---|
| TaskContext.NewTaskTrimmed | contexts/TaskContext.tsx:66-67 | a new task's title and description are trimmed (trimming again changes nothing); the description is `""` when none was given |
| TaskContext.NewTaskDefaults | contexts/TaskContext.tsx:64-72 | a new task has the given id and time, is neither completed nor in progress, has no due date exactly when the input's is absent or empty, and has priority `medium` by default |
| TaskContext.MergeIdempotent | contexts/TaskContext.tsx:82 | spreading the same `updates` over a task twice gives the same task as once |
| TaskContext.UpdateAll | contexts/TaskContext.tsx:77-84 | same length and order; tasks with the id are merged with the patch, all others are unchanged; no task's `id` or `createdAt` changes |
| TaskContext.UpdateAllIdempotent | contexts/TaskContext.tsx:81-83 | applying the same update twice equals applying it once |
| TaskContext.ToggleAll | contexts/TaskContext.tsx:86-90 | same length; tasks with the id have `completed` flipped and nothing else changed; every other task is unchanged |
| TaskContext.ToggleTwiceRestores | contexts/TaskContext.tsx:86-90 | toggling the same id twice gives back the original list |
| TaskContext.DeleteAll | contexts/TaskContext.tsx:92-94 | a task survives exactly when it was in the list with another id, as many times as the list held it (every copy of a task with the id is gone); survivors keep their order (subsequence); the list never grows |
| TaskContext.DeleteUnknownIdKeepsList | contexts/TaskContext.tsx:93 | deleting an id no task carries leaves the list as it was |
| TaskContext.OperationsKeepIdsDistinct | contexts/TaskContext.tsx:77-94 | update, toggle and delete keep the task ids pairwise distinct |
| TaskContext.TaskStore.constructor | contexts/TaskContext.tsx:38 | the store starts empty |
| TaskContext.TaskStore.AddTask | contexts/TaskContext.tsx:62-75 | the new list is the new task followed by the old list (one longer), the task is returned, and a fresh id keeps ids distinct |
| TaskContext.TaskStore.UpdateTask | contexts/TaskContext.tsx:77-84 | the list becomes `UpdateAll` of the old one; distinct ids stay distinct |
| TaskContext.TaskStore.ToggleComplete | contexts/TaskContext.tsx:86-90 | the list becomes `ToggleAll` of the old one; distinct ids stay distinct |
| TaskContext.TaskStore.DeleteTask | contexts/TaskContext.tsx:92-94 | the list becomes `DeleteAll` of the old one; distinct ids stay distinct |
| TaskContext.TaskStore.ClearAll | contexts/TaskContext.tsx:96 | the list is empty afterwards |
| KanbanBoard.TasksByStatus | components/kanban/KanbanBoard.tsx:20-31 | a column holds exactly the tasks whose flags classify into it (completed first, then in progress, else to do), in list order |
| KanbanBoard.ColumnsPartition | components/kanban/KanbanBoard.tsx:20-31 | the three columns partition the list: their sizes add up to its length and their multisets to its multiset |
| KanbanBoard.CompletedWins | components/kanban/KanbanBoard.tsx:27 | a completed task is in the completed column and in neither other, whatever `inProgress` says |
| KanbanBoard.Columns | components/kanban/KanbanBoard.tsx:33-49 | three headers, titled "To do", "In-progress" and "Completed" in that order, each counting its column; the counts add up to the number of tasks |
| KanbanBoard.MoveSetsColumn | components/kanban/KanbanBoard.tsx:51-67 | a move writes (false,false), (false,true) or (true,false) for to do, in progress and completed; the task then classifies into the target column, never has both flags, and keeps every other field |
| KanbanBoard.MoveTaskEffect | components/kanban/KanbanBoard.tsx:51-70 | after a move, the tasks with that id sit in the target column with at most one flag set; every other task is unchanged |
| KanbanBoard.MoveIntoSameColumnIsNoop | components/kanban/KanbanBoard.tsx:78-81 | dropping into a task's current column leaves the list unchanged when its flags are not both set |
| KanbanBoard.MoveTask | components/kanban/KanbanBoard.tsx:51-70 | the flag record built case by case is handed to `updateTask`: the list becomes the update of the old list with that column's flags |
| KanbanBoard.OnDragEnd | components/kanban/KanbanBoard.tsx:72-82 | no update when there is no destination or the drop is at the source's column and index; any other drop moves the task into the destination column |
| Permissions.ParseRole | types/user.ts:1-5 | a role string maps back only to the enum member whose value it is |
| Permissions.ParseRoleValue | types/user.ts:1-5 | every enum value reads back as its own member, so the three values are distinct |
| Permissions.RoleTable | lib/permissions.ts:3-29 | admin holds all five capabilities; user holds exactly create, edit and delete; viewer holds none |
| Permissions.PermissionsNested | lib/permissions.ts:3-25 | every viewer capability is a user capability, and every user capability is an admin capability |
| Permissions.LookupRole | lib/permissions.ts:3-25 | indexing the table by a role string finds the role's row exactly for the three enum values, an inherited member exactly for the `Object.prototype` names, and `undefined` for every other string |
| Permissions.HasPermissionAt | lib/permissions.ts:27-29 | `hasPermission` at run time returns the row's flag for a table role, `undefined` for an `Object.prototype` name, and throws a `TypeError` for every other string |
| Permissions.CanUserAccessTask | lib/permissions.ts:31-34 | admin may open any task; any other role only when the task's user id equals the current user's |
| Permissions.AccessNested | lib/permissions.ts:31-34 | task access grows with the role, as the capabilities do |
| Permissions.AccessMatchesViewAll | lib/permissions.ts:31-34 | access holds exactly when the role may view all tasks or owns the task |
| UsePermissions.UserRoleOf | hooks/usePermissions.ts:7 | a present, non-empty role is kept as it is (the cast checks nothing); a missing or empty role becomes `viewer` |
| UsePermissions.UsePermissions | hooks/usePermissions.ts:5-17 | `permissions` is the table row of the defaulted role, an inherited member exactly when the role is an `Object.prototype` name, and undefined otherwise; each flag holds exactly when the role is that enum value |
| UsePermissions.HookHasPermission | hooks/usePermissions.ts:12 | the closure returns the role's flag exactly for a table role, `undefined` exactly for an `Object.prototype` name, and throws exactly when the role is neither |
| UsePermissions.HookAgreesWithRow | hooks/usePermissions.ts:11-12 | the closure's answer is the returned `permissions` row's entry; it answers `undefined` exactly when `permissions` is an inherited member, and throws exactly when `permissions` is undefined |
| UsePermissions.ExactlyOneFlag | hooks/usePermissions.ts:13-15 | exactly one of `isAdmin`, `isUser`, `isViewer` holds when the role has a row; none holds otherwise |
| UsePermissions.MissingRoleIsViewer | hooks/usePermissions.ts:7 | with no role, or an empty one, the hook is a viewer and may not create, edit or delete (nor anything else) |
| UsePermissions.AsWiredIsViewer | hooks/usePermissions.ts:6-7 | as wired (the hook reads a `user` the context does not have), every user is a viewer without any capability |
| UsePermissions.GuestHasNoRow | hooks/usePermissions.ts:11-15 | a `guest` role has no table row: `permissions` is undefined, no flag holds, and the closure throws |
| UsePermissions.InheritedNameAnswersUndefined | hooks/usePermissions.ts:11-15 | a role named like an `Object.prototype` member finds an inherited member: no flag holds, and the closure answers `undefined` without throwing |
| RoleGuard.RoleListedIff | components/RoleGuard.tsx:20 | `allowedRoles.includes(userRole)` holds exactly when the role string is the value of a listed role |
| RoleGuard.Guard | components/RoleGuard.tsx:12-29 | an unlisted role gets the fallback (so an empty list always does); a required capability that is not held, or answered `undefined`, gets the fallback, and a throwing check throws; otherwise the children render |
| RoleGuard.ChildrenIffChecksPass | components/RoleGuard.tsx:20-28 | the children render exactly when both checks pass; with neither prop they always render |
| RoleGuard.FallbackDefaultsToNothing | components/RoleGuard.tsx:16 | without a fallback, a refused render shows nothing (or throws) |
| RoleGuard.InheritedNameGetsFallback | components/RoleGuard.tsx:24-25 | a role named like an `Object.prototype` member, with a capability required, gets the fallback and does not throw |
| RoleGuard.ListedRoleShowsChildren | components/RoleGuard.tsx:20-28 | a listed role with no capability required sees the children, whatever the fallback |
| AuthContext.ProviderOf | contexts/AuthContext.tsx:80-89 | a metadata provider of google or facebook is kept, any other truthy one becomes email; without one, an anonymous user is a guest and anyone else is email |
| AuthContext.GuestOnlyWhenAnonymous | contexts/AuthContext.tsx:87-89 | only an anonymous user without a metadata provider is a guest |
| AuthContext.EmailLocalPart | contexts/AuthContext.tsx:93 | `email?.split('@')[0]` is absent exactly when the email is, and otherwise is the text before the first `@` |
| AuthContext.DisplayName | contexts/AuthContext.tsx:93 | the first non-empty of the metadata name, the full name and the email's local part, else `User`; never empty |
| AuthContext.NameFromEmailHasNoAt | contexts/AuthContext.tsx:93 | without metadata names, the display name contains no `@` |
| AuthContext.MapSupabaseUser | contexts/AuthContext.tsx:79-98 | id and provider are carried over and the display name is used; email defaults to `""`; role is the metadata role when truthy, else `user`; name and role are never empty |
| AuthContext.Flags | contexts/AuthContext.tsx:211-213 | authenticated exactly when a user is signed in; admin or guest exactly when the signed-in user's role says so |
| AuthContext.FlagsConsistent | contexts/AuthContext.tsx:211-213 | nobody is both admin and guest, and either needs a signed-in user |
| AuthContext.MappedUserFlags | contexts/AuthContext.tsx:95 | a mapped user is authenticated, is an admin exactly when the metadata role is `admin`, and without a role is neither admin nor guest |
| Signup.ValidationRules | app/Signup/page.tsx:24-46 | the form passes exactly when the name and email are not blank, the password is non-empty, both entries match and it has at least 6 UTF-16 units; otherwise the first broken rule, in source order, fixes the message |
| Signup.MismatchBeforeLength | app/Signup/page.tsx:37-44 | a mismatch is reported even for a password that is also too short |
| Signup.SixSpacesPass | app/Signup/page.tsx:33-44 | six spaces typed twice pass, since the password is not trimmed |
| Signup.SignupForm.constructor | app/Signup/page.tsx:10-16 | all fields and messages start empty and nothing is loading |
| Signup.SignupForm.ValidateForm | app/Signup/page.tsx:24-46 | returns true exactly when validation passes; on failure `error` holds the first broken rule's message; on success `error` is untouched |
| Signup.SignupForm.HandleSubmit | app/Signup/page.tsx:49-75 | both messages are cleared and validated; on failure only the error is set. After the call: acceptance sets the success message and clears all four fields; a refusal or a throw sets the error and keeps the fields; loading ends false |
| TaskForm.IsoFromDateInput | components/tasks/TaskForm.tsx:34 | the ISO text of a picked date begins with that date |
| TaskForm.DueDateOf | components/tasks/TaskForm.tsx:34 | an empty date input saves `null`; a picked date saves its ISO text |
| TaskForm.DateInputOf | components/tasks/TaskForm.tsx:19 | prefill shows the first ten characters of a stored due date, `""` without one |
| TaskForm.DateInputRoundTrip | components/tasks/TaskForm.tsx:19-41 | a picked `YYYY-MM-DD` date, saved and edited again, shows the same date |
| TaskForm.AddedTaskFromForm | components/tasks/TaskForm.tsx:37-43 | an added task has the trimmed title and description, the chosen priority, a due date exactly when one was picked, and no flag set |
| TaskForm.EditedTaskFromForm | components/tasks/TaskForm.tsx:30-36 | an edit keeps id, creation time, flags and category, and writes the trimmed title and description, the due date and the priority |
| TaskForm.TaskFormState.constructor | components/tasks/TaskForm.tsx:10-13 | the form starts empty with priority `medium` |
| TaskForm.TaskFormState.Prefill | components/tasks/TaskForm.tsx:15-22 | with a task to edit, its title, description (or `""`), ten-character date and priority (or `medium`) are copied in; otherwise nothing changes |
| TaskForm.TaskFormState.Submit | components/tasks/TaskForm.tsx:26-46 | a blank title changes nothing and does not close; otherwise exactly one of update (editing) or add (not editing) happens, and the form closes |
| ListView.FilteredTasks | app/listview/page.tsx:28-38 | a task is shown exactly when it matches all four controls, as many times as the list holds it; shown tasks keep their order, and their count never exceeds the list's (page line 160) |
| ListView.EmptySearchMatches | app/listview/page.tsx:29 | the empty search text is found in every title |
| ListView.ClearedShowsAll | app/listview/page.tsx:29-37 | with an empty search and every select on `all`, the whole list is shown in order |
| ListView.SelectsNarrow | app/listview/page.tsx:31-35 | `completed` shows only completed tasks and `pending` only open ones (any other status value shows nothing); a priority or category other than `all` shows only exact matches |
| ListView.SearchIgnoresCase | app/listview/page.tsx:29-30 | typing the search in lower case shows the same tasks |
| ListView.SearchFoldsAccents | app/listview/page.tsx:29-30 | case folding reaches beyond ASCII: searching `ä` shows a task titled `Ärger` |
| ListView.SearchFoldsCyrillic | app/listview/page.tsx:29-30 | Cyrillic capitals beyond А–Я fold too: searching `ґ` shows a task titled `Ґанок` |
| ListView.ListViewState.constructor | app/listview/page.tsx:20-23 | the controls start cleared |
| ListView.ListViewState.ClearFilters | app/listview/page.tsx:40-45 | search becomes `''` and the three selects `all`, after which every list is shown whole |
| Dashboard.RecentTasks | app/Dashboard/page.tsx:29-31 | at most three tasks (all of them when there are at most three), newest first, drawn from the list; the list is a value, so sorting its copy never reorders it |
| Dashboard.RecentAreNewest | app/Dashboard/page.tsx:29-31 | no task left out of the recent list is newer than one in it |
| Dashboard.RecentTiesInListOrder | app/Dashboard/page.tsx:29-31 | the sort is stable: for each creation time, the recent tasks created then are the first such tasks in list order |
| Dashboard.Qualifying | app/Dashboard/page.tsx:35 | the candidates are exactly the open tasks with a non-empty due date, each as many times as the list holds it, in list order (subsequence) |
| Dashboard.UpcomingTasks | app/Dashboard/page.tsx:34-37 | at most three tasks, none completed and none without a due date, sorted by due time, drawn from the candidates; all candidates appear when at most three qualify |
| Dashboard.UpcomingEarliestFirst | app/Dashboard/page.tsx:36 | the upcoming list runs from the earliest due date to the latest |
| Dashboard.UpcomingAreSoonest | app/Dashboard/page.tsx:34-37 | no candidate left out is due before one that is shown |
| Dashboard.UpcomingTiesInListOrder | app/Dashboard/page.tsx:36-37 | the sort is stable: for each due time, the upcoming tasks due then are the first such candidates in list order |
| Lists.SortByStable | app/Dashboard/page.tsx:29-30 | the comparator sort is stable: for every key, the sorted list holds the elements with that key in their original order |
| StatCards.StatsOf | components/dashboard/StatCards.tsx:8-10 | total is the list's length, completed the number of completed tasks, pending the difference; pending is the number of open tasks, so 0 ≤ pending ≤ total |
| StatCards.OpenCount | components/dashboard/StatCards.tsx:9-10 | completed and open tasks together are all the tasks |
| Analytics.SummaryOf | app/analytics/page.tsx:24-37 | completed is the number of completed tasks; pending is total minus completed and never negative; each priority and category count is its filter's size; the three priority counts and the three category counts each sum to at most the total |
| Analytics.PriorityData | app/analytics/page.tsx:57-64 | the High, Medium, Low slices in that order, a slice shown exactly when its count is positive |
| Analytics.Row | app/analytics/page.tsx:67-72 | a category's completed and pending bars add up to that category's count |
| Analytics.CategoryData | app/analytics/page.tsx:66-81 | rows Work, Personal, Study, each the completed and pending counts of its category (adding up to the category count), then Health and Other at 0/0 |
| Analytics.CategoryBarsWithinTotal | app/analytics/page.tsx:67-80 | all bars together never count more tasks than the list holds |
| CalendarPage.TasksWithDates | app/calendar/page.tsx:21 | exactly the tasks with a non-empty due date, each as many times as the list holds it, in list order |
| CalendarPage.TwoDigits | app/calendar/page.tsx:44 | a number below a hundred, padded to two digits, is two digit characters |
| CalendarPage.TwoDigitsInjective | app/calendar/page.tsx:44 | different numbers below a hundred pad to different two-digit texts |
| CalendarPage.DateKeyDigits | app/calendar/page.tsx:44 | for a month 0–11 and a day below 100, the key is the year, `-`, month+1 in two digits, `-`, the day in two digits |
| CalendarPage.TasksForDate | app/calendar/page.tsx:43-46 | exactly the dated tasks whose due date starts with the day's key, each as many times as the list holds it, as a subsequence of the dated tasks |
| CalendarPage.StartsWithOneOf | app/calendar/page.tsx:45 | a due date cannot start with two keys that differ only in an equally long tail |
| CalendarPage.DistinctDaysDisjoint | app/calendar/page.tsx:44-45 | two different days of a month never share a task |
| CalendarPage.Grid | app/calendar/page.tsx:76-82 | the first-weekday count of blanks, then the days 1 to days-in-month in order |
| CalendarPage.GridMatchesWeekdays | app/calendar/page.tsx:65-82 | the grid fits six rows of seven, and each day sits under the header of its own weekday |
| CalendarPage.PreviewOf | app/calendar/page.tsx:99-117 | a cell lists the first two titles (fewer if fewer tasks) and `+n more` with n = count − 2 exactly when there are more than two |
| Gregorian.DaysInMonth | app/calendar/page.tsx:23-25 | 28 to 31 days; February has 29 exactly in leap years; April, June, September and November have 30 |
| Gregorian.Weekday | app/calendar/page.tsx:27-29 | the weekday is 0 (Sunday) to 6; which day it is follows from the anchor and step lemmas below |
| Gregorian.EpochWasThursday | app/calendar/page.tsx:27-29 | 1 January 1970 is a Thursday (4) |
| Gregorian.NextDayWeekday | app/calendar/page.tsx:27-29 | the weekday moves on by one, modulo seven, to the next day, within a month and across month and year ends |
| Gregorian.NextMonthStart | app/calendar/page.tsx:23-25 | day 0 of the next month is the last day of this one: the next month starts days-in-month days after this one, across the year's end too |
| Gregorian.GridColumn | app/calendar/page.tsx:74-82 | after the first-weekday blanks, day d falls in the column of its own weekday |
| CalendarView.MonthStart | app/CalendarView/page.tsx:36 | `new Date(y, m, 1)` for any month number is a valid first of a month, `m` months after January of `y` |
| CalendarView.StepsWrapTheYear | app/CalendarView/page.tsx:35-41 | previous from January is 1 December of the year before; next from December is 1 January of the year after |
| CalendarView.StepsRoundTrip | app/CalendarView/page.tsx:35-41 | next after previous, and previous after next, return to the first of the same month |
| CalendarView.EventsOnDate | app/CalendarView/page.tsx:43-50 | a day's events are exactly the events on that day, month and year, each as many times as the list holds it, in list order |
| CalendarView.InitialEventDays | app/CalendarView/page.tsx:14-18 | of the initial events, only 15, 20 and 25 August 2025 have any, and one each |
| CalendarView.Layout | app/CalendarView/page.tsx:52-98 | the grid has first-weekday plus days-in-month cells |
| CalendarView.LayoutCells | app/CalendarView/page.tsx:57-96 | empty cells first, then at each later position the next day, its events and whether it is today |
| CalendarView.LayoutMatchesWeekdays | app/CalendarView/page.tsx:52-98 | the grid fits six rows of seven and each day sits in its weekday's column |
| CalendarView.AtMostOneToday | app/CalendarView/page.tsx:67-70 | at most one day cell is marked today |
| CalendarView.TodayOnlyInItsMonth | app/CalendarView/page.tsx:67-70 | no day is marked today in a month other than today's |
| CalendarView.CalendarViewState.constructor | app/CalendarView/page.tsx:13-18 | the page opens on today with the three initial events |
| CalendarView.CalendarViewState.PreviousMonth | app/CalendarView/page.tsx:35-37 | the shown date becomes the first of the previous month and stays valid |
| CalendarView.CalendarViewState.NextMonth | app/CalendarView/page.tsx:39-41 | the shown date becomes the first of the next month and stays valid |
| CalendarView.CalendarViewState.RenderCalendarDays | app/CalendarView/page.tsx:52-98 | the two loops build exactly the month's layout (the weekday and today facts are the lemmas above) |
| Theme.InitialTheme | contexts/ThemeContext.tsx:22-23 | a saved theme that is present and non-empty wins; otherwise `dark` exactly when the system prefers dark, else `light` |
| Theme.Toggled | contexts/ThemeContext.tsx:37 | the result is `dark` exactly when the theme was `light`, and is otherwise `light` |
| Theme.ToggleTwice | contexts/ThemeContext.tsx:37 | toggling twice restores `light` or `dark`; other saved text becomes `light`, then `dark` |
| Theme.KnownThemesStayKnown | contexts/ThemeContext.tsx:20-23 | when storage holds only what the app writes, the initial theme is `light` or `dark` |
| Theme.ThemeState.constructor | contexts/ThemeContext.tsx:15-16 | before mounting, the theme is `light` and the provider is not in the browser |
| Theme.ThemeState.Mount | contexts/ThemeContext.tsx:18-26 | after mounting, the provider is in the browser and the theme is the initial choice |
| Theme.ThemeState.ToggleTheme | contexts/ThemeContext.tsx:36-38 | the theme becomes the toggle of the old one; nothing else changes |

## Left out

- Browser storage and the DOM: loading and saving tasks (contexts/TaskContext.tsx:40-60), and applying and saving the theme (contexts/ThemeContext.tsx:28-34). Only the in-memory state is modelled.
- `crypto.randomUUID` and the current time: `AddTask` takes the id and the time as parameters and requires that no stored task already has that id.
- The hosted backend: sign-in, sign-up, OAuth, sign-out and the session listener of the authentication context, and the API routes. `mapSupabaseUser` takes the fields it reads as a record.
- JavaScript `Date` parsing and formatting. `createdAt` is an integer timestamp. Dashboard due dates are turned into times by the parameter `timeOf`.
- Comparisons against the clock: the overdue and this-week analytics counts, and the calendar page's today highlight (app/calendar/page.tsx:84). In the event calendar, today's date is a parameter.
- The calendar page's `navigateMonth` (app/calendar/page.tsx:31-41). `setMonth` overflows the day of the month, e.g. from 31 January into March, and that Date behaviour is not modelled.
- Floating point: the completion and weekly rates and the pie-label geometry in analytics.
- Styling: cell colours, the default event colour, and the unused `dateToCheck` in `getEventsForDate` (app/CalendarView/page.tsx:44).
- Drag-and-drop rendering. `OnDragEnd` takes the library's drop report as a value whose destination column is already one of the three ids.
- CalendarView.MonthStart: `Date` reads years 0 to 99 as 1900 to 1999. The model takes every year as given, so for those years it differs from the source.
- Gregorian.Weekday: the same two-digit year mapping is not modelled.
- Gregorian.DaysInMonth: the same two-digit year mapping is not modelled: for February of year 0 the model gives 29, where `Date` reads the year as 1900 and gives 28.
- TaskForm.IsoFromDateInput: models `new Date(d).toISOString()` for a `YYYY-MM-DD` input as that date at midnight UTC. An input `Date` cannot parse, which throws, is not modelled.
- Theme.ToggleTwice: toggling twice restores only `light` and `dark`. Any other saved text, which the cast from storage lets in, becomes `light` and then stays in the light/dark cycle.
- Dashboard.UpcomingTasks: the order is by `timeOf` of the due date, a parameter. Invalid dates, which JavaScript parses to NaN, are not modelled.
- Dashboard.RecentTasks: the order is by the integer `createdAt`, not by parsing ISO text.
- Permissions.LookupRole: an inherited member is not told apart from the others (a method, or the prototype object for `__proto__`); the model keeps only that it is not a row and that reading a capability from it gives `undefined`. `Object.prototype` is taken as the engine provides it, with nothing added by other code.
- ListView.FilteredTasks: the search's `toLowerCase` is modelled for every capital in U+0000–U+017F and U+0370–U+04FF. Capitals outside those ranges are kept as they are, for example those of Latin Extended-B and Additional, Armenian, Georgian, the full-width forms and the planes beyond the Basic Multilingual Plane. So is `İ`, which JavaScript lower-cases to two characters. The Greek final-sigma rule is not modelled: the model always lower-cases `Σ` to `σ`, never to the word-final `ς`.
- ListView.SearchIgnoresCase: holds for the lower-casing described on the line above, not for the capitals it leaves out.
- Signup.SignupForm.HandleSubmit: the awaited call is a parameter (`SignUpOutcome`). The social and admin-request buttons on the same page belong to the backend and are not modelled.
- Task lists on the list view and dashboard destructure `toggleTaskCompletion`, which the store does not provide. Those handlers are markup and are not modelled.
