# Campus attendance portal — verified model of its client-side logic

This project models the logic inside the event handlers of a campus attendance portal's React client. Students mark attendance by scanning a QR code that a teacher's live session shows. Teachers start and end sessions, approve or reject students' requests, and manage their timetable.

The model covers three screens:

- **The student dashboard** (`src/StudentDashboard.jsx`), modules `StudentDashboard`, `StudentViews`, `ScanGuard`, `Toasts` and `GeoMark`. It covers:
  - the scan gate of the "Mark attendance" modal: a set of used tokens, an in-flight flag, and whether the scanner is shown;
  - the mark request and its outcome;
  - the toast stack;
  - the weekly timetable with its per-section cache in browser storage;
  - "mark all read";
  - the correction and self-study submissions;
  - the choice of the class running now.
- **The standalone scan screen** (`src/ScanAttendance.jsx`), module `ScanAttendance`. It has a second, different copy of the gate, with an in-flight flag only, and a status line.
- **The teacher dashboard** (`src/TeacherDashboard.jsx`), modules `TeacherDashboard` and `TeacherViews`. It covers:
  - the session lifecycle: start, live-list refresh, CSV export, end;
  - decisions on self-study claims and attendance requests;
  - creating timetable slots and handling conflicts;
  - the sorted slot table;
  - the avatar initials.

How the model is shaped:

- Each component's state is a Dafny `class` whose fields are the React state. Each handler is a method.
- An awaited request, the geolocation lookup and the timer become parameters:
  - a request's result is `Outcome<T>`: `Done(value)` or `Failed(failure)`;
  - a failure is a transport error (with `err.message`) or a rejected request (HTTP status, the reply's `error` text, an optional conflict list, and `err.message`);
  - the geolocation result is `Geo`: the API is absent, the lookup failed, or a fix `(lat, lng)`.
- The student scan handler is split at its first `await`:
  - `OnScan` runs the gate and records the token;
  - `SettleScan` applies the outcome.
  - Because of this split, a scanner callback that arrives while a submission is in flight is an event of its own.
- The list and value transformations are pure functions in the `*Views` modules. The gates are also stated as pure step functions (`ScanGuard.Step`/`Run`, `ScanAttendance.ScreenStep`/`ScreenRun`). Each class method's `ensures` ties its new state to these functions.
- JavaScript's "missing" values (`undefined`, `null`, `""`) are modelled as `""` or `None`. `a || b || c` on strings is `Common.FirstNonEmpty`.

## Model

| member | source | states |
|---|---|---|
| Common.FirstNonEmpty | src/StudentDashboard.jsx:1010-1013 | `a \|\| b \|\| fallback` on strings is the first non-empty candidate, or the fallback when all are empty. It is never empty when the fallback is not. |
| Common.ErrorText | src/ScanAttendance.jsx:56-58 | The error text after a failure is the server's `error`, else `err.message`, else the fallback. |
| Common.ServerErrorOr | src/StudentDashboard.jsx:605-607 | The error text of the handlers that ignore `err.message` is the server's `error`, else the fallback. |
| Common.Find | src/StudentDashboard.jsx:929-931 | `Array.find` returns nothing exactly when no element matches. Otherwise it returns the element at the first matching index, and whenever index `i` is the first match it returns that element. |
| Common.Less | src/StudentDashboard.jsx:153 | JavaScript's `<` on strings holds exactly when, after a common prefix, the left string ends while the right goes on or its next character is smaller (the textbook lexicographic order). `<=` is its negation with the sides swapped. |
| Common.LessTrichotomy | src/TeacherDashboard.jsx:1402-1409 | JavaScript's `<` on strings is a strict total order: exactly one of `a < b`, `a == b`, `b < a` holds. |
| Common.LessTransitive | src/TeacherDashboard.jsx:1402-1409 | `<` on strings is transitive. |
| Common.LessIrreflexive | src/TeacherDashboard.jsx:1402-1409 | No string is `<` itself. |
| Common.Without | src/TeacherDashboard.jsx:884-886 | `filter(x => key(x) !== k)` leaves no entry with key `k`. It only keeps entries of the input, and never grows the list. |
| Common.WithoutCommutes | src/TeacherDashboard.jsx:1079-1084 | Two removals by key give the same list in either order. |
| Toasts.Push | src/StudentDashboard.jsx:63-65 | `pushToast` appends exactly one toast at the end, with the given id, title and message. Its type defaults to `info`. The earlier toasts stay, in order. |
| Toasts.Remove | src/StudentDashboard.jsx:259-263 | Dismissal leaves no toast with that id. Every remaining toast was there before. |
| Toasts.RemoveAbsent | src/StudentDashboard.jsx:66-68 | Removing an id that no toast carries changes nothing. |
| Toasts.RemoveOne | src/StudentDashboard.jsx:259-263 | With unique ids, removal cuts out exactly the toast with that id and keeps the others in order. |
| Toasts.RemoveKeepsOthers | src/StudentDashboard.jsx:259-263 | Every toast with another id survives removal. |
| Toasts.RemoveTwice | src/StudentDashboard.jsx:66-68 | A dismissal followed by the same toast's expiry equals one removal. |
| Toasts.PushThenRemove | src/StudentDashboard.jsx:63-69 | Pushing a toast with a fresh id and letting it expire restores the stack. |
| Toasts.RemoveKeepsUnique | src/StudentDashboard.jsx:259-263 | Removal preserves unique toast ids. |
| GeoMark.DashboardBody | src/StudentDashboard.jsx:949-984 | The modal's mark body always carries `studentId` and `sessionCode`. It carries both coordinates exactly when a fix was obtained, and neither otherwise. |
| GeoMark.ScreenRequest | src/ScanAttendance.jsx:17-51 | The scan screen sends no request when the device has no geolocation API. Otherwise it sends the same body as the modal. |
| ScanGuard.Check | src/StudentDashboard.jsx:907-919 | A scan is accepted if and only if it has results, nothing is in flight, the raw value is non-empty and the raw value is not in the used set. The checks run in that order, and the accepted token is the raw value. |
| ScanGuard.Step | src/StudentDashboard.jsx:885-1071 | A scan submits if and only if the scanner is shown and `Check` accepts; the token is then added to the set and the flag set, and a dropped scan changes nothing. A settle, a close or a scanner error clears the flag and stops the scanner, keeping the set. "Start QR scan" empties the set, clears the flag and shows the scanner. |
| ScanGuard.AtMostOncePerSession | src/StudentDashboard.jsx:906-1022 | Within a scanning session (no "Start QR scan" in between), each token is submitted at most once. No token used before is submitted, and every submitted token stays recorded. |
| ScanGuard.StepKeepsConsistent | src/StudentDashboard.jsx:885-1071 | Every event keeps the gate consistent: the used set is empty whenever the scanner is shown with nothing in flight. |
| ScanGuard.RunKeepsConsistent | src/StudentDashboard.jsx:885-1071 | Any run of events from a consistent gate ends consistent. |
| ScanGuard.NeverDroppedAsUsed | src/StudentDashboard.jsx:916-918 | In a consistent gate with the scanner shown, no scan is dropped because its token was used: with one event at a time the set only matters for overlapping callbacks. |
| ScanGuard.RepeatedScanSubmitsOnce | src/StudentDashboard.jsx:906-920 | After "Start QR scan", the same code reported twice while its attempt is in flight is submitted once. |
| ScanGuard.RescanInNewSessionSubmitsAgain | src/StudentDashboard.jsx:1003-1021 | After the attempt settles (which stops the scanner) and "Start QR scan" is pressed again, the same code is submitted a second time. |
| ScanGuard.RestartAcceptsAnyToken | src/StudentDashboard.jsx:1066-1071 | "Start QR scan" empties the set, clears the flag and shows the scanner, so any non-empty token is accepted. |
| ScanGuard.CloseStopsScanner | src/StudentDashboard.jsx:887-891 | Closing the modal clears the flag and stops the scanner but keeps the set; no scan is taken afterwards until a restart. |
| StudentViews.BandClass | src/StudentDashboard.jsx:58-61 | The band is red below 75, green from 75 up, and none without a percentage. |
| StudentViews.UnreadIds | src/StudentDashboard.jsx:1249-1251 | The ids sent are exactly the ids of the unread notifications, one per unread notification, so the list's length is the unread count. |
| StudentViews.UnreadIdsConcat | src/StudentDashboard.jsx:1249-1251 | The ids are collected notification by notification, in list order: the ids of two lists joined are the ids of each, joined. |
| StudentViews.UnreadIdsSingle | src/StudentDashboard.jsx:1249-1251 | One notification contributes its id exactly once when unread and nothing when read; with the previous lemma this pins the whole list, order and repeats included. |
| StudentViews.MarkRead | src/StudentDashboard.jsx:1263-1269 | Keeps the list's length and order. A notification is read afterwards exactly when it was read or its id was sent, and no other field changes. |
| StudentViews.MarkAllReadEffect | src/StudentDashboard.jsx:1262-1268 | After the update every notification is read. Notifications that were already read are unchanged, and only `isRead` changes on the others. |
| StudentViews.NothingUnreadSendsNothing | src/StudentDashboard.jsx:1252 | The id list is empty if and only if every notification is read. |
| StudentViews.Badge | src/StudentDashboard.jsx:299-302 | The badge is hidden with nothing unread. It shows "9+" if and only if more than 9 are unread, and otherwise the count as one digit. |
| StudentViews.TypeLabel | src/StudentDashboard.jsx:584-589 | The label is Medical, Event or General, each exactly for its type. |
| StudentViews.PickSubject | src/StudentDashboard.jsx:558-562 | The subject is the one at the first index with the form's code, else the first subject. It is none only when there are no subjects. |
| StudentViews.CorrectionRequest | src/StudentDashboard.jsx:564-571 | The body carries the form's type and notes, and the date (absent when empty) as both ends of the range. It has a subject id exactly when there are subjects, and that id is the picked subject's. |
| StudentViews.CorrectionEntry | src/StudentDashboard.jsx:581-594 | The prepended entry takes its id, type and notes from the reply, its date from the form, its type label from the type and its subject code from the picked subject. Its status defaults to "Pending". |
| StudentViews.SelfStudyRequest | src/StudentDashboard.jsx:724-745 | No request is sent if and only if the subject or the date is empty. Otherwise the body is the form's fields. |
| StudentViews.SelfStudyEntry | src/StudentDashboard.jsx:751-764 | The prepended entry takes its fields from the form and the reply. Its status defaults to "pending". |
| StudentViews.StatusDefaultsDiffer | src/StudentDashboard.jsx:593 | A reply without a status shows as "Pending" in the correction list but "pending" in the self-study list. |
| StudentViews.RunningClass | src/StudentDashboard.jsx:149-160 | The current class is the first of today's classes with `start <= now <= end` (string comparison). It is none only when no class runs. |
| StudentViews.ScanSubject | src/StudentDashboard.jsx:925-927 | A scan is recorded for the running class's subject when there is one, else for the chosen subject. |
| StudentViews.ScanLabel | src/StudentDashboard.jsx:929-932 | The success label is the name of the first subject with the code, or the code when there is no match or that name is empty. |
| StudentViews.CacheKey | src/StudentDashboard.jsx:91 | The cache key is the fixed prefix followed by the section, so it starts with the prefix and the section can be read back from it. |
| StudentViews.FetchTimetable | src/StudentDashboard.jsx:87-125 | On success the data is shown and stored under the section's key, with no toast. On failure the storage is unchanged, and the cached copy is shown with an info toast, or nothing is shown with an error toast. |
| StudentViews.FallbackShowsLastGoodCopy | src/StudentDashboard.jsx:103-113 | After a successful fetch, a failed one shows the same timetable with an informational toast. |
| StudentViews.OtherSectionsUntouched | src/StudentDashboard.jsx:91-102 | A fetch never adds, changes or removes another section's cached copy. |
| StudentDashboard.SettleFailure | src/StudentDashboard.jsx:986-1005 | A submission fails if and only if the mark request or the overview refetch fails. A mark failure is reported first; after a successful mark, the refetch's failure is the one reported. |
| StudentDashboard.Dashboard.constructor | src/StudentDashboard.jsx:137-160 | After the initial load the pickers start on the first subject, and the running class, if any, becomes the current class and the subject to mark. |
| StudentDashboard.Dashboard.PushToast | src/StudentDashboard.jsx:63-69 | Appends one toast with a fresh id and keeps the ids unique. |
| StudentDashboard.Dashboard.DismissToast | src/StudentDashboard.jsx:259-263 | Removes the toast with that id and keeps the ids unique. |
| StudentDashboard.Dashboard.ExpireToast | src/StudentDashboard.jsx:66-68 | The timer removes the toast with that id and keeps the ids unique. |
| StudentDashboard.Dashboard.OpenMark | src/StudentDashboard.jsx:334-339 | The "Mark Attendance" quick action opens the modal. |
| StudentDashboard.Dashboard.StartScan | src/StudentDashboard.jsx:1066-1072 | Only available in the open modal while not scanning (the button is disabled then). Scanning starts with an empty used set and no attempt in flight, as `ScanGuard.Step` says, and the gate stays consistent. |
| StudentDashboard.Dashboard.CloseMark | src/StudentDashboard.jsx:887-891 | The modal closes and scanning stops. The flag is cleared and the used set is kept. |
| StudentDashboard.Dashboard.OnScan | src/StudentDashboard.jsx:904-932 | Only called while scanning, since the scanner is rendered only then. The gate's new state and the submitted token are those of `ScanGuard.Step`, and a non-empty first value with nothing in flight is always submitted. The label comes from the running class or the chosen subject. |
| StudentDashboard.Dashboard.SettleScan | src/StudentDashboard.jsx:934-1022 | The body follows `DashboardBody`. The flag ends false on every path. Success replaces the overview, sets the banner, pushes a success toast and closes scanner and modal. Failure pushes the error text as a toast and stops only the scanner. |
| StudentDashboard.Dashboard.OnScannerError | src/StudentDashboard.jsx:1024-1033 | Pushes the scanner-error toast, stops scanning and clears the flag. |
| StudentDashboard.Dashboard.FetchWeeklyTimetable | src/StudentDashboard.jsx:87-125 | Does nothing without a section. Otherwise the shown timetable, storage and toasts follow `FetchTimetable`, and loading ends false. |
| StudentDashboard.Dashboard.MarkAllRead | src/StudentDashboard.jsx:1247-1278 | Sends exactly the unread ids, and nothing when there are none. Only a success marks them read, after which the bell's badge is hidden. The panel closes on every path. |
| StudentDashboard.Dashboard.BellBadge | src/StudentDashboard.jsx:239-302 | The bell's badge is hidden exactly when every notification is read. It is "9+" exactly when more than nine notifications are unread, and otherwise the unread count as one digit. |
| StudentDashboard.Dashboard.SubmitCorrection | src/StudentDashboard.jsx:555-621 | Success prepends one mapped entry and pushes a success toast. Failure pushes an error toast. The modal closes and the form resets on both paths. |
| StudentDashboard.Dashboard.SubmitSelfStudy | src/StudentDashboard.jsx:721-790 | A missing subject or date only pushes an error toast. Success prepends one entry, clears the form except the subject and closes the modal. Failure only pushes an error toast. |
| ScanAttendance.ScreenStep | src/ScanAttendance.jsx:62-71 | A scan submits if and only if it has results and nothing is in flight, and then sets the flag. An empty raw value is submitted too. A dropped scan leaves the flag as it was. A settle or a scanner error clears the flag. |
| ScanAttendance.EveryRoundSubmitted | src/ScanAttendance.jsx:62-71 | Without a used set, every scan made after the previous attempt settled is submitted, repeated tokens included. |
| ScanAttendance.BusyDropsScans | src/ScanAttendance.jsx:63-64 | While an attempt is in flight, every scanner callback is dropped. |
| ScanAttendance.FinalStatus | src/ScanAttendance.jsx:14-60 | The status ends "Attendance marked." when no geolocation API exists (nothing was sent) or the request succeeded. Otherwise it ends with the error text. |
| ScanAttendance.Screen.constructor | src/ScanAttendance.jsx:8-9 | The screen starts with an empty status and nothing in flight. |
| ScanAttendance.Screen.HandleScan | src/ScanAttendance.jsx:62-67 | The flag and the code to mark are those of `ScreenStep`. The status reads "Getting your location..." once an attempt starts. |
| ScanAttendance.Screen.FinishMark | src/ScanAttendance.jsx:14-60 | The request follows `ScreenRequest` and the status follows `FinalStatus`. The flag ends false. |
| ScanAttendance.Screen.OnScannerError | src/ScanAttendance.jsx:78-82 | The status reads "Scanner error." and the flag is cleared. |
| TeacherViews.Selection | src/TeacherDashboard.jsx:600-606 | A session can start if and only if both a today-slot with the chosen id and a subject with the chosen code exist. The chosen slot and subject are the first such in their lists. |
| TeacherViews.SubjectKey | src/TeacherDashboard.jsx:633 | The subject is sent by `id`, else by `_id`. |
| TeacherViews.StartRequest | src/TeacherDashboard.jsx:609-637 | The body carries the subject key and the slot's section and room. It carries both coordinates exactly when a fix was obtained. |
| TeacherViews.NewSession | src/TeacherDashboard.jsx:643-654 | The session takes code and name from the subject and times and room from the slot. Its QR token is the returned session code, its roster is empty and its capacity is 60. The count is the reply's roster length, or 0. |
| TeacherViews.Refreshed | src/TeacherDashboard.jsx:490-494 | A refresh sets the count and the roster from the reply. Every other field is unchanged. |
| TeacherViews.RefreshesKeepIdentity | src/TeacherDashboard.jsx:482-503 | Any number of refreshes keep the session's identity fields. The result is that of the last refresh alone. |
| TeacherViews.RequestKey | src/TeacherDashboard.jsx:1079-1084 | An attendance request is keyed by `_id`, else by `id`. |
| TeacherViews.AfterCorrectionDecision | src/TeacherDashboard.jsx:1079-1084 | A decided request's key leaves the list. Every request with another key stays, as often as it was there. |
| TeacherViews.AfterSelfStudyDecision | src/TeacherDashboard.jsx:884-886 | A decided claim's id leaves the list. Every claim with another id stays, as often as it was there. |
| TeacherViews.DecisionCutsOne | src/TeacherDashboard.jsx:1115-1120 | With unique keys, deciding a request removes exactly that request and keeps the rest in order. |
| TeacherViews.DecisionsCommute | src/TeacherDashboard.jsx:915-917 | Decisions on two claims leave the same list in either order. |
| TeacherViews.SelfStudyDecisionToast | src/TeacherDashboard.jsx:873-930 | Gives the banner for each outcome (approve or reject, success or failure) of a self-study decision. A claim without a student names "undefined". |
| TeacherViews.CorrectionDecisionToast | src/TeacherDashboard.jsx:1068-1135 | Gives the banner for each outcome of an attendance-request decision. A request without a student names "undefined". |
| TeacherViews.SlotRequest | src/TeacherDashboard.jsx:1181-1203 | No request is sent if and only if the subject, section, start or end is empty. The room is optional. |
| TeacherViews.ClearedSlotForm | src/TeacherDashboard.jsx:1210-1216 | After a created slot the form keeps subject and day and empties the rest, so it cannot be resubmitted unchanged. |
| TeacherViews.SlotConflicts | src/TeacherDashboard.jsx:1219-1223 | A failure reports conflicts if and only if it is a 409 whose reply carries a list (even an empty one). That list is the one shown. |
| TeacherViews.SlotCompare | src/TeacherDashboard.jsx:1404-1409 | The table's comparator never reports a tie: two slots with the same day and start time compare as 1. |
| TeacherViews.SlotBefore | src/TeacherDashboard.jsx:1404-1409 | A slot sorts before another exactly when the comparator returns a negative number: an earlier day, or the same day and an earlier start time. |
| TeacherViews.SlotTotal | src/TeacherDashboard.jsx:1402-1409 | Any two slots are ordered one way or the other by (day, start time). |
| TeacherViews.SlotAtMostTransitive | src/TeacherDashboard.jsx:1402-1409 | The (day, start time) order is transitive. |
| TeacherViews.Insert | src/TeacherDashboard.jsx:1402-1409 | Inserting a slot adds exactly that slot to the multiset of slots. |
| TeacherViews.InsertSorted | src/TeacherDashboard.jsx:1402-1409 | Inserting into a sorted list keeps it sorted. |
| TeacherViews.SortForTable | src/TeacherDashboard.jsx:1402-1409 | The table's rows are a permutation of the stored slots. |
| TeacherViews.SlotTableSorted | src/TeacherDashboard.jsx:1402-1409 | The table's rows are ordered by day, then start time. |
| TeacherViews.Split | src/TeacherDashboard.jsx:254-256 | `split(" ")` yields at least one piece and no piece contains a space. |
| TeacherViews.SplitJoin | src/TeacherDashboard.jsx:254-256 | Joining the pieces with spaces gives back the name. |
| TeacherViews.SplitWord | src/TeacherDashboard.jsx:254-256 | A space-free word followed by a space is the first piece. |
| TeacherViews.SplitSingle | src/TeacherDashboard.jsx:254-256 | A name without spaces is a single piece. |
| TeacherViews.Heads | src/TeacherDashboard.jsx:255-256 | Taking the first character of each piece gives at most one character per piece. |
| TeacherViews.HeadsAreWordStarts | src/TeacherDashboard.jsx:254-258 | The first characters of the non-empty pieces are exactly the name's word-initial characters, in order. |
| TeacherViews.Upper | src/TeacherDashboard.jsx:258 | Upper-casing maps each ASCII lower-case letter to its capital and leaves every other character unchanged, so no lower-case ASCII letter remains. |
| TeacherViews.UpperAll | src/TeacherDashboard.jsx:258 | Upper-casing a string keeps its length and upper-cases each character in place. |
| TeacherViews.Initials | src/TeacherDashboard.jsx:254-259 | The initials have at most 2 characters and no lower-case ASCII letter. |
| TeacherViews.InitialsAreWordStarts | src/TeacherDashboard.jsx:254-259 | The initials are the upper-cased starts of the first two words. The first initial is the name's first character when that is not a space. |
| TeacherViews.TwoWordInitials | src/TeacherDashboard.jsx:254-259 | A first and a last name give their two upper-cased first letters. |
| TeacherDashboard.Dashboard.constructor | src/TeacherDashboard.jsx:12-52 | The dashboard starts with an empty banner, no live session, empty forms and no conflicts. |
| TeacherDashboard.Dashboard.StartSession | src/TeacherDashboard.jsx:598-663 | Nothing happens unless the slot and subject exist. Otherwise the body follows `StartRequest`. Success makes `NewSession` live, closes the modal and empties the form. Failure only sets the banner. |
| TeacherDashboard.Dashboard.RefreshLiveList | src/TeacherDashboard.jsx:482-503 | Success overwrites only the count and the roster. Failure keeps the session and sets the banner. |
| TeacherDashboard.Dashboard.ExportRoster | src/TeacherDashboard.jsx:510-515 | The export names the live session and changes no state. |
| TeacherDashboard.Dashboard.EndSession | src/TeacherDashboard.jsx:520-525 | The live session is cleared and the banner reads "Session ended.". No request is involved. |
| TeacherDashboard.Dashboard.DecideSelfStudy | src/TeacherDashboard.jsx:873-930 | Success removes the claim by id. Failure keeps the list. The banner matches the outcome. |
| TeacherDashboard.Dashboard.DecideAttendanceRequest | src/TeacherDashboard.jsx:1068-1135 | Success removes the request by `_id \|\| id`. Failure keeps the list. The banner matches the outcome. |
| TeacherDashboard.Dashboard.CreateSlot | src/TeacherDashboard.jsx:1179-1231 | Conflicts are cleared first and missing fields send nothing. A created slot is appended and the form cleared. A 409 with a list shows exactly that list. Any other failure shows the server's error or the generic text. |
| TeacherDashboard.Dashboard.SlotTable | src/TeacherDashboard.jsx:1402-1409 | The table is a sorted permutation of the stored slots, and the stored list is not reordered. |

## Left out

- Network calls (axios), URLs, `Authorization` headers and the server itself. Each awaited request is an `Outcome` parameter, and server-computed payloads (overview, percentages) are opaque values.
- The geolocation API and its 8-second timeout. The lookup's result is the `Geo` parameter.
- Timers. The 5-second toast expiry is the explicit `ExpireToast(id)` event.
- Toast ids from `Date.now() + Math.random()`. A counter hands out ids, so ids are assumed unique.
- Concurrency. React state read from a stale closure means truly overlapping scanner callbacks are not reliably gated, and a handler may settle after its modal closed. Events are modelled as sequential.
- `ScanGuard.NeverDroppedAsUsed`: because events are sequential, the used-token set never rejects a scan in this model. The set only matters for callbacks that overlap a submission, which the model does not capture.
- `TeacherDashboard.Dashboard.RefreshLiveList`: requires a live session, because the button is rendered only while there is one. A refresh that settles after "End session" is not modelled.
- `ScanAttendance.Screen.HandleScan`: the intermediate status "Getting your location..." is modelled. The time during which it is shown is not.
- `StudentDashboard.Dashboard.SettleScan`: a successful mark whose overview refetch fails is reported like a failed mark. This is what the source's single `try` does, not a weakening.
- `TeacherViews.Upper`: upper-cases ASCII letters only. JavaScript's `toUpperCase` maps all of Unicode and can change a string's length.
- `Common.Less`: compares characters by code point. JavaScript compares UTF-16 code units, which differs only outside the Basic Multilingual Plane.
- `TeacherViews.Heads`: takes a piece's first character as a code point. JavaScript's `p[0]` takes the first UTF-16 code unit, so a name word starting outside the Basic Multilingual Plane gives half a surrogate pair there; `TeacherViews.Initials` inherits this.
- `TeacherViews.SortForTable`: the JavaScript comparator returns 1 for slots with equal day and start time, so the engine fixes their relative order. The model proves sortedness and permutation only, not a particular order of ties.
- Ids compared with `String(...)` are modelled as strings from the start.
- The mapping of the correction list loaded at start-up (`src/StudentDashboard.jsx:170-187`): it formats dates with `toISOString`, and date formatting is not modelled.
- Loading the teacher's lists (requests, self-study claims, slots, notifications, at-risk data, class view). They become constructor arguments.
- `src/App.jsx`: login, storage of the session and role-based routing.
- JSX rendering, CSS classes, the QR image URL, `window.open`, `toFixed` and date formatting.
- `JSON.stringify`/`JSON.parse` of the cache. The cache is a `map` from key to timetable.
