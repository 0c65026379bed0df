# Sylly course store and form handlers, modelled in Dafny

Sylly is a single-page web front-end for tracking course syllabi. Almost all of
it is presentation. This project models the parts that hold or transform data:

- the **course store** (`CourseProvider`): an ordered list of courses
  `{id, code, name, pdf?}`. `addCourse` appends to it and `deleteCourse`
  removes every entry with a given id (module `CourseContext`, class
  `CourseProvider`);
- the dashboard's **Add Course form** and its quick-action buttons (module
  `DashboardPage`, class `Dashboard`). The form is the only caller of
  `addCourse`;
- the **Add Assignment modal**: its reset effect, its required-field check and
  the callbacks it makes into its parent (module `AssignmentModal`);
- the shared-syllabi **search filter** (module `SharedSyllabi`);
- the chatbot's **message log** (module `Chatbot`);
- the calendar service's **event conversion**, its **sync loop** that stops at
  the first failure, and the **Google-user check** (module
  `GoogleCalendarService`).

Two support modules carry the JavaScript primitives the code relies on:

- `JsStrings`: `toLowerCase`, `includes`, `startsWith` and `trim`, with the
  exact ECMAScript whitespace set;
- `JsArrays`: `Array.prototype.filter`, with its membership, count, order,
  idempotence and concatenation laws.

`Wrappers` holds `Option` and `Result`.

Components that update state in place are classes whose fields are the
component's state cells. Their methods' `ensures` give each field's new value.
The pure mappings are functions, and the properties relating several calls are
lemmas. Inputs the code takes from its environment become parameters:

- the clock reading used as an id (`Date.now().toString()`);
- the outcome of fetching an access token;
- the calendar API's answer to each creation request.

Calls to `alert` and the modal's callbacks `onAddAssignment` and `onClose` are
recorded in ghost logs (`alerts`, `calls`).

## Model

| member | source | states |
|---|---|---|
| CourseContext.CourseProvider.constructor | hackathon/src/CourseContext.tsx:26 | the course list starts empty |
| CourseContext.CourseProvider.AddCourse | hackathon/src/CourseContext.tsx:28 | the new list is the old list with the course appended at the end |
| CourseContext.CourseProvider.DeleteCourse | hackathon/src/CourseContext.tsx:29 | the new list is the old list filtered to the entries whose id differs |
| CourseContext.AddAppends | hackathon/src/CourseContext.tsx:28 | appending grows the list by one and puts the course last; earlier entries keep their positions; the number of entries with that id rises by one, so a duplicate id yields two entries |
| JsArrays.Filter | hackathon/src/CourseContext.tsx:29 | `filter` returns no more elements than it is given; every element returned is an input element satisfying the predicate, and every input element satisfying it is returned (order and multiplicity by `DeleteKeepsOthers` and `SearchKeepsMatches`) |
| CourseContext.Without | hackathon/src/CourseContext.tsx:29 | the list after deleting an id holds exactly the old entries whose id differs, and is no longer than before |
| CourseContext.DeleteRemovesAll | hackathon/src/CourseContext.tsx:29 | after deleting an id, no entry with that id remains |
| CourseContext.DeleteKeepsOthers | hackathon/src/CourseContext.tsx:29 | deleting keeps every entry with another id, with its multiplicity; the result is an order-preserving subsequence of the old list |
| CourseContext.DeleteAbsent | hackathon/src/CourseContext.tsx:29 | deleting an id that no entry has leaves the list unchanged |
| CourseContext.DeleteTwice | hackathon/src/CourseContext.tsx:29 | deleting the same id twice equals deleting it once |
| CourseContext.AddThenDelete | hackathon/src/CourseContext.tsx:28-29 | adding a course whose id is absent and then deleting that id restores the previous list |
| DashboardPage.Dashboard.constructor | hackathon/src/pages/Dashboard.tsx:29-32 | the modal starts hidden, code and name start empty, and no file is selected |
| DashboardPage.Dashboard.ClickQuickAction | hackathon/src/pages/Dashboard.tsx:74 | only the "add" action opens the modal; the "plan" and "publish" actions change nothing |
| DashboardPage.Dashboard.HideModal | hackathon/src/pages/Dashboard.tsx:85 | closing the modal hides it and keeps the form fields |
| DashboardPage.Dashboard.EditCode | hackathon/src/pages/Dashboard.tsx:93 | typing sets the code and nothing else |
| DashboardPage.Dashboard.EditName | hackathon/src/pages/Dashboard.tsx:97 | typing sets the name and nothing else |
| DashboardPage.FirstFile | hackathon/src/pages/Dashboard.tsx:104-107 | the chosen file is the first selected file; it is none when the selection is missing or empty |
| DashboardPage.Dashboard.ChooseFile | hackathon/src/pages/Dashboard.tsx:104-107 | choosing files sets the file field to the first file, or none, and changes nothing else |
| DashboardPage.Dashboard.HandleSubmit | hackathon/src/pages/Dashboard.tsx:34-43 | with no file: only the "Please select a PDF!" alert; store, fields and modal are unchanged. With a file: exactly one course is appended with the clock id, the current code and name (not checked for emptiness) and the file as pdf; code and name become "", the file none, the modal closes, and the alert names the submitted course |
| AssignmentModal.InitialCourseId | hackathon/src/components/AddAssingmentModal.tsx:37 | the initial course id is the initial course's id, or "" when there is none |
| AssignmentModal.NewAssignment | hackathon/src/components/AddAssingmentModal.tsx:49-56 | an assignment is built iff title, due date and course id are all non-empty raw strings; it carries the clock id, the title, the due-date string unchanged and the course id |
| AssignmentModal.BlankTitleAccepted | hackathon/src/components/AddAssingmentModal.tsx:49 | every non-empty title made only of whitespace passes the check, since nothing is trimmed |
| AssignmentModal.AddAssignmentModal.constructor | hackathon/src/components/AddAssingmentModal.tsx:35-45 | on mount, title and due date are "", the course id is the initial course's id or "", and no callback or alert has happened |
| AssignmentModal.AddAssignmentModal.ResetFields | hackathon/src/components/AddAssingmentModal.tsx:41-43 | the effect body resets title and due date to "" and the course id to the initial course's id or "" |
| AssignmentModal.AddAssignmentModal.Rerender | hackathon/src/components/AddAssingmentModal.tsx:39-45 | when `show` changes, or the `initialCourse` prop becomes a different object (compared by identity, not contents), and the modal is shown, the three fields are reset; otherwise they are kept |
| AssignmentModal.AddAssignmentModal.EditTitle | hackathon/src/components/AddAssingmentModal.tsx:70 | typing sets the title |
| AssignmentModal.AddAssignmentModal.EditDueDateTime | hackathon/src/components/AddAssingmentModal.tsx:74 | picking a date sets the due-date string |
| AssignmentModal.AddAssignmentModal.SelectCourse | hackathon/src/components/AddAssingmentModal.tsx:78 | selecting sets the course id, which is not checked against the course list |
| AssignmentModal.AddAssignmentModal.HandleSubmit | hackathon/src/components/AddAssingmentModal.tsx:47-59 | if a field is empty, only the "Fill all fields!" alert happens and no callback is made; otherwise the parent gets exactly one `onAddAssignment` with the entered values, followed by one `onClose`, and no alert |
| AssignmentModal.AddAssignmentModal.Cancel | hackathon/src/components/AddAssingmentModal.tsx:87 | cancelling makes one `onClose` call |
| SharedSyllabi.Matches | hackathon/src/pages/SharedSyllabi.tsx:14-15 | the empty query matches every course; a match needs the query to be no longer than the course's name or code |
| SharedSyllabi.FilteredCourses | hackathon/src/pages/SharedSyllabi.tsx:12-16 | a course is listed iff its lower-cased name or lower-cased code contains the lower-cased query; the list is no longer than the course list |
| SharedSyllabi.SearchKeepsMatches | hackathon/src/pages/SharedSyllabi.tsx:12-16 | listed courses keep the multiplicity they have in the course list, and the result is an order-preserving subsequence of it |
| SharedSyllabi.SearchCaseInsensitive | hackathon/src/pages/SharedSyllabi.tsx:14-15 | queries that differ only in letter case list the same courses |
| SharedSyllabi.SearchLowerQuery | hackathon/src/pages/SharedSyllabi.tsx:14-15 | lower-casing the query first does not change the result |
| SharedSyllabi.EmptyQueryKeepsAll | hackathon/src/pages/SharedSyllabi.tsx:12-16 | the empty query lists every course, in order |
| SharedSyllabi.ShowsNoResults | hackathon/src/pages/SharedSyllabi.tsx:32-33 | "No syllabi found" is shown exactly when no course matches the query |
| JsStrings.Lower | hackathon/src/pages/SharedSyllabi.tsx:14-15 | `toLowerCase` keeps the length and maps each character: ASCII capitals to the small letter 32 code points later, everything else unchanged |
| JsStrings.Contains | hackathon/src/pages/SharedSyllabi.tsx:14-15 | `includes`: every string includes "", and none includes a longer string |
| JsStrings.Trim | hackathon/src/pages/Chatbot.tsx:18 | `trim` removes a blank prefix and a blank suffix of the input and nothing else: the result is the input's stretch at some position, everything before and after it is whitespace or line terminators, and it neither starts nor ends with such a character |
| JsStrings.TrimEmptyIff | hackathon/src/pages/Chatbot.tsx:18 | `input.trim()` is empty exactly when the input is empty or made only of whitespace |
| Chatbot.BotReply | hackathon/src/pages/Chatbot.tsx:39 | the reply is `Gemini would respond to: "`, then the query, then a closing `"` |
| Chatbot.EchoedQueryOfReply | hackathon/src/pages/Chatbot.tsx:39 | the query can be read back from the reply |
| Chatbot.Sent | hackathon/src/pages/Chatbot.tsx:18-41 | blank input leaves the log unchanged. Otherwise exactly two messages are appended after the old log, which stays as a prefix: the untrimmed input from the user, then the bot's reply |
| Chatbot.SendKeepsAlternation | hackathon/src/pages/Chatbot.tsx:21-41 | a send keeps the log of even length, with user messages at even positions and bot messages at odd ones |
| Chatbot.ConversationAlternates | hackathon/src/pages/Chatbot.tsx:16-48 | after any sequence of sends from the empty log, user and bot messages alternate and the length is even |
| Chatbot.Chat.constructor | hackathon/src/pages/Chatbot.tsx:12-13 | the message list and the input start empty |
| Chatbot.Chat.EditInput | hackathon/src/pages/Chatbot.tsx:80 | typing sets the input |
| Chatbot.Chat.HandleSend | hackathon/src/pages/Chatbot.tsx:16-48 | the log becomes `Sent(old log, old input)`; the input is cleared to "" after a send and kept when blank; alternation is preserved |
| GoogleCalendarService.TypeLabel | hackathon/src/services/googleCalendarService.ts:150 | the type shown is the event's type when present and non-empty, else "Assignment"; it is never empty |
| GoogleCalendarService.ToCalendarEvent | hackathon/src/services/googleCalendarService.ts:148-159 | the summary is title + " - " + course; the description is "Course: " + course + "\nType: " + type + "\nAdded by Sylly"; the event is all-day: both ends have the event's date, no time of day, and time zone "America/New_York" |
| GoogleCalendarService.MissingTypeIsEmptyType | hackathon/src/services/googleCalendarService.ts:150 | a missing type and an empty type give the same calendar event |
| GoogleCalendarService.SyncEventsToCalendar | hackathon/src/services/googleCalendarService.ts:141-170 | a failed token fetch is rethrown before any request. Otherwise one creation request per event is made, converted, in input order, each after the previous succeeded. On success the replies come back in that order, one per event. On the first failure no later event is attempted and that error is rethrown instead of the partial results |
| JsStrings.StartsWith | hackathon/src/services/googleCalendarService.ts:176 | `startsWith` holds exactly when the string is the prefix followed by something |
| GoogleCalendarService.IsGoogleUser | hackathon/src/services/googleCalendarService.ts:176 | the flag is defined exactly when there is a user with a subject, and true exactly when that subject is "google-oauth2\|" followed by anything |

## Left out

- Network and third-party SDK code is not modelled. This covers `apiService.ts` (fetch, mock fallback, health check). It also covers the script loading, client set-up, token request, `createCalendarEvent`, `getUpcomingEvents`, `addEventToCalendar` and `getEvents` in `googleCalendarService.ts`. The sync loop sees only the token outcome and each request's answer, as parameters.
- GoogleCalendarService.SyncEventsToCalendar: the calendar API's answer is a function of the request's position in the sync, the event and the token. Asynchrony, retries and side effects on the remote calendar are not modelled. The console logging in the error paths is left out.
- Authentication gating, routing, both navigation bars, the toast, the calendar embed, the Courses page (its modals only forward to `deleteCourse`), the calendar page's date formatting, and the older duplicate dashboard component are presentation. They are not part of this model.
- `useCourses` throwing outside a provider is a mechanism of the UI library's context, not of the store.
- The dashboard's "Upcoming" list is a constant display and is left out. The browser-side `required` attributes on the form fields are also left out, because the handler itself does not check code or name.
- The shared-syllabi page's download link for a course's PDF is presentation and is left out. The filter is a function of the list, so it cannot change the list.
- The chatbot's `catch` branch (Chatbot.tsx:42-47) is unreachable: nothing in its `try` can throw. The model leaves it out.
- JsStrings.Lower: lower-cases ASCII letters only. The browser's `toLowerCase` also maps non-ASCII letters, which the model leaves unchanged.
- State updates are applied at once and in program order. React's batching and re-render timing are not modelled, and neither are the modal's parent and any assignment store it may feed, which are not in the code.
- A browser `File` is reduced to an identity handle and a name, and a course prop object to an identity handle and its fields.
- `addCourse` accepts duplicate ids and empty code or name without error. These files have no assignment store, no per-course assignment list, no due-date sorting and no urgency classification, so the model has none either.
